/** Task lists as facts: one entry per task under a running number, regrouped by section name when read. */
module TaskFacts {
  import opened Text
  import opened OpenSpec
  import opened Numerals
  import opened Facts
  import opened ArtifactFacts
  import SpecFacts

  // ---------------------------------------------------------------------------------------
  // Regrouping
  // ---------------------------------------------------------------------------------------

  datatype Filed = Filed(section: string, task: Task)

  function File(name: string, ts: seq<Task>): seq<Filed> {
    if ts == [] then [] else [Filed(name, ts[0])] + File(name, ts[1..])
  }

  /** All tasks in document order, each with its section name. */
  function FlatTasks(ss: seq<TaskSection>): seq<Filed> {
    if ss == [] then [] else File(ss[0].name, ss[0].tasks) + FlatTasks(ss[1..])
  }

  function SectionIndex(ss: seq<TaskSection>, name: string): (i: nat)
    ensures i <= |ss|
    ensures i < |ss| ==> ss[i].name == name
    ensures forall j | 0 <= j < i :: ss[j].name != name
  {
    if ss == [] || ss[0].name == name then 0 else 1 + SectionIndex(ss[1..], name)
  }

  function Refile(ss: seq<TaskSection>, x: Filed): seq<TaskSection> {
    var i := SectionIndex(ss, x.section);
    if i < |ss| then ss[i := ss[i].(tasks := ss[i].tasks + [x.task])] else ss + [TaskSection(x.section, [x.task])]
  }

  /** Sections in order of first appearance, tasks in order. */
  function Regroup(ss: seq<TaskSection>, xs: seq<Filed>): seq<TaskSection>
    decreases |xs|
  {
    if xs == [] then ss else Regroup(Refile(ss, xs[0]), xs[1..])
  }

  /** Section names are distinct and no section is empty. */
  ghost predicate Groups(ss: seq<TaskSection>) {
    && (forall i, j | 0 <= i < j < |ss| :: ss[i].name != ss[j].name)
    && (forall i | 0 <= i < |ss| :: ss[i].tasks != [])
  }

  lemma {:induction false} RegroupGroups(ss: seq<TaskSection>, xs: seq<Filed>)
    requires Groups(ss)
    ensures Groups(Regroup(ss, xs))
    decreases |xs|
  {
    if xs != [] { RegroupGroups(Refile(ss, xs[0]), xs[1..]); }
  }

  lemma {:induction false} RegroupAppend(ss: seq<TaskSection>, a: seq<Filed>, b: seq<Filed>)
    ensures Regroup(ss, a + b) == Regroup(Regroup(ss, a), b)
    decreases |a|
  {
    if a == [] {
      assert a + b == b;
    } else {
      assert (a + b)[1..] == a[1..] + b;
      RegroupAppend(Refile(ss, a[0]), a[1..], b);
    }
  }

  lemma LastIndex(ss: seq<TaskSection>, sec: TaskSection)
    requires forall i | 0 <= i < |ss| :: ss[i].name != sec.name
    ensures SectionIndex(ss + [sec], sec.name) == |ss|
  {
    hide SectionIndex;
    var all := ss + [sec];
    assert all[|ss|] == sec && forall i | 0 <= i < |ss| :: all[i] == ss[i];
  }

  /** Tasks of the section at the end of the list stay there. */
  lemma {:induction false} RegroupLast(ss: seq<TaskSection>, sec: TaskSection, ts: seq<Task>)
    requires forall i | 0 <= i < |ss| :: ss[i].name != sec.name
    ensures Regroup(ss + [sec], File(sec.name, ts)) == ss + [sec.(tasks := sec.tasks + ts)]
    decreases |ts|
  {
    hide SectionIndex;
    if ts == [] {
      assert sec.tasks + ts == sec.tasks;
    } else {
      var all := ss + [sec];
      LastIndex(ss, sec);
      var sec' := sec.(tasks := sec.tasks + [ts[0]]);
      assert Refile(all, Filed(sec.name, ts[0])) == ss + [sec'];
      RegroupLast(ss, sec', ts[1..]);
      assert sec.tasks + [ts[0]] + ts[1..] == sec.tasks + ts;
    }
  }

  lemma {:induction false} RegroupSection(ss: seq<TaskSection>, sec: TaskSection)
    requires (forall i | 0 <= i < |ss| :: ss[i].name != sec.name) && sec.tasks != []
    ensures Regroup(ss, File(sec.name, sec.tasks)) == ss + [sec]
  {
    var t, xs := sec.tasks[0], File(sec.name, sec.tasks);
    var started := TaskSection(sec.name, [t]);
    assert Refile(ss, xs[0]) == ss + [started];
    RegroupLast(ss, started, sec.tasks[1..]);
    assert xs[1..] == File(sec.name, sec.tasks[1..]);
    assert started.(tasks := started.tasks + sec.tasks[1..]) == sec by { assert [t] + sec.tasks[1..] == sec.tasks; }
  }

  lemma {:induction false} RegroupAll(done: seq<TaskSection>, ss: seq<TaskSection>)
    requires Groups(done + ss)
    ensures Regroup(done, FlatTasks(ss)) == done + ss
    decreases |ss|
  {
    hide File, Refile;
    if ss == [] {
      assert done + ss == done;
    } else {
      assert (done + ss)[|done|] == ss[0];
      forall i | 0 <= i < |done| ensures done[i].name != ss[0].name {
        assert (done + ss)[i] == done[i];
      }
      RegroupSection(done, ss[0]);
      RegroupAppend(done, File(ss[0].name, ss[0].tasks), FlatTasks(ss[1..]));
      assert done + [ss[0]] + ss[1..] == done + ss;
      RegroupAll(done + [ss[0]], ss[1..]);
    }
  }

  /** Regrouping by section name restores the sections exactly when names are distinct and no section is empty. */
  lemma RegroupIffGroups(ss: seq<TaskSection>)
    ensures Regroup([], FlatTasks(ss)) == ss <==> Groups(ss)
  {
    hide FlatTasks, Regroup;
    assert [] + ss == ss;
    RegroupGroups([], FlatTasks(ss));
    if Groups(ss) {
      RegroupAll([], ss);
    }
  }

  /** A repeated name merges its sections, and the tasks of the second come to stand before those in between. */
  lemma RepeatedSectionIsMerged(t: Task, u: Task, v: Task)
    ensures var ss := [TaskSection("A", [t]), TaskSection("B", [u]), TaskSection("A", [v])];
            Regroup([], FlatTasks(ss)) == [TaskSection("A", [t, v]), TaskSection("B", [u])] != ss
  {
    var a, b, c := TaskSection("A", [t]), TaskSection("B", [u]), TaskSection("A", [v]);
    var x, y, z := Filed("A", t), Filed("B", u), Filed("A", v);
    FlatThree(a, b, c);
    RegroupThree(x, y, z);
    assert "A" != "B" by { assert "A"[0] != "B"[0]; }
    assert Refile([], x) == [a];
    assert Refile([a], y) == [a, b];
    assert [t] + [v] == [t, v];
    assert Refile([a, b], z) == [TaskSection("A", [t, v]), b];
  }

  lemma FlatThree(a: TaskSection, b: TaskSection, c: TaskSection)
    requires |a.tasks| == |b.tasks| == |c.tasks| == 1
    ensures FlatTasks([a, b, c]) == [Filed(a.name, a.tasks[0]), Filed(b.name, b.tasks[0]), Filed(c.name, c.tasks[0])]
  {
    assert [a, b, c][1..] == [b, c] && [b, c][1..] == [c] && [c][1..] == [];
    FileOne(a);
    FileOne(b);
    FileOne(c);
    assert FlatTasks([c]) == File(c.name, c.tasks) + FlatTasks([]);
    assert FlatTasks([b, c]) == File(b.name, b.tasks) + FlatTasks([c]);
    assert FlatTasks([a, b, c]) == File(a.name, a.tasks) + FlatTasks([b, c]);
  }

  lemma FileOne(s: TaskSection)
    requires |s.tasks| == 1
    ensures File(s.name, s.tasks) == [Filed(s.name, s.tasks[0])]
  {
    assert s.tasks[1..] == [];
  }

  lemma RegroupThree(x: Filed, y: Filed, z: Filed)
    ensures Regroup([], [x, y, z]) == Refile(Refile(Refile([], x), y), z)
  {
    hide Refile;
    assert [x, y, z][1..] == [y, z] && [y, z][1..] == [z] && [z][1..] == [];
    var a := Refile([], x);
    var b := Refile(a, y);
    assert Regroup(b, [z]) == Refile(b, z);
    assert Regroup(a, [y, z]) == Regroup(b, [z]);
  }

  // ---------------------------------------------------------------------------------------
  // One task
  // ---------------------------------------------------------------------------------------

  function TaskPrefix(base: string, n: int): string {
    base + Decimal(n) + "."
  }

  function TaskEntry(base: string, xs: seq<Filed>, i: nat): Entry
    requires i < |xs|
  {
    var t := xs[i].task;
    Four(TaskPrefix(base, i), "number", OfText(t.number), "text", OfText(t.text), "done", Some(Flag(t.done)),
         "section", OfText(xs[i].section))
  }

  function TaskEntries(base: string, xs: seq<Filed>, n: nat): seq<Entry>
    requires n <= |xs|
  {
    seq(n, i requires 0 <= i < n => TaskEntry(base, xs, i))
  }

  function FlagAt(idx: FactIndex, k: string): bool {
    k in idx && idx[k].Flag? && idx[k].flag
  }

  function FiledAt(idx: FactIndex, p: string): Filed {
    Filed(TextAt(idx, p + "section"), Task(TextAt(idx, p + "number"), TextAt(idx, p + "text"), FlagAt(idx, p + "done")))
  }

  lemma TaskNames()
    ensures FourNames("number", "text", "done", "section")
  {
    assert "text"[0] != "done"[0];
    assert |"number"| == 6 && |"text"| == 4 && |"done"| == 4 && |"section"| == 7;
  }

  lemma TaskEntryOk(base: string, xs: seq<Filed>, i: nat)
    requires i < |xs|
    ensures EntryOk(TaskEntry(base, xs, i)) && TaskEntry(base, xs, i).prefix == TaskPrefix(base, i)
  {
    hide EntryOk, Four, FourNames, OfText, Decimal;
    TaskNames();
    var p, t := TaskPrefix(base, i), xs[i].task;
    FourOk(p, "number", OfText(t.number), "text", OfText(t.text), "done", Some(Flag(t.done)), "section", OfText(xs[i].section));
    FourPrefix(p, "number", OfText(t.number), "text", OfText(t.text), "done", Some(Flag(t.done)), "section", OfText(xs[i].section));
  }

  lemma TaskShows(idx: FactIndex, base: string, xs: seq<Filed>, i: nat)
    requires i < |xs| && Shows(idx, TaskEntry(base, xs, i))
    ensures FiledAt(idx, TaskPrefix(base, i)) == xs[i] && TaskPrefix(base, i) + "done" in idx
  {
    hide Shows, Four, Decimal;
    TaskNames();
    var p, t := TaskPrefix(base, i), xs[i].task;
    FourShow(idx, p, "number", OfText(t.number), "text", OfText(t.text), "done", Some(Flag(t.done)), "section", OfText(xs[i].section));
  }

  // ---------------------------------------------------------------------------------------
  // The task numbers under a prefix
  // ---------------------------------------------------------------------------------------

  function NumberOf(rest: string): Option<int> {
    var c := SpecFacts.ChildOf(rest);
    if c.Some? then Atoi(c.value) else None
  }

  ghost function Indices(idx: FactIndex, base: string): set<int> {
    set k | k in idx && base <= k && NumberOf(k[|base|..]).Some? :: NumberOf(k[|base|..]).value
  }

  ghost predicate Rising(ns: seq<int>) {
    forall i, j | 0 <= i < j < |ns| :: ns[i] < ns[j]
  }

  /** The task numbers, each once, in numeric order. */
  ghost predicate Numbers(idx: FactIndex, base: string, ns: seq<int>) {
    Rising(ns) && forall n :: n in ns <==> n in Indices(idx, base)
  }

  function FiledList(idx: FactIndex, base: string, ns: seq<int>): seq<Filed> {
    seq(|ns|, i requires 0 <= i < |ns| => FiledAt(idx, TaskPrefix(base, ns[i])))
  }

  /** What the reader may return, whatever order the index is enumerated in. */
  ghost predicate TasksRead(idx: FactIndex, base: string, t: Option<Tasks>) {
    exists ns :: Numbers(idx, base, ns) && t == Regrouped(FiledList(idx, base, ns))
  }

  function Regrouped(xs: seq<Filed>): Option<Tasks> {
    if xs == [] then None else Some(Tasks("", Regroup([], xs)))
  }

  lemma NumberReads(base: string, i: nat, field: string)
    ensures base <= TaskPrefix(base, i) + field
    ensures NumberOf((TaskPrefix(base, i) + field)[|base|..]) == Some(i as int)
  {
    hide Itoa, Atoi, SpecFacts.ChildOf;
    ItoaDigits(i);
    AtoiItoa(i);
    SpecFacts.ChildReads(base, Itoa(i), field);
    assert TaskPrefix(base, i) + field == base + Itoa(i) + "." + field;
  }

  /** The index holds the tasks `xs` under `base`, and names no other task; it may say more about these. */
  ghost predicate Holds(idx: FactIndex, base: string, xs: seq<Filed>) {
    && (forall i | 0 <= i < |xs| :: FiledAt(idx, TaskPrefix(base, i)) == xs[i] && TaskPrefix(base, i) + "done" in idx)
    && (forall n | n in Indices(idx, base) :: 0 <= n < |xs|)
  }

  lemma HeldNumbers(idx: FactIndex, base: string, xs: seq<Filed>, ns: seq<int>)
    requires Holds(idx, base, xs) && Numbers(idx, base, ns)
    ensures |ns| == |xs| && forall i | 0 <= i < |xs| :: ns[i] == i
  {
    hide FiledAt, NumberOf, TaskPrefix;
    forall n | 0 <= n < |xs| ensures n in ns {
      assert TaskPrefix(base, n) + "done" in idx;
      NumberReads(base, n, "done");
      assert n in Indices(idx, base);
    }
    SpecFacts.CountsUp(ns, |xs|);
  }

  /** What a stored task list reads back as. */
  lemma TasksReadBack(idx: FactIndex, base: string, xs: seq<Filed>, t: Option<Tasks>)
    requires Holds(idx, base, xs) && TasksRead(idx, base, t)
    ensures t == Regrouped(xs)
  {
    hide TaskPrefix, FiledAt, Numbers, Regrouped;
    var ns :| Numbers(idx, base, ns) && t == Regrouped(FiledList(idx, base, ns));
    HeldNumbers(idx, base, xs, ns);
    forall i | 0 <= i < |xs| ensures FiledList(idx, base, ns)[i] == xs[i] {
      assert ns[i] == i;
    }
    assert FiledList(idx, base, ns) == xs;
  }

  // ---------------------------------------------------------------------------------------
  // The loops of the code
  // ---------------------------------------------------------------------------------------

  function InsertInt(n: int, ns: seq<int>): seq<int> {
    if ns == [] then [n] else if n < ns[0] then [n] + ns else [ns[0]] + InsertInt(n, ns[1..])
  }

  lemma {:induction false} InsertMembers(n: int, ns: seq<int>)
    ensures forall x :: x in InsertInt(n, ns) <==> x == n || x in ns
  {
    if ns != [] {
      InsertMembers(n, ns[1..]);
      assert ns == [ns[0]] + ns[1..];
    }
  }

  lemma HeadedRises(h: int, tail: seq<int>)
    requires Rising(tail) && forall x | x in tail :: h < x
    ensures Rising([h] + tail)
  {
    var out := [h] + tail;
    forall i, j | 0 <= i < j < |out| ensures out[i] < out[j] {
      assert out[j] == tail[j - 1] && tail[j - 1] in tail;
      if i > 0 { assert out[i] == tail[i - 1]; }
    }
  }

  lemma RisingTail(ns: seq<int>)
    requires Rising(ns) && ns != []
    ensures Rising(ns[1..]) && forall x | x in ns[1..] :: ns[0] < x
  {
  }

  lemma {:induction false} InsertRises(n: int, ns: seq<int>)
    requires Rising(ns) && n !in ns
    ensures Rising(InsertInt(n, ns)) && forall x :: x in InsertInt(n, ns) <==> x == n || x in ns
  {
    InsertMembers(n, ns);
    if ns != [] {
      RisingTail(ns);
      assert ns == [ns[0]] + ns[1..];
      if n < ns[0] {
        hide Rising;
        HeadedRises(n, ns);
      } else {
        InsertRises(n, ns[1..]);
        hide Rising;
        HeadedRises(ns[0], InsertInt(n, ns[1..]));
      }
    }
  }

  lemma IndexAdded(done: FactIndex, base: string, k: string, v: Object)
    ensures var n := if base <= k then NumberOf(k[|base|..]) else None;
            Indices(done[k := v], base) == Indices(done, base) + if n.Some? then {n.value} else {}
  {
    hide NumberOf;
    var big := done[k := v];
    var n := if base <= k then NumberOf(k[|base|..]) else None;
    forall x ensures x in Indices(big, base) <==> x in Indices(done, base) || n == Some(x) {
      if x in Indices(done, base) {
        var j :| j in done && base <= j && NumberOf(j[|base|..]) == Some(x);
        assert j in big;
      } else if n == Some(x) {
        assert k in big;
      }
    }
  }

  /** Enumerates the index in any order and sorts the numbers found. */
  method IntChildIndices(idx: FactIndex, base: string) returns (ns: seq<int>)
    ensures Numbers(idx, base, ns)
  {
    hide NumberOf, Numbers, InsertInt;
    ns := [];
    ghost var done: FactIndex := map[];
    var rest := idx.Keys;
    NoNumbers(base);
    while rest != {}
      invariant rest <= idx.Keys && done.Keys == idx.Keys - rest && forall k | k in done :: done[k] == idx[k]
      invariant Numbers(done, base, ns)
      decreases |rest|
    {
      var k :| k in rest;
      NumbersAdded(done, base, k, idx[k], ns);
      if base <= k {
        var n := NumberOf(k[|base|..]);
        if n.Some? && n.value !in ns {
          ns := InsertInt(n.value, ns);
        }
      }
      done := done[k := idx[k]];
      rest := rest - {k};
    }
    assert done == idx;
  }

  lemma NoNumbers(base: string)
    ensures Numbers(map[], base, [])
  {
  }

  lemma NumbersAdded(done: FactIndex, base: string, k: string, v: Object, ns: seq<int>)
    requires Numbers(done, base, ns)
    ensures var n := if base <= k then NumberOf(k[|base|..]) else None;
            Numbers(done[k := v], base, if n.Some? && n.value !in ns then InsertInt(n.value, ns) else ns)
  {
    hide NumberOf, Indices, Rising, InsertInt;
    IndexAdded(done, base, k, v);
    var n := if base <= k then NumberOf(k[|base|..]) else None;
    if n.Some? && n.value !in ns { InsertRises(n.value, ns); }
  }

  /** `at` knows where each section name stands. */
  ghost predicate Located(ss: seq<TaskSection>, at: map<string, nat>) {
    forall name :: if name in at then at[name] == SectionIndex(ss, name) < |ss| else SectionIndex(ss, name) == |ss|
  }

  lemma {:induction false} IndexAppended(ss: seq<TaskSection>, sec: TaskSection, name: string)
    ensures SectionIndex(ss + [sec], name) ==
            if SectionIndex(ss, name) < |ss| then SectionIndex(ss, name) else if sec.name == name then |ss| else |ss| + 1
  {
    if ss != [] {
      assert (ss + [sec])[1..] == ss[1..] + [sec];
      IndexAppended(ss[1..], sec, name);
    }
  }

  lemma {:induction false} IndexUnmoved(ss: seq<TaskSection>, i: nat, sec: TaskSection, name: string)
    requires i < |ss| && ss[i].name == sec.name
    ensures SectionIndex(ss[i := sec], name) == SectionIndex(ss, name)
  {
    if i > 0 {
      assert ss[i := sec][1..] == ss[1..][i - 1 := sec];
      IndexUnmoved(ss[1..], i - 1, sec, name);
    } else {
      assert ss[i := sec][1..] == ss[1..];
    }
  }

  method FileTask(ss: seq<TaskSection>, at: map<string, nat>, x: Filed) returns (ss': seq<TaskSection>, at': map<string, nat>)
    requires Located(ss, at)
    ensures ss' == Refile(ss, x) && Located(ss', at')
  {
    hide SectionIndex;
    ss', at' := ss, at;
    if x.section !in at {
      forall name ensures SectionIndex(ss + [TaskSection(x.section, [])], name) ==
                          if name in at then at[name] else if name == x.section then |ss| else |ss| + 1 {
        IndexAppended(ss, TaskSection(x.section, []), name);
      }
      at' := at[x.section := |ss|];
      ss' := ss + [TaskSection(x.section, [])];
    }
    var si := at'[x.section];
    var sec := ss'[si].(tasks := ss'[si].tasks + [x.task]);
    forall name ensures SectionIndex(ss'[si := sec], name) == SectionIndex(ss', name) {
      IndexUnmoved(ss', si, sec, name);
    }
    ss' := ss'[si := sec];
    if x.section !in at {
      assert sec.tasks == [x.task];
      assert ss' == ss + [TaskSection(x.section, [x.task])];
    }
  }

  lemma RegroupSnoc(xs: seq<Filed>, i: nat)
    requires i < |xs|
    ensures Regroup([], xs[..i + 1]) == Refile(Regroup([], xs[..i]), xs[i])
  {
    hide Refile;
    assert xs[..i + 1] == xs[..i] + [xs[i]];
    RegroupAppend([], xs[..i], [xs[i]]);
    assert [xs[i]][1..] == [];
  }

  /** Rebuilds the task list under a prefix. */
  method TasksFromIndex(idx: FactIndex, base: string) returns (t: Option<Tasks>)
    ensures TasksRead(idx, base, t)
  {
    hide Numbers, FiledAt, TaskPrefix, Refile, SectionIndex;
    var ns := IntChildIndices(idx, base);
    ghost var xs := FiledList(idx, base, ns);
    if ns == [] {
      t := None;
      assert t == Regrouped(xs);
      return;
    }
    var ss: seq<TaskSection>, at: map<string, nat> := [], map[];
    assert Located(ss, at) by { NoneLocated(); }
    var i := 0;
    while i < |ns|
      invariant 0 <= i <= |ns|
      invariant ss == Regroup([], xs[..i]) && Located(ss, at)
    {
      RegroupSnoc(xs, i);
      ss, at := FileTask(ss, at, FiledAt(idx, TaskPrefix(base, ns[i])));
      i := i + 1;
    }
    assert xs[..i] == xs;
    t := Some(Tasks("", ss));
    assert t == Regrouped(xs);
  }

  lemma NoneLocated()
    ensures Located([], map[])
  {
  }

  lemma TaskAppended(base: string, xs: seq<Filed>, i: nat)
    requires i < |xs|
    ensures Flatten(TaskEntries(base, xs, i + 1)) == Flatten(TaskEntries(base, xs, i)) + TaskEntry(base, xs, i).facts
  {
    hide TaskEntry, Flatten;
    assert TaskEntries(base, xs, i + 1) == TaskEntries(base, xs, i) + [TaskEntry(base, xs, i)];
    FlattenAppend(TaskEntries(base, xs, i), [TaskEntry(base, xs, i)]);
    SpecFacts.FlattenOne(TaskEntry(base, xs, i));
  }

  lemma TaskIsNext(xs: seq<Filed>, i: nat, name: string, ts: seq<Task>, after: seq<Filed>)
    requires i <= |xs| && xs[i..] == File(name, ts) + after && ts != []
    ensures i < |xs| && xs[i] == Filed(name, ts[0]) && xs[i + 1..] == File(name, ts[1..]) + after
  {
    assert xs[i..][0] == Filed(name, ts[0]);
    assert xs[i + 1..] == xs[i..][1..];
    assert (File(name, ts) + after)[1..] == File(name, ts)[1..] + after;
  }

  /** Emits the facts of all tasks in document order under a running number. */
  method FactsFromTasks(base: string, ss: seq<TaskSection>) returns (facts: seq<Fact>)
    ensures facts == Flatten(TaskEntries(base, FlatTasks(ss), |FlatTasks(ss)|))
  {
    hide Flatten, TaskEntry, File;
    ghost var xs := FlatTasks(ss);
    facts := [];
    assert Flatten(TaskEntries(base, xs, 0)) == [] by { NoEntries(base, xs); }
    var i, s := 0, 0;
    while s < |ss|
      invariant 0 <= s <= |ss| && 0 <= i <= |xs|
      invariant xs[i..] == FlatTasks(ss[s..])
      invariant facts == Flatten(TaskEntries(base, xs, i))
    {
      var sec := ss[s];
      assert ss[s..][1..] == ss[s + 1..] && ss[s..][0] == sec;
      var t := 0;
      assert sec.tasks[0..] == sec.tasks;
      while t < |sec.tasks|
        invariant 0 <= t <= |sec.tasks| && 0 <= i <= |xs|
        invariant xs[i..] == File(sec.name, sec.tasks[t..]) + FlatTasks(ss[s + 1..])
        invariant facts == Flatten(TaskEntries(base, xs, i))
      {
        TaskIsNext(xs, i, sec.name, sec.tasks[t..], FlatTasks(ss[s + 1..]));
        assert sec.tasks[t..][1..] == sec.tasks[t + 1..];
        TaskAppended(base, xs, i);
        var p, task := TaskPrefix(base, i), sec.tasks[t];
        facts := facts + TaskFactsAt(p, sec.name, task);
        TaskEntryFacts(base, xs, i);
        i := i + 1;
        t := t + 1;
      }
      NothingFiled(sec.name);
      assert sec.tasks[t..] == [];
      s := s + 1;
    }
    assert |xs[i..]| == 0;
  }

  function TaskFactsAt(p: string, section: string, t: Task): seq<Fact> {
    AddText(p + "number", t.number) + AddText(p + "text", t.text) + [Fact(p + "done", Flag(t.done))] + AddText(p + "section", section)
  }

  lemma TaskEntryFacts(base: string, xs: seq<Filed>, i: nat)
    requires i < |xs|
    ensures TaskEntry(base, xs, i).facts == TaskFactsAt(TaskPrefix(base, i), xs[i].section, xs[i].task)
  {
  }

  lemma NothingFiled(name: string)
    ensures File(name, []) == []
  {
  }

  lemma NoEntries(base: string, xs: seq<Filed>)
    ensures Flatten(TaskEntries(base, xs, 0)) == []
  {
  }
}

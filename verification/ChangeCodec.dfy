/** The entry points of the change codec, and every fact that they write and read by its full key. */
module ChangeCodec {
  import opened Text
  import opened OpenSpec
  import opened Numerals
  import opened RequirementIds
  import opened Facts
  import opened ArtifactFacts
  import opened TaskFacts
  import opened DeltaFacts
  import opened ChangeFacts

  // ---------------------------------------------------------------------------------------
  // The facts of a change, one by one
  // ---------------------------------------------------------------------------------------

  ghost predicate ProposalFact(slug: string, y: Proposal, f: Fact) {
    || (y.intent != "" && f == Fact("change." + slug + ".proposal.intent", Prose(y.intent)))
    || (y.scopeIn != [] && f == Fact("change." + slug + ".proposal.scope_in", StringList(y.scopeIn)))
    || (y.scopeOut != [] && f == Fact("change." + slug + ".proposal.scope_out", StringList(y.scopeOut)))
    || (y.approach != "" && f == Fact("change." + slug + ".proposal.approach", Prose(y.approach)))
  }

  ghost predicate DesignFact(slug: string, y: Design, f: Fact) {
    || (y.technical != "" && f == Fact("change." + slug + ".design.technical_approach", Prose(y.technical)))
    || (y.decisions != [] && f == Fact("change." + slug + ".design.decisions", DecisionList(y.decisions)))
    || (y.dataFlow != "" && f == Fact("change." + slug + ".design.data_flow", Prose(y.dataFlow)))
    || (y.fileChanges != [] && f == Fact("change." + slug + ".design.file_changes", FileChangeList(y.fileChanges)))
  }

  /** The number of tasks in the first `n` sections. */
  function TasksBefore(ss: seq<TaskSection>, n: nat): nat
    requires n <= |ss|
  {
    if n == 0 then 0 else TasksBefore(ss, n - 1) + |ss[n - 1].tasks|
  }

  ghost predicate TaskFact(slug: string, n: nat, section: string, t: Task, f: Fact) {
    var p := "change." + slug + ".task." + Itoa(n);
    || (t.number != "" && f == Fact(p + ".number", Prose(t.number)))
    || (t.text != "" && f == Fact(p + ".text", Prose(t.text)))
    || f == Fact(p + ".done", Flag(t.done))
    || (section != "" && f == Fact(p + ".section", Prose(section)))
  }

  /** The tasks are numbered from zero through all sections. */
  ghost predicate TaskListFact(slug: string, ss: seq<TaskSection>, f: Fact) {
    exists i, j :: 0 <= i < |ss| && 0 <= j < |ss[i].tasks| && TaskFact(slug, TasksBefore(ss, i) + j, ss[i].name, ss[i].tasks[j], f)
  }

  ghost predicate AddedFact(p: string, r: Requirement, pos: nat, f: Fact) {
    f == Fact(p + ".op", Prose("added")) || RequirementFact(p, r, pos, f)
  }

  ghost predicate ModifiedFact(p: string, m: Modified, pos: nat, f: Fact) {
    || f == Fact(p + ".op", Prose("modified"))
    || RequirementFact(p, m.requirement, pos, f)
    || (m.previously != "" && f == Fact(p + ".previously", Prose(m.previously)))
  }

  ghost predicate RemovedFact(p: string, r: Removed, pos: nat, f: Fact) {
    || f == Fact(p + ".op", Prose("removed"))
    || (r.name != "" && f == Fact(p + ".name", Prose(r.name)))
    || f == Fact(p + ".position", Number(pos))
    || (r.rationale != "" && f == Fact(p + ".rationale", Prose(r.rationale)))
  }

  /** The names in a delta: added, then modified, then removed. */
  function NamesOf(d: Delta): seq<string> {
    seq(|d.added|, i requires 0 <= i < |d.added| => d.added[i].name) +
    seq(|d.modified|, i requires 0 <= i < |d.modified| => d.modified[i].requirement.name) +
    seq(|d.removed|, i requires 0 <= i < |d.removed| => d.removed[i].name)
  }

  /** The key of the `j`th requirement change of a delta, without its field. */
  function ItemKey(slug: string, d: Delta, j: nat): string
    requires j < |d.added| + |d.modified| + |d.removed|
  {
    "change." + slug + ".delta." + d.capability + "." + Rid(NamesOf(d), j)
  }

  /** Positions count through added, modified and removed. */
  ghost predicate DeltaFact(slug: string, d: Delta, f: Fact) {
    var a, m := |d.added|, |d.added| + |d.modified|;
    || (exists j :: 0 <= j < |d.added| && AddedFact(ItemKey(slug, d, j), d.added[j], j, f))
    || (exists j :: 0 <= j < |d.modified| && ModifiedFact(ItemKey(slug, d, a + j), d.modified[j], a + j, f))
    || (exists j :: 0 <= j < |d.removed| && RemovedFact(ItemKey(slug, d, m + j), d.removed[j], m + j, f))
  }

  /** Every fact that a change is stored as. */
  ghost predicate StoredFact(c: Change, f: Fact) {
    || (c.proposal.Some? && ProposalFact(c.slug, c.proposal.value, f))
    || (c.design.Some? && DesignFact(c.slug, c.design.value, f))
    || (c.tasks.Some? && TaskListFact(c.slug, c.tasks.value.sections, f))
    || (exists i :: 0 <= i < |c.deltas| && DeltaFact(c.slug, c.deltas[i], f))
  }

  // ---------------------------------------------------------------------------------------
  // They are what is written
  // ---------------------------------------------------------------------------------------

  lemma JoinedKey(slug: string, seg: string, field: string, tail: string)
    requires tail == "." + seg + "." + field
    ensures Under(ChangeBase(slug), seg) + field == "change." + slug + tail
  {
  }

  lemma ProposalKeys(slug: string)
    ensures var p := Under(ChangeBase(slug), "proposal");
            && p + "intent" == "change." + slug + ".proposal.intent"
            && p + "scope_in" == "change." + slug + ".proposal.scope_in"
            && p + "scope_out" == "change." + slug + ".proposal.scope_out"
            && p + "approach" == "change." + slug + ".proposal.approach"
  {
    hide Under, ChangeBase;
    JoinedKey(slug, "proposal", "intent", ".proposal.intent");
    JoinedKey(slug, "proposal", "scope_in", ".proposal.scope_in");
    JoinedKey(slug, "proposal", "scope_out", ".proposal.scope_out");
    JoinedKey(slug, "proposal", "approach", ".proposal.approach");
  }

  lemma DesignKeys(slug: string)
    ensures var p := Under(ChangeBase(slug), "design");
            && p + "technical_approach" == "change." + slug + ".design.technical_approach"
            && p + "decisions" == "change." + slug + ".design.decisions"
  {
    hide Under, ChangeBase;
    JoinedKey(slug, "design", "technical_approach", ".design.technical_approach");
    JoinedKey(slug, "design", "decisions", ".design.decisions");
  }

  lemma MoreDesignKeys(slug: string)
    ensures var p := Under(ChangeBase(slug), "design");
            && p + "data_flow" == "change." + slug + ".design.data_flow"
            && p + "file_changes" == "change." + slug + ".design.file_changes"
  {
    hide Under, ChangeBase;
    JoinedKey(slug, "design", "data_flow", ".design.data_flow");
    JoinedKey(slug, "design", "file_changes", ".design.file_changes");
  }

  lemma ProposalWritten(c: Change, f: Fact)
    ensures f in ProposalPart(c).facts <==> c.proposal.Some? && ProposalFact(c.slug, c.proposal.value, f)
  {
    hide Under, ChangeBase, Four;
    if c.proposal.Some? {
      var y, p := c.proposal.value, Under(ChangeBase(c.slug), "proposal");
      ProposalKeys(c.slug);
      FourMembers(p, "intent", OfText(y.intent), "scope_in", OfStrings(y.scopeIn), "scope_out", OfStrings(y.scopeOut),
                  "approach", OfText(y.approach));
    }
  }

  lemma DesignWritten(c: Change, f: Fact)
    ensures f in DesignPart(c).facts <==> c.design.Some? && DesignFact(c.slug, c.design.value, f)
  {
    hide Under, ChangeBase, Four;
    if c.design.Some? {
      var y, p := c.design.value, Under(ChangeBase(c.slug), "design");
      DesignKeys(c.slug);
      MoreDesignKeys(c.slug);
      FourMembers(p, "technical_approach", OfText(y.technical), "decisions", OfDecisions(y.decisions), "data_flow",
                  OfText(y.dataFlow), "file_changes", OfChanges(y.fileChanges));
    }
  }

  lemma {:induction false} BeforeTail(ss: seq<TaskSection>, n: nat)
    requires 0 < n <= |ss|
    ensures TasksBefore(ss, n) == |ss[0].tasks| + TasksBefore(ss[1..], n - 1)
  {
    if n > 1 { BeforeTail(ss, n - 1); }
  }

  lemma {:induction false} FileLength(name: string, ts: seq<Task>)
    ensures |File(name, ts)| == |ts| && forall j | 0 <= j < |ts| :: File(name, ts)[j] == Filed(name, ts[j])
  {
    if ts != [] { FileLength(name, ts[1..]); }
  }

  lemma {:induction false} FlatAt(ss: seq<TaskSection>, i: nat, j: nat)
    requires i < |ss| && j < |ss[i].tasks|
    ensures var n := TasksBefore(ss, i) + j; n < |FlatTasks(ss)| && FlatTasks(ss)[n] == Filed(ss[i].name, ss[i].tasks[j])
  {
    hide File;
    FileLength(ss[0].name, ss[0].tasks);
    if i > 0 {
      FlatAt(ss[1..], i - 1, j);
      BeforeTail(ss, i);
    }
  }

  lemma {:induction false} FlatFrom(ss: seq<TaskSection>, n: nat) returns (i: nat, j: nat)
    requires n < |FlatTasks(ss)|
    ensures i < |ss| && j < |ss[i].tasks| && n == TasksBefore(ss, i) + j
  {
    hide File;
    var first := |ss[0].tasks|;
    FileLength(ss[0].name, ss[0].tasks);
    if n < first {
      i, j := 0, n;
    } else {
      i, j := FlatFrom(ss[1..], n - first);
      BeforeTail(ss, i + 1);
      i := i + 1;
    }
  }

  lemma TaskKeys(slug: string, n: nat)
    ensures var p, q := TaskPrefix(Under(ChangeBase(slug), "task"), n), "change." + slug + ".task." + Itoa(n);
            p + "number" == q + ".number" && p + "text" == q + ".text" && p + "done" == q + ".done" && p + "section" == q + ".section"
  {
    hide Itoa;
    var b, q := Under(ChangeBase(slug), "task"), "change." + slug + ".task." + Itoa(n);
    JoinedKey(slug, "task", "", ".task.");
    assert b == b + "" == "change." + slug + ".task.";
    DottedField(q, "number", ".number");
    DottedField(q, "text", ".text");
    DottedField(q, "done", ".done");
    DottedField(q, "section", ".section");
  }

  lemma OneTaskWritten(slug: string, xs: seq<Filed>, n: nat, f: Fact)
    requires n < |xs|
    ensures f in TaskEntry(Under(ChangeBase(slug), "task"), xs, n).facts <==> TaskFact(slug, n, xs[n].section, xs[n].task, f)
  {
    hide Under, ChangeBase, Four, Itoa, TaskPrefix;
    var p, t := TaskPrefix(Under(ChangeBase(slug), "task"), n), xs[n].task;
    TaskKeys(slug, n);
    FourMembers(p, "number", OfText(t.number), "text", OfText(t.text), "done", Some(Flag(t.done)), "section", OfText(xs[n].section));
  }

  lemma TasksWritten(c: Change, f: Fact)
    ensures f in Flatten(TaskPart(c)) <==> c.tasks.Some? && TaskListFact(c.slug, c.tasks.value.sections, f)
  {
    hide Flatten, TaskEntry, TaskFact, FlatTasks, Under;
    var xs := TasksOf(c);
    InFlatten(TaskPart(c), f);
    if f in Flatten(TaskPart(c)) {
      var e :| e in TaskPart(c) && f in e.facts;
      var n := OneTask(c, e);
      OneTaskWritten(c.slug, xs, n, f);
      var i, j := FlatFrom(c.tasks.value.sections, n);
      FlatAt(c.tasks.value.sections, i, j);
    }
    if c.tasks.Some? && TaskListFact(c.slug, c.tasks.value.sections, f) {
      var ss := c.tasks.value.sections;
      var i, j :| 0 <= i < |ss| && 0 <= j < |ss[i].tasks| && TaskFact(c.slug, TasksBefore(ss, i) + j, ss[i].name, ss[i].tasks[j], f);
      FlatAt(ss, i, j);
      var n := TasksBefore(ss, i) + j;
      OneTaskWritten(c.slug, xs, n, f);
      assert TaskPart(c)[n] == TaskEntry(Under(ChangeBase(c.slug), "task"), xs, n);
    }
  }

  lemma OtherKeys(q: string)
    ensures var p := q + "."; p + "op" == q + ".op" && p + "previously" == q + ".previously" && p + "rationale" == q + ".rationale"
  {
    DottedField(q, "op", ".op");
    DottedField(q, "previously", ".previously");
    DottedField(q, "rationale", ".rationale");
  }

  lemma ItemWritten(q: string, x: Item, pos: nat, f: Fact)
    ensures f in ItemFacts(q + ".", x, pos) <==>
            match x
            case AddItem(r) => AddedFact(q, r, pos, f)
            case ModifyItem(m) => ModifiedFact(q, m, pos, f)
            case RemoveItem(r) => RemovedFact(q, r, pos, f)
  {
    hide RequirementFacts, RequirementFact, Four;
    OtherKeys(q);
    match x
    case AddItem(r) => RequirementWritten(q, r, pos, f);
    case ModifyItem(m) => RequirementWritten(q, m.requirement, pos, f);
    case RemoveItem(r) =>
      RequirementKeys(q);
      FourMembers(q + ".", "op", Some(Prose("removed")), "name", OfText(r.name), "position", Some(Number(pos)), "rationale",
                  OfText(r.rationale));
  }

  lemma NamesAgree(d: Delta)
    ensures ItemNames(d) == NamesOf(d)
  {
  }

  lemma ItemKeyIs(slug: string, d: Delta, j: nat)
    requires j < |Items(d)|
    ensures j < |d.added| + |d.modified| + |d.removed|
    ensures ItemPrefix(Under(ChangeBase(slug), "delta"), d.capability, ItemRid(d, j)) == ItemKey(slug, d, j) + "."
  {
    hide Rid, Items;
    NamesAgree(d);
    ItemCount(d);
    JoinedKey(slug, "delta", "", ".delta.");
    assert Under(ChangeBase(slug), "delta") + "" == Under(ChangeBase(slug), "delta");
  }

  /** The `j`th requirement change of a delta, by the list that it is in. */
  ghost predicate ItemFact(slug: string, d: Delta, j: nat, f: Fact)
    requires j < |d.added| + |d.modified| + |d.removed|
  {
    var a, m := |d.added|, |d.added| + |d.modified|;
    if j < a then AddedFact(ItemKey(slug, d, j), d.added[j], j, f)
    else if j < m then ModifiedFact(ItemKey(slug, d, j), d.modified[j - a], j, f)
    else RemovedFact(ItemKey(slug, d, j), d.removed[j - m], j, f)
  }

  lemma OneItemWritten(slug: string, d: Delta, j: nat, f: Fact)
    requires j < |Items(d)|
    ensures j < |d.added| + |d.modified| + |d.removed|
    ensures f in ItemEntry(Under(ChangeBase(slug), "delta"), d, j).facts <==> ItemFact(slug, d, j, f)
  {
    hide Rid, ItemFacts, AddedFact, ModifiedFact, RemovedFact, Under, ItemPrefix, ItemKey, Items;
    ItemKeyIs(slug, d, j);
    ItemsAt(d, j);
    ItemWritten(ItemKey(slug, d, j), Items(d)[j], j, f);
  }

  lemma ItemOfDelta(slug: string, d: Delta, f: Fact)
    ensures DeltaFact(slug, d, f) <==> exists j :: 0 <= j < |d.added| + |d.modified| + |d.removed| && ItemFact(slug, d, j, f)
  {
    hide AddedFact, ModifiedFact, RemovedFact, ItemKey;
    var a, m, n := |d.added|, |d.added| + |d.modified|, |d.added| + |d.modified| + |d.removed|;
    if j :| 0 <= j < n && ItemFact(slug, d, j, f) {
      if a <= j < m { assert j == a + (j - a); }
      if m <= j { assert j == m + (j - m); }
    }
    if DeltaFact(slug, d, f) {
      if j :| 0 <= j < |d.added| && AddedFact(ItemKey(slug, d, j), d.added[j], j, f) {
        assert ItemFact(slug, d, j, f);
      } else if j :| 0 <= j < |d.modified| && ModifiedFact(ItemKey(slug, d, a + j), d.modified[j], a + j, f) {
        assert ItemFact(slug, d, a + j, f);
      } else {
        var j :| 0 <= j < |d.removed| && RemovedFact(ItemKey(slug, d, m + j), d.removed[j], m + j, f);
        assert ItemFact(slug, d, m + j, f);
      }
    }
  }

  lemma DeltaWritten(slug: string, d: Delta, f: Fact)
    ensures DeltaFact(slug, d, f) <==>
            exists j :: 0 <= j < |Items(d)| && f in ItemEntry(Under(ChangeBase(slug), "delta"), d, j).facts
  {
    hide ItemEntry, ItemFact, Under, DeltaFact, Items;
    ItemCount(d);
    ItemOfDelta(slug, d, f);
    forall j | 0 <= j < |Items(d)|
      ensures f in ItemEntry(Under(ChangeBase(slug), "delta"), d, j).facts <==> ItemFact(slug, d, j, f) {
      OneItemWritten(slug, d, j, f);
    }
  }

  lemma DeltasWritten(c: Change, f: Fact)
    ensures f in Flatten(DeltaPart(c)) <==> exists i :: 0 <= i < |c.deltas| && DeltaFact(c.slug, c.deltas[i], f)
  {
    hide Flatten, ItemEntry, DeltaFact, Items, DeltaEntries, Under;
    var b := Under(ChangeBase(c.slug), "delta");
    InFlatten(DeltaPart(c), f);
    forall i | 0 <= i < |c.deltas|
      ensures DeltaFact(c.slug, c.deltas[i], f) <==> exists j :: 0 <= j < |Items(c.deltas[i])| && f in ItemEntry(b, c.deltas[i], j).facts
    {
      DeltaWritten(c.slug, c.deltas[i], f);
    }
    if f in Flatten(DeltaPart(c)) {
      var e :| e in DeltaPart(c) && f in e.facts;
      var i, j := ListedEntry(b, c.deltas, e);
      assert DeltaFact(c.slug, c.deltas[i], f);
    }
    if i :| 0 <= i < |c.deltas| && DeltaFact(c.slug, c.deltas[i], f) {
      var j :| 0 <= j < |Items(c.deltas[i])| && f in ItemEntry(b, c.deltas[i], j).facts;
      EntryIsListed(b, c.deltas, i, j);
    }
  }

  /** A change is stored as exactly these facts. */
  lemma StoredFacts(c: Change, f: Fact)
    ensures f in FactsOf(c) <==> StoredFact(c, f)
  {
    hide FactsOf, ProposalPart, DesignPart, TaskPart, DeltaPart, ProposalFact, DesignFact, TaskListFact, DeltaFact, Flatten;
    PartsFlatten(c);
    ProposalWritten(c, f);
    DesignWritten(c, f);
    TasksWritten(c, f);
    DeltasWritten(c, f);
  }

  // ---------------------------------------------------------------------------------------
  // What is read, by its full key
  // ---------------------------------------------------------------------------------------

  ghost predicate ProposalRead(idx: FactIndex, slug: string, x: Option<Proposal>) {
    var p := "change." + slug + ".proposal";
    var y := Proposal("", TextAt(idx, p + ".intent"), StringsAt(idx, p + ".scope_in"), StringsAt(idx, p + ".scope_out"),
                      TextAt(idx, p + ".approach"), []);
    if y == Proposal("", "", [], [], "", []) then x == None else x == Some(y)
  }

  ghost predicate DesignRead(idx: FactIndex, slug: string, x: Option<Design>) {
    var p := "change." + slug + ".design";
    var y := Design("", TextAt(idx, p + ".technical_approach"), DecisionsAt(idx, p + ".decisions"), TextAt(idx, p + ".data_flow"),
                    ChangesAt(idx, p + ".file_changes"), []);
    if y == Design("", "", [], "", [], []) then x == None else x == Some(y)
  }

  predicate Ticked(idx: FactIndex, k: string) {
    k in idx && idx[k] == Flag(true)
  }

  /** Task number `n`, and the name of its section. */
  ghost predicate TaskAt(idx: FactIndex, slug: string, n: int, x: Filed) {
    var p := "change." + slug + ".task." + Decimal(n);
    && x.section == TextAt(idx, p + ".section")
    && x.task.number == TextAt(idx, p + ".number") && x.task.text == TextAt(idx, p + ".text")
    && x.task.done == Ticked(idx, p + ".done")
  }

  /** The tasks in the order of their numbers, grouped by section. */
  ghost predicate TaskListRead(idx: FactIndex, slug: string, t: Option<Tasks>) {
    exists ns, xs :: Numbers(idx, "change." + slug + ".task.", ns) && |xs| == |ns| && t == Regrouped(xs) &&
      forall i | 0 <= i < |ns| :: TaskAt(idx, slug, ns[i], xs[i])
  }

  ghost predicate AddedAt(idx: FactIndex, q: string, r: Requirement) {
    && TextAt(idx, q + ".op") == "added"
    && r == Requirement(TextAt(idx, q + ".name"), TextAt(idx, q + ".statement"), ScenariosAt(idx, q + ".scenarios"))
  }

  ghost predicate ModifiedAt(idx: FactIndex, q: string, m: Modified) {
    && TextAt(idx, q + ".op") == "modified" && m.previously == TextAt(idx, q + ".previously")
    && m.requirement == Requirement(TextAt(idx, q + ".name"), TextAt(idx, q + ".statement"), ScenariosAt(idx, q + ".scenarios"))
  }

  ghost predicate RemovedAt(idx: FactIndex, q: string, r: Removed) {
    TextAt(idx, q + ".op") == "removed" && r == Removed(TextAt(idx, q + ".name"), TextAt(idx, q + ".rationale"))
  }

  /** Each list of a delta holds what is stored under the capability with its operation, and nothing else. */
  ghost predicate DeltaRead(idx: FactIndex, slug: string, d: Delta) {
    var q := "change." + slug + ".delta." + d.capability + ".";
    exists rids :: RidsInOrder(idx, "change." + slug + ".delta.", d.capability, rids) && Holding(idx, q, rids, d)
  }

  ghost predicate Holding(idx: FactIndex, q: string, rids: seq<string>, d: Delta) {
    && (forall x :: x in d.added <==> exists rid :: rid in rids && AddedAt(idx, q + rid, x))
    && (forall x :: x in d.modified <==> exists rid :: rid in rids && ModifiedAt(idx, q + rid, x))
    && (forall x :: x in d.removed <==> exists rid :: rid in rids && RemovedAt(idx, q + rid, x))
  }

  /** What the fields of a change read from the facts must be. */
  ghost predicate FieldsRead(idx: FactIndex, slug: string, r: Change) {
    && ProposalRead(idx, slug, r.proposal) && DesignRead(idx, slug, r.design) && TaskListRead(idx, slug, r.tasks)
    && forall d | d in r.deltas :: DeltaRead(idx, slug, d)
  }

  lemma ReadKey(slug: string, seg: string, lead: string, field: string, tail: string)
    requires lead == "." + seg && tail == "." + field
    ensures Under(ChangeBase(slug), seg) + field == "change." + slug + lead + tail
  {
  }

  lemma ProposalIsRead(idx: FactIndex, slug: string)
    ensures ProposalRead(idx, slug, ProposalAt(idx, Under(ChangeBase(slug), "proposal")))
  {
    hide Under, ChangeBase, TextAt, StringsAt;
    ReadKey(slug, "proposal", ".proposal", "intent", ".intent");
    ReadKey(slug, "proposal", ".proposal", "scope_in", ".scope_in");
    ReadKey(slug, "proposal", ".proposal", "scope_out", ".scope_out");
    ReadKey(slug, "proposal", ".proposal", "approach", ".approach");
  }

  lemma DesignIsRead(idx: FactIndex, slug: string)
    ensures DesignRead(idx, slug, DesignAt(idx, Under(ChangeBase(slug), "design")))
  {
    hide Under, ChangeBase, TextAt, DecisionsAt, ChangesAt;
    ReadKey(slug, "design", ".design", "technical_approach", ".technical_approach");
    ReadKey(slug, "design", ".design", "decisions", ".decisions");
    ReadKey(slug, "design", ".design", "data_flow", ".data_flow");
    ReadKey(slug, "design", ".design", "file_changes", ".file_changes");
  }

  lemma TaskIsRead(idx: FactIndex, slug: string, n: int)
    ensures TaskAt(idx, slug, n, FiledAt(idx, TaskPrefix(Under(ChangeBase(slug), "task"), n)))
  {
    hide Decimal, TextAt, Under, ChangeBase;
    var b, q := Under(ChangeBase(slug), "task"), "change." + slug + ".task." + Decimal(n);
    JoinedKey(slug, "task", "", ".task.");
    assert b == b + "" == "change." + slug + ".task.";
    DottedField(q, "number", ".number");
    DottedField(q, "text", ".text");
    DottedField(q, "done", ".done");
    DottedField(q, "section", ".section");
  }

  lemma TaskListIsRead(idx: FactIndex, slug: string, t: Option<Tasks>)
    requires TasksRead(idx, Under(ChangeBase(slug), "task"), t)
    ensures TaskListRead(idx, slug, t)
  {
    hide Numbers, FiledAt, TaskAt, Regrouped, TaskPrefix, Under, ChangeBase;
    var b := Under(ChangeBase(slug), "task");
    JoinedKey(slug, "task", "", ".task.");
    assert b == b + "" == "change." + slug + ".task.";
    var ns :| Numbers(idx, b, ns) && t == Regrouped(FiledList(idx, b, ns));
    var xs := FiledList(idx, b, ns);
    forall i | 0 <= i < |ns| ensures TaskAt(idx, slug, ns[i], xs[i]) { TaskIsRead(idx, slug, ns[i]); }
  }

  lemma {:induction false} Gathered(cap: string, xs: seq<Option<Item>>)
    ensures var d := Gather(cap, xs);
            && (forall x :: x in d.added <==> Some(AddItem(x)) in xs)
            && (forall x :: x in d.modified <==> Some(ModifyItem(x)) in xs)
            && (forall x :: x in d.removed <==> Some(RemoveItem(x)) in xs)
  {
    if xs != [] {
      Gathered(cap, xs[..|xs| - 1]);
      assert xs == xs[..|xs| - 1] + [xs[|xs| - 1]];
    }
  }

  lemma ItemIsRead(idx: FactIndex, q: string)
    ensures forall x :: ItemAt(idx, q + ".") == Some(AddItem(x)) <==> AddedAt(idx, q, x)
    ensures forall x :: ItemAt(idx, q + ".") == Some(ModifyItem(x)) <==> ModifiedAt(idx, q, x)
    ensures forall x :: ItemAt(idx, q + ".") == Some(RemoveItem(x)) <==> RemovedAt(idx, q, x)
  {
    hide TextAt, ScenariosAt;
    RequirementKeys(q);
    OtherKeys(q);
    OpWords();
  }

  lemma DeltaIsRead(idx: FactIndex, slug: string, d: Delta)
    requires DeltaReads(idx, Under(ChangeBase(slug), "delta"), d)
    ensures DeltaRead(idx, slug, d)
  {
    hide RidsInOrder, Gather, ItemAt, AddedAt, ModifiedAt, RemovedAt, Under, ChangeBase;
    var b := Under(ChangeBase(slug), "delta");
    JoinedKey(slug, "delta", "", ".delta.");
    assert b == b + "" == "change." + slug + ".delta.";
    var rids :| RidsInOrder(idx, b, d.capability, rids) && d == Gather(d.capability, ItemList(idx, b, d.capability, rids));
    var xs, q := ItemList(idx, b, d.capability, rids), b + d.capability + ".";
    Gathered(d.capability, xs);
    forall i | 0 <= i < |rids| ensures xs[i] == ItemAt(idx, (q + rids[i]) + ".") {}
    HoldingItems(idx, q, rids, xs, d);
  }

  lemma HoldingItems(idx: FactIndex, q: string, rids: seq<string>, xs: seq<Option<Item>>, d: Delta)
    requires |xs| == |rids| && forall i | 0 <= i < |rids| :: xs[i] == ItemAt(idx, (q + rids[i]) + ".")
    requires forall x :: x in d.added <==> Some(AddItem(x)) in xs
    requires forall x :: x in d.modified <==> Some(ModifyItem(x)) in xs
    requires forall x :: x in d.removed <==> Some(RemoveItem(x)) in xs
    ensures Holding(idx, q, rids, d)
  {
    hide ItemAt, AddedAt, ModifiedAt, RemovedAt;
    forall i | 0 <= i < |rids|
      ensures forall x :: xs[i] == Some(AddItem(x)) <==> AddedAt(idx, q + rids[i], x)
      ensures forall x :: xs[i] == Some(ModifyItem(x)) <==> ModifiedAt(idx, q + rids[i], x)
      ensures forall x :: xs[i] == Some(RemoveItem(x)) <==> RemovedAt(idx, q + rids[i], x)
    {
      ItemIsRead(idx, q + rids[i]);
    }
  }

  /** Every field of a change that is read comes from its own key. */
  lemma FieldsAreRead(idx: FactIndex, slug: string, r: Change)
    requires ChangeReads(idx, slug, r)
    ensures FieldsRead(idx, slug, r)
  {
    hide ProposalAt, DesignAt, TasksRead, DeltaReads, ProposalRead, DesignRead, TaskListRead, DeltaRead, Under;
    ProposalIsRead(idx, slug);
    DesignIsRead(idx, slug);
    TaskListIsRead(idx, slug, r.tasks);
    forall d | d in r.deltas ensures DeltaRead(idx, slug, d) {
      var i :| 0 <= i < |r.deltas| && r.deltas[i] == d;
      DeltaIsRead(idx, slug, d);
    }
  }

  // ---------------------------------------------------------------------------------------
  // The entry points of the code
  // ---------------------------------------------------------------------------------------

  /** Rebuilds the change of a slug from a fact list. */
  method ChangeFromFacts(slug: string, facts: seq<Fact>) returns (c: Change)
    ensures ChangeReads(Index(facts), slug, c) && FieldsRead(Index(facts), slug, c)
  {
    hide FieldsRead;
    hide TasksRead, DeltasRead, ProposalAt, DesignAt, Index;
    var idx := IndexFacts(facts);
    var base := ChangeBase(slug);
    var tasks := TasksFromIndex(idx, Under(base, "task"));
    var deltas := DeltasFromIndex(idx, Under(base, "delta"));
    c := Change(slug, ProposalAt(idx, Under(base, "proposal")), DesignAt(idx, Under(base, "design")), tasks, deltas);
    FieldsAreRead(idx, slug, c);
  }

  lemma PartsFlatten(c: Change)
    ensures FactsOf(c) == ProposalPart(c).facts + DesignPart(c).facts + Flatten(TaskPart(c)) + Flatten(DeltaPart(c))
  {
    hide ProposalPart, DesignPart, TaskPart, DeltaPart;
    var head := [ProposalPart(c), DesignPart(c)];
    FlattenAppend(head + TaskPart(c), DeltaPart(c));
    FlattenAppend(head, TaskPart(c));
    assert Flatten(head) == ProposalPart(c).facts + DesignPart(c).facts by {
      assert head == [ProposalPart(c)] + [DesignPart(c)];
      FlattenAppend([ProposalPart(c)], [DesignPart(c)]);
      assert [ProposalPart(c)][1..] == [] && [DesignPart(c)][1..] == [];
    }
  }

  /** Emits the facts of a change in document order. */
  method FactsFromChange(c: Change) returns (facts: seq<Fact>)
    ensures facts == FactsOf(c) && forall f :: f in facts <==> StoredFact(c, f)
  {
    hide StoredFact;
    hide FactsOf, FlatTasks, DeltaEntries, Flatten, ProposalEntry, DesignEntry, TaskEntries;
    var base := ChangeBase(c.slug);
    facts := ProposalPart(c).facts + DesignPart(c).facts;
    if c.tasks.Some? {
      var more := FactsFromTasks(Under(base, "task"), c.tasks.value.sections);
      facts := facts + more;
    } else {
      assert TaskPart(c) == [] by { NoTaskEntries(Under(base, "task")); }
      FlattenNone();
    }
    var rest := FactsFromDeltas(Under(base, "delta"), c.deltas);
    facts := facts + rest;
    PartsFlatten(c);
    AllStored(c, facts);
  }

  lemma AllStored(c: Change, facts: seq<Fact>)
    requires facts == FactsOf(c)
    ensures forall f :: f in facts <==> StoredFact(c, f)
  {
    hide StoredFact, FactsOf;
    forall f ensures f in facts <==> StoredFact(c, f) { StoredFacts(c, f); }
  }

  lemma NoTaskEntries(base: string)
    ensures TaskEntries(base, [], 0) == []
  {
  }

  /** Emitting and rebuilding in one go. */
  method StoreAndLoad(c: Change) returns (r: Change)
    ensures r == Modeled(c) <==> Storable(c)
  {
    hide FactsOf, ChangeReads, Modeled, Storable, Index;
    var facts := FactsFromChange(c);
    r := ChangeFromFacts(c.slug, facts);
    FactsEmbed(c, facts);
    EmbeddedIffStorable(c, facts, r);
  }
}

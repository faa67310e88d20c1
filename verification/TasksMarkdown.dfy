/** Task lists: checkbox bullets grouped by section, with dotted numbers. */
module TasksMarkdown {
  import opened Text
  import opened OpenSpec
  import opened Markdown
  import opened Sections

  // ---------------------------------------------------------------------------------------
  // One task
  // ---------------------------------------------------------------------------------------

  /** Digits and dots, at least one digit. */
  predicate IsNumber(s: string) {
    && (forall i | 0 <= i < |s| :: '0' <= s[i] <= '9' || s[i] == '.')
    && (exists i | 0 <= i < |s| :: '0' <= s[i] <= '9')
  }

  function SplitNumber(s: string): (string, string) {
    if IndexOf(s, ' ') < |s| && IsNumber(CutHead(s)) then (CutHead(s), TrimSpace(CutRest(s)))
    else if IsNumber(s) then (s, "")
    else ("", s)
  }

  function ParseTask(trimmed: string): Option<Task> {
    var body := BulletBody(trimmed);
    if body.None? then None
    else
      var b := body.value;
      var done := "[x]" <= b || "[X]" <= b;
      var rest := if done || "[ ]" <= b then TrimSpace(b[3..]) else b;
      var (number, text) := SplitNumber(rest);
      Some(Task(number, text, done))
  }

  function Content(t: Task): string {
    if t.number != "" && t.text != "" then t.number + " " + t.text
    else if t.number != "" then t.number
    else t.text
  }

  function Box(done: bool): string {
    if done then "[x]" else "[ ]"
  }

  function TaskBody(t: Task): string {
    if Content(t) == "" then Box(t.done) else Box(t.done) + " " + Content(t)
  }

  function TaskLine(t: Task): string {
    "- " + TaskBody(t)
  }

  /** A number, or none and a text that does not start with one. */
  ghost predicate TaskOk(t: Task) {
    && Field(t.text)
    && if t.number == "" then !IsNumber(t.text) && (IndexOf(t.text, ' ') < |t.text| ==> !IsNumber(CutHead(t.text)))
       else IsNumber(t.number)
  }

  lemma NumberShape(n: string)
    requires IsNumber(n)
    ensures n != "" && Field(n) && forall i | 0 <= i < |n| :: n[i] != ' '
  {
  }

  /** The printed number and text are told apart again. */
  lemma ContentRoundTrip(t: Task)
    requires TaskOk(t)
    ensures Field(Content(t)) && SplitNumber(Content(t)) == (t.number, t.text)
  {
    hide IsSpace, TrimSpace, IsNumber, CutHead, CutRest;
    if t.number != "" {
      NumberShape(t.number);
      CutKeyword(t.number, t.text);
      TrimmedStays(t.text);
      if t.text == "" {
        assert IndexOf(t.number, ' ') == |t.number|;
      } else {
        var c := Content(t);
        assert c == t.number + " " + t.text;
        LeadTrimmed(t.number + " ", t.text);
        assert c == (t.number + " ") + t.text;
        assert OneLine(c);
        assert c[|t.number|] == ' ';
        assert IndexOf(c, ' ') < |c|;
      }
    }
  }

  lemma BodyField(t: Task)
    requires TaskOk(t)
    ensures TaskBody(t) != "" && Field(TaskBody(t))
  {
    hide IsNumber, CutHead, CutRest, SplitNumber, Content;
    ContentRoundTrip(t);
    if Content(t) != "" {
      var lead := Box(t.done) + " ";
      assert TaskBody(t) == lead + Content(t);
      assert lead[0] == '[';
      LeadTrimmed(lead, Content(t));
      assert OneLine(lead);
    }
  }

  lemma TaskRoundTrip(t: Task)
    requires TaskOk(t)
    ensures ParseTask(TaskLine(t)) == Some(t)
  {
    hide TrimSpace, IsSpace, SplitNumber, Content, BulletBody, TaskOk;
    BodyField(t);
    ReadBullet(TaskBody(t));
    ContentRoundTrip(t);
    var b := TaskBody(t);
    var c := Content(t);
    if c == "" {
      assert b == Box(t.done) && b[3..] == "";
      TrimmedStays("");
    } else {
      assert b == Box(t.done) + " " + c;
      assert b[3..] == " " + c;
      TrimSpaceAfterSpace(c);
    }
    if t.done {
      assert "[x]" <= b;
    } else {
      assert b[1] == ' ';
      assert "[ ]" <= b;
    }
  }

  lemma SplitNumberOk(s: string, done: bool)
    requires Field(s)
    ensures TaskOk(Task(SplitNumber(s).0, SplitNumber(s).1, done))
  {
    hide TrimSpace, IsNumber;
    TrimSpaceTrims(CutRest(s));
    if IsNumber(CutHead(s)) { NumberShape(CutHead(s)); }
    if IsNumber(s) { NumberShape(s); }
  }

  lemma ParseTaskOk(t: string)
    requires t != "" && Field(t)
    ensures ParseTask(t).Some? ==> TaskOk(ParseTask(t).value)
  {
    hide TrimSpace, TaskOk, SplitNumber, BulletBody, Trimmed;
    var body := BulletBody(t);
    if body.Some? {
      BulletYields(t);
      var b := body.value;
      var done := "[x]" <= b || "[X]" <= b;
      if done || "[ ]" <= b { TrimSpaceTrims(b[3..]); }
      var rest := if done || "[ ]" <= b then TrimSpace(b[3..]) else b;
      SplitNumberOk(rest, done);
    }
  }

  // ---------------------------------------------------------------------------------------
  // Parsing and printing
  // ---------------------------------------------------------------------------------------

  datatype State = State(title: string, sections: seq<TaskSection>, current: Option<TaskSection>)

  const START := State("", [], None)

  function Flush(st: State): State {
    if st.current.Some? then st.(sections := st.sections + [st.current.value], current := None) else st
  }

  /** A task before any heading opens an implicit, unnamed section. */
  function AddTask(st: State, t: Task): State {
    var sec := if st.current.Some? then st.current.value else TaskSection("", []);
    st.(current := Some(sec.(tasks := sec.tasks + [t])))
  }

  function Line(st: State, raw: string): State {
    match ClassifyTop(raw)
    case SectionHead(h) => Flush(st).(current := Some(TaskSection(h, [])))
    case TitleHead(t) => st.(title := t)
    case Other(t) => if ParseTask(t).Some? then AddTask(st, ParseTask(t).value) else st
    case _ => st
  }

  function Finish(st: State): Tasks {
    Tasks(st.title, Flush(st).sections)
  }

  function Parse(text: string): Tasks {
    Finish(Fold(Line, START, Split(text)))
  }

  function TaskEntry(t: Task): seq<string> {
    [TaskLine(t)]
  }

  function SectionLines(s: TaskSection): seq<string> {
    (if s.name == "" then [] else ["", SECTION + s.name]) + Flat(TaskEntry, s.tasks)
  }

  function Lines(t: Tasks): seq<string> {
    [TITLE + t.title] + Flat(SectionLines, t.sections)
  }

  function Print(t: Tasks): string {
    Unlines(Lines(t))
  }

  // ---------------------------------------------------------------------------------------
  // Canonical task lists
  // ---------------------------------------------------------------------------------------

  ghost predicate SectionOk(s: TaskSection) {
    Field(s.name) && forall t | t in s.tasks :: TaskOk(t)
  }

  ghost predicate TasksOk(t: Tasks) {
    Field(t.title) && forall s | s in t.sections :: SectionOk(s)
  }

  /** Only the first section may be unnamed, and then it holds a task. */
  predicate WellNamed(ss: seq<TaskSection>) {
    forall i | 0 <= i < |ss| && ss[i].name == "" :: i == 0 && ss[i].tasks != []
  }

  /** What survives printing. */
  ghost predicate Canonical(t: Tasks) {
    TasksOk(t) && WellNamed(t.sections)
  }

  ghost predicate StateOk(st: State) {
    && Field(st.title)
    && (forall s | s in st.sections :: SectionOk(s))
    && (st.current.Some? ==> SectionOk(st.current.value))
  }

  ghost predicate Named(st: State) {
    WellNamed(Flush(st).sections)
  }

  lemma LineOk(st: State, raw: string)
    requires StateOk(st) && OneLine(raw)
    ensures StateOk(Line(st, raw))
    ensures Named(st) && (st.current.None? ==> st.sections == []) && !Hollow(raw) ==>
              Named(Line(st, raw)) && (Line(st, raw).current.None? ==> Line(st, raw).sections == [])
  {
    hide Trimmed, OneLine, TaskOk, ClassifyTop, ParseTask;
    ClassifyYields(raw);
    match ClassifyTop(raw)
    case SectionHead(h) => SectionKeepsNames(st, h);
    case Other(t) =>
      ParseTaskOk(t);
      if ParseTask(t).Some? {
        TaskKeepsNames(st, ParseTask(t).value);
        assert StateOk(AddTask(st, ParseTask(t).value)) by { EmptyFieldOk(); }
      }
    case _ =>
  }

  lemma SectionKeepsNames(st: State, h: string)
    ensures Named(st) && h != "" ==> WellNamed(Flush(st).sections + [TaskSection(h, [])])
  {
  }

  lemma TaskKeepsNames(st: State, t: Task)
    ensures Named(st) && (st.current.None? ==> st.sections == []) ==> Named(AddTask(st, t))
  {
    if Named(st) && (st.current.None? ==> st.sections == []) {
      var a, b := Flush(st).sections, Flush(AddTask(st, t)).sections;
      forall i | 0 <= i < |b| && b[i].name == "" ensures i == 0 && b[i].tasks != [] {
        if i < |a| { assert a[i].name == b[i].name; }
      }
    }
  }

  lemma {:induction false} FoldOk(st: State, ls: seq<string>)
    requires StateOk(st) && forall l | l in ls :: OneLine(l)
    ensures StateOk(Fold(Line, st, ls))
    ensures Named(st) && (st.current.None? ==> st.sections == []) && (forall l | l in ls :: !Hollow(l)) ==> Named(Fold(Line, st, ls))
    decreases |ls|
  {
    hide StateOk, OneLine, Line, Hollow, Named;
    if ls != [] {
      assert ls[0] in ls;
      LineOk(st, ls[0]);
      FoldOk(Line(st, ls[0]), ls[1..]);
    }
  }

  lemma ParseOk(text: string)
    ensures TasksOk(Parse(text))
    ensures (forall l | l in Split(text) :: !Hollow(l)) ==> Canonical(Parse(text))
  {
    hide SectionOk, Split, Line, Hollow, Field;
    SplitPieces(text);
    assert StateOk(START) by { EmptyFieldOk(); }
    FoldOk(START, Split(text));
  }

  lemma EmptyFieldOk()
    ensures Field("")
  {
  }

  // ---------------------------------------------------------------------------------------
  // Printed task lists parse back
  // ---------------------------------------------------------------------------------------

  lemma TaskReads(st: State, t: Task)
    requires TaskOk(t)
    ensures Line(st, TaskLine(t)) == AddTask(st, t)
  {
    hide ClassifyTop, TaskOk, ParseTask, TaskBody, Field;
    BodyField(t);
    ReadBullet(TaskBody(t));
    TaskRoundTrip(t);
  }

  lemma {:induction false} TasksRead(st: State, ts: seq<Task>)
    requires forall t | t in ts :: TaskOk(t)
    requires st.current.Some?
    ensures Fold(Line, st, Flat(TaskEntry, ts)) ==
            st.(current := Some(st.current.value.(tasks := st.current.value.tasks + ts)))
    decreases |ts|
  {
    hide TaskOk, TaskLine, Line;
    var sec := st.current.value;
    if ts == [] {
      assert sec.tasks + ts == sec.tasks;
    } else {
      assert ts[0] in ts;
      TaskReads(st, ts[0]);
      FoldAppend(Line, st, TaskEntry(ts[0]), Flat(TaskEntry, ts[1..]));
      FoldOne(Line, st, TaskLine(ts[0]));
      TasksRead(AddTask(st, ts[0]), ts[1..]);
      assert sec.tasks + [ts[0]] + ts[1..] == sec.tasks + ts;
    }
  }

  lemma NamedSectionReads(st: State, s: TaskSection)
    requires SectionOk(s) && s.name != ""
    ensures Fold(Line, st, SectionLines(s)) == Flush(st).(current := Some(s))
  {
    hide TaskOk, TaskLine, ClassifyTop, Flat, Field;
    ReadBlank();
    ReadSection(s.name);
    var head := SECTION + s.name;
    assert Fold(Line, st, ["", head]) == Flush(st).(current := Some(TaskSection(s.name, []))) by {
      assert ["", head] == [""] + [head];
      FoldAppend(Line, st, [""], [head]);
      FoldOne(Line, st, "");
      FoldOne(Line, st, head);
    }
    FoldAppend(Line, st, ["", head], Flat(TaskEntry, s.tasks));
    TasksRead(Flush(st).(current := Some(TaskSection(s.name, []))), s.tasks);
    assert [] + s.tasks == s.tasks;
  }

  lemma UnnamedLines(s: TaskSection)
    requires s.name == "" && s.tasks != []
    ensures SectionLines(s) == TaskEntry(s.tasks[0]) + Flat(TaskEntry, s.tasks[1..])
  {
    hide TaskLine;
  }

  /** The implicit section, before any heading. */
  lemma UnnamedSectionReads(st: State, s: TaskSection)
    requires SectionOk(s) && s.name == "" && s.tasks != [] && st.current.None?
    ensures Fold(Line, st, SectionLines(s)) == st.(current := Some(s))
  {
    hide TaskOk, TaskLine, Line, Field, SectionLines, Flat, Fold;
    var t := s.tasks[0];
    assert t in s.tasks;
    UnnamedLines(s);
    TaskReads(st, t);
    FoldAppend(Line, st, TaskEntry(t), Flat(TaskEntry, s.tasks[1..]));
    FoldOne(Line, st, TaskLine(t));
    TasksRead(AddTask(st, t), s.tasks[1..]);
    assert [] + [t] + s.tasks[1..] == s.tasks;
  }

  lemma {:induction false} SectionsRead(st: State, ss: seq<TaskSection>)
    requires forall s | s in ss :: SectionOk(s)
    requires WellNamed(ss) && (ss != [] && ss[0].name == "" ==> st.current.None?)
    ensures Flush(Fold(Line, st, Flat(SectionLines, ss))) == Flush(st).(sections := Flush(st).sections + ss)
    decreases |ss|
  {
    hide SectionOk, SectionLines, Line;
    if ss == [] {
      assert Flush(st).sections + ss == Flush(st).sections;
    } else {
      assert ss[0] in ss;
      if ss[0].name == "" { UnnamedSectionReads(st, ss[0]); } else { NamedSectionReads(st, ss[0]); }
      FoldAppend(Line, st, SectionLines(ss[0]), Flat(SectionLines, ss[1..]));
      var st' := Fold(Line, st, SectionLines(ss[0]));
      assert forall i | 0 <= i < |ss[1..]| :: ss[1..][i] == ss[i + 1];
      SectionsRead(st', ss[1..]);
      assert Flush(st).sections + [ss[0]] + ss[1..] == Flush(st).sections + ss;
    }
  }

  lemma LinesRead(t: Tasks)
    requires Canonical(t)
    ensures Finish(Fold(Line, START, Lines(t) + [""])) == t
  {
    hide Field, SectionOk, Line, SectionLines, Flat, WellNamed;
    TitleReads(t.title);
    FoldOne(Line, START, TITLE + t.title);
    var st1 := START.(title := t.title);
    SectionsRead(st1, t.sections);
    var st2 := Fold(Line, st1, Flat(SectionLines, t.sections));
    FoldAppend(Line, START, [TITLE + t.title], Flat(SectionLines, t.sections));
    FoldAppend(Line, START, Lines(t), [""]);
    FoldOne(Line, st2, "");
    BlankReads(st2);
    assert [] + t.sections == t.sections;
  }

  lemma TitleReads(t: string)
    requires Field(t)
    ensures Line(START, TITLE + t) == START.(title := t)
  {
    hide ClassifyTop, Field;
    if t == "" {
      ReadNoTitle();
      assert TITLE + t == TITLE;
      assert BulletBody("#").None?;
    } else {
      ReadTitle(t);
    }
  }

  lemma BlankReads(st: State)
    ensures Line(st, "") == st
  {
    ReadBlank();
  }

  // ---------------------------------------------------------------------------------------
  // Round trips
  // ---------------------------------------------------------------------------------------

  lemma TidyLines(t: Tasks)
    requires TasksOk(t)
    ensures Tidy(Lines(t))
  {
    hide Tidy, Field, TaskOk;
    forall s | s in t.sections ensures Tidy(SectionLines(s)) {
      assert SectionOk(s);
      TidySection(s);
    }
    TidyFlat(SectionLines, t.sections);
    TidyTitle(t.title);
    TidyAppend([TITLE + t.title], Flat(SectionLines, t.sections));
  }

  lemma TidySection(s: TaskSection)
    requires SectionOk(s)
    ensures Tidy(SectionLines(s))
  {
    hide TidyLine, Field, TaskOk, TaskBody;
    forall t | t in s.tasks ensures Tidy(TaskEntry(t)) {
      BodyField(t);
      TidyBullet(TaskBody(t));
    }
    TidyFlat(TaskEntry, s.tasks);
    if s.name != "" {
      TidyHeading(s.name);
      TidyAppend(["", SECTION + s.name], Flat(TaskEntry, s.tasks));
    }
  }

  /** Printing a canonical task list and parsing the text gives it back: sections, numbers, texts and marks. */
  lemma TasksRoundTrip(t: Tasks)
    requires Canonical(t)
    ensures Parse(Print(t)) == t
  {
    hide TasksOk, Lines, Finish, Line, Unlines, Split, WellNamed;
    TidyLines(t);
    TidySplits(Lines(t));
    LinesRead(t);
  }

  /**
  Semantic stability, exactly: re-parsing the printed parse gives the same task list if and only if no section after
  the first is unnamed and an unnamed first section holds a task. Only a heading of white space can break that.
  */
  lemma StableIffWellNamed(text: string)
    ensures Parse(Print(Parse(text))) == Parse(text) <==> WellNamed(Parse(text).sections)
    ensures (forall l | l in Split(text) :: !Hollow(l)) ==> WellNamed(Parse(text).sections)
  {
    hide Parse, Lines, TasksOk, Split, Unlines, Hollow, Indented, WellNamed;
    var t := Parse(text);
    ParseOk(text);
    TidyLines(t);
    TidySplits(Lines(t));
    ParseOk(Print(t));
    if Canonical(t) {
      TasksRoundTrip(t);
    }
  }

  /**
  The round trip, exactly: a task list, wherever it comes from, is read back from its printed text if and only if its
  fields are trimmed single lines, numbers are dotted numbers, no unnumbered text starts with one, and only a first
  section with a task is unnamed.
  */
  lemma RoundTripIffCanonical(t: Tasks)
    ensures Parse(Print(t)) == t <==> Canonical(t)
  {
    hide Parse, Print, TasksOk, WellNamed, Split, Hollow;
    if Canonical(t) {
      TasksRoundTrip(t);
    }
    StableIffWellNamed(Print(t));
    ParseOk(Print(t));
  }

  /** An unnamed section is open and holds no task yet. */
  predicate Hanging(st: State) {
    st.current.Some? && st.current.value.name == "" && st.current.value.tasks == []
  }

  /** A heading does not leave an empty unnamed section behind, and is nameless only before anything else. */
  predicate Fine(st: State, raw: string) {
    ClassifyTop(raw).SectionHead? ==>
      !Hanging(st) && (ClassifyTop(raw).heading == "" ==> st.sections == [] && st.current.None?)
  }

  /** The only nameless heading, if any, opens the list and is followed by a task before the next heading. */
  ghost predicate Literal(text: string) {
    var ls := Split(text);
    (forall i | 0 <= i < |ls| :: Fine(Fold(Line, START, ls[..i]), ls[i])) && !Hanging(Fold(Line, START, ls))
  }

  /** Nothing unnamed so far but a first section. */
  predicate Clean(st: State) {
    WellNamed(st.sections) && (st.current.Some? && st.current.value.name == "" ==> st.sections == [])
  }

  lemma AppendWellNamed(ss: seq<TaskSection>, s: TaskSection)
    ensures WellNamed(ss + [s]) <==> WellNamed(ss) && (s.name == "" ==> ss == [] && s.tasks != [])
  {
    var all := ss + [s];
    assert all[|ss|] == s && forall i | 0 <= i < |ss| :: all[i] == ss[i];
  }

  lemma FlushIff(st: State)
    ensures WellNamed(Flush(st).sections) <==> Clean(st) && !Hanging(st)
    ensures Flush(st).sections == [] <==> st.sections == [] && st.current.None?
  {
    hide WellNamed;
    if st.current.Some? { AppendWellNamed(st.sections, st.current.value); }
  }

  /** One line keeps the state clean exactly if it was clean and the line is fine where it stands. */
  lemma LineIff(st: State, raw: string)
    requires st.current.None? ==> st.sections == []
    ensures Clean(Line(st, raw)) <==> Clean(st) && Fine(st, raw)
    ensures Line(st, raw).current.None? ==> Line(st, raw).sections == []
  {
    hide ClassifyTop, ParseTask, WellNamed;
    FlushIff(st);
  }

  lemma {:induction false} FoldIff(ls: seq<string>, n: nat)
    requires n <= |ls|
    ensures var st := Fold(Line, START, ls[..n]); st.current.None? ==> st.sections == []
    ensures Clean(Fold(Line, START, ls[..n])) <==> forall i | 0 <= i < n :: Fine(Fold(Line, START, ls[..i]), ls[i])
    decreases n
  {
    hide Line, Fine;
    if n > 0 {
      hide Clean;
      FoldIff(ls, n - 1);
      FoldSnoc(Line, START, ls, n - 1);
      LineIff(Fold(Line, START, ls[..n - 1]), ls[n - 1]);
    }
  }

  /** The exact condition on the text: parse, print, parse is parse if and only if every heading is fine where it stands. */
  lemma StableIffLiteral(text: string)
    ensures Parse(Print(Parse(text))) == Parse(text) <==> Literal(text)
  {
    hide Print, Clean, Hanging, Fine, Split, Line, WellNamed, Hollow;
    var ls := Split(text);
    FoldIff(ls, |ls|);
    assert ls[..|ls|] == ls;
    FlushIff(Fold(Line, START, ls));
    StableIffWellNamed(text);
  }

  /** The promise fails on a heading of white space after a named section: the printer writes no heading for it. */
  lemma HollowSectionIsLost()
    ensures var text := "## A\n## \U{A0}";
            && Parse(text).sections == [TaskSection("A", []), TaskSection("", [])]
            && Parse(Print(Parse(text))) != Parse(text)
  {
    hide ClassifyTop, Split, Print, TasksOk;
    var text, a, b := "## A\n## \U{A0}", "## A", "## \U{A0}";
    assert text == a + "\n" + b;
    SplitLine(a, b);
    SplitOne(b);
    HollowReads();
    assert Field("A") && SECTION + "A" == a;
    ReadSection("A");
    var st := START.(current := Some(TaskSection("A", [])));
    assert Line(START, a) == st;
    assert [] + [TaskSection("A", [])] == [TaskSection("A", [])];
    assert Line(st, b) == State("", [TaskSection("A", [])], Some(TaskSection("", [])));
    FoldAppend(Line, START, [a], [b]);
    FoldOne(Line, START, a);
    FoldOne(Line, st, b);
    assert [TaskSection("A", [])] + [TaskSection("", [])] == [TaskSection("A", []), TaskSection("", [])];
    assert Parse(text).sections[1].name == "";
    StableIffWellNamed(text);
  }

  // ---------------------------------------------------------------------------------------
  // The loops of the code
  // ---------------------------------------------------------------------------------------

  method ParseTasks(text: string) returns (t: Tasks)
    ensures t == Parse(text)
  {
    hide ClassifyTop, ParseTask, Split;
    var lines := Split(text);
    t := Tasks("", []);
    var cur: Option<TaskSection> := None;
    var i := 0;
    while i < |lines|
      invariant 0 <= i <= |lines|
      invariant Fold(Line, START, lines[..i]) == State(t.title, t.sections, cur)
    {
      FoldSnoc(Line, START, lines, i);
      match ClassifyTop(lines[i]) {
        case SectionHead(name) =>
          if cur.Some? {
            t := t.(sections := t.sections + [cur.value]);
          }
          cur := Some(TaskSection(name, []));
        case TitleHead(title) =>
          t := t.(title := title);
        case Other(trimmed) =>
          var task := ParseTask(trimmed);
          if task.Some? {
            if cur.None? {
              cur := Some(TaskSection("", []));
            }
            cur := Some(cur.value.(tasks := cur.value.tasks + [task.value]));
          }
        case _ =>
      }
      i := i + 1;
    }
    assert lines[..i] == lines;
    if cur.Some? {
      t := t.(sections := t.sections + [cur.value]);
    }
  }

  method RenderHeading(b: string, name: string) returns (out: string)
    ensures out == b + Unlines(if name == "" then [] else ["", SECTION + name])
  {
    hide Unlines;
    UnlinesNothing();
    if name == "" {
      return b;
    }
    WriteSection(b, [], name);
    assert [] + ["", SECTION + name] == ["", SECTION + name];
    out := b + "\n" + (SECTION + name) + "\n";
  }

  method RenderSection(b: string, s: TaskSection) returns (out: string)
    ensures out == b + Unlines(SectionLines(s))
  {
    hide Unlines, Flat, TaskLine;
    out := RenderHeading(b, s.name);
    ghost var head := if s.name == "" then [] else ["", SECTION + s.name];
    NoItems(head, TaskEntry, s.tasks);
    var i := 0;
    while i < |s.tasks|
      invariant 0 <= i <= |s.tasks|
      invariant out == b + Unlines(head + Flat(TaskEntry, s.tasks[..i]))
    {
      WriteItem(b, head, TaskEntry, s.tasks, i);
      UnlinesOne(TaskLine(s.tasks[i]));
      out := out + (TaskLine(s.tasks[i]) + "\n");
      i := i + 1;
    }
    assert s.tasks[..i] == s.tasks;
  }

  method RenderTasks(t: Tasks) returns (b: string)
    ensures b == Print(t)
  {
    hide Unlines, Flat, SectionLines;
    ghost var front := [TITLE + t.title];
    UnlinesOne(TITLE + t.title);
    b := TITLE + t.title + "\n";
    NoItems(front, SectionLines, t.sections);
    var i := 0;
    while i < |t.sections|
      invariant 0 <= i <= |t.sections|
      invariant b == "" + Unlines(front + Flat(SectionLines, t.sections[..i]))
    {
      WriteItem("", front, SectionLines, t.sections, i);
      b := RenderSection(b, t.sections[i]);
      i := i + 1;
    }
    assert t.sections[..i] == t.sections;
  }
}

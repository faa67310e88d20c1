/** Capability specs: parser, printer, and the semantic round trip between them. */
module SpecMarkdown {
  import opened Text
  import opened OpenSpec
  import opened Markdown
  import opened RequirementBlock

  datatype Section = InPurpose | InRequirements | Elsewhere

  datatype State = State(title: string, section: Section, purpose: seq<string>, done: seq<Requirement>,
                         current: Option<Open>, warnings: seq<Warning>)

  const START := State("", Elsewhere, [], [], None, [])

  function SectionOf(heading: string): Section {
    if Lower(heading) == "purpose" then InPurpose
    else if Lower(heading) == "requirements" then InRequirements
    else Elsewhere
  }

  function Flush(st: State): State {
    if st.current.Some? then st.(done := st.done + [Close(st.current.value)], current := None) else st
  }

  function TakeLine(st: State, t: string): State {
    if st.current.Some? && st.current.value.scenario.Some? && BulletBody(t).Some? then
      st.(current := Some(TakeText(st.current.value, t)))
    else if st.section == InPurpose then st.(purpose := st.purpose + [t])
    else if st.current.Some? then st.(current := Some(TakeText(st.current.value, t)))
    else st
  }

  function Line(st: State, raw: string): State {
    match Classify(raw)
    case ScenarioHead(n) =>
      if st.current.Some? then st.(current := Some(OpenScenario(st.current.value, n)))
      else st.(warnings := st.warnings + [EarlyScenario(n)])
    case RequirementHead(n) => Flush(st).(current := Some(Fresh(n)))
    case SectionHead(h) => Flush(st).(section := SectionOf(h))
    case TitleHead(t) => st.(title := t)
    case Blank => st
    case Other(t) => TakeLine(st, t)
  }

  function Finish(st: State): Spec {
    Spec("", st.title, Collected(st.purpose), Flush(st).done, st.warnings)
  }

  function Parse(text: string): Spec {
    Finish(Fold(Line, START, Split(text)))
  }

  // ---------------------------------------------------------------------------------------
  // Printing
  // ---------------------------------------------------------------------------------------

  function Entry(r: Requirement): seq<string> {
    RequirementLines(r, "", "")
  }

  function RequirementsLines(rs: seq<Requirement>): seq<string> {
    Flat(Entry, rs)
  }

  function PurposeLines(p: string): seq<string> {
    if p == "" then [] else ["", "## Purpose"] + Block(p)
  }

  function Lines(s: Spec): seq<string> {
    [TITLE + s.title] + PurposeLines(s.purpose) + ["", "## Requirements"] + RequirementsLines(s.requirements)
  }

  function Print(s: Spec): string {
    Unlines(Lines(s))
  }

  // ---------------------------------------------------------------------------------------
  // Canonical specs
  // ---------------------------------------------------------------------------------------

  /** Names and values fit on their lines, and no prose line is one of `taken`. */
  ghost predicate SpecOk(s: Spec, taken: string -> bool) {
    && Field(s.title)
    && Prose(s.purpose, taken)
    && forall r | r in s.requirements :: RequirementOk(r, taken)
  }

  /** What survives printing: moreover no prose line reads as a heading. */
  ghost predicate Canonical(s: Spec) {
    SpecOk(s, IsHeading)
  }

  ghost predicate StateOk(st: State, taken: string -> bool) {
    && Field(st.title)
    && AllPlain(st.purpose, taken)
    && (forall r | r in st.done :: RequirementOk(r, taken))
    && (st.current.Some? ==> OpenOk(st.current.value, taken))
  }

  lemma FlushOk(st: State, taken: string -> bool)
    requires StateOk(st, taken)
    ensures StateOk(Flush(st), taken)
  {
    hide Field, AllPlain, RequirementOk, OpenOk, Close;
    if st.current.Some? {
      CloseOk(st.current.value, taken);
    }
  }

  lemma LineOk(st: State, raw: string, taken: string -> bool)
    requires StateOk(st, taken) && OneLine(raw)
    requires forall t | Classify(raw) == Other(t) :: !taken(t)
    ensures StateOk(Line(st, raw), taken)
  {
    hide Trimmed, OneLine, OpenOk, RequirementOk, Classify, OpenScenario, TakeText, Flush, BulletBody;
    ClassifyYields(raw);
    FlushOk(st, taken);
    match Classify(raw)
    case ScenarioHead(n) =>
      if st.current.Some? { OpenScenarioOk(st.current.value, n, taken); }
    case RequirementHead(n) => FreshOk(n, taken);
    case SectionHead(h) =>
    case TitleHead(t) =>
    case Blank =>
    case Other(t) =>
      assert Plain(t, taken);
      if st.current.Some? { TakeTextOk(st.current.value, t, taken); }
  }

  lemma FreshOk(n: string, taken: string -> bool)
    requires Field(n)
    ensures OpenOk(Fresh(n), taken)
  {
  }

  lemma {:induction false} FoldOk(st: State, ls: seq<string>, taken: string -> bool)
    requires StateOk(st, taken)
    requires forall l | l in ls :: OneLine(l) && forall t | Classify(l) == Other(t) :: !taken(t)
    ensures StateOk(Fold(Line, st, ls), taken)
    decreases |ls|
  {
    hide StateOk, OneLine, Classify, Line;
    if ls != [] {
      assert ls[0] in ls;
      LineOk(st, ls[0], taken);
      FoldOk(Line(st, ls[0]), ls[1..], taken);
    }
  }

  lemma ParseOk(text: string, taken: string -> bool)
    requires forall l | l in Split(text) :: forall t | Classify(l) == Other(t) :: !taken(t)
    ensures SpecOk(Parse(text), taken)
  {
    hide Classify, Field, AllPlain, RequirementOk, Flush, Collected, Split, Prose, Line;
    SplitPieces(text);
    assert StateOk(START, taken) by { StartOk(taken); }
    FoldOk(START, Split(text), taken);
    var st := Fold(Line, START, Split(text));
    FlushOk(st, taken);
    CollectedBlock(st.purpose, taken);
  }

  lemma StartOk(taken: string -> bool)
    ensures StateOk(START, taken)
  {
  }

  /** Whatever the text, parsing yields trimmed one-line names and trimmed prose. */
  lemma ParseIsTidy(text: string)
    ensures SpecOk(Parse(text), Never)
  {
    ParseOk(text, Never);
  }

  // ---------------------------------------------------------------------------------------
  // Printed specs parse back
  // ---------------------------------------------------------------------------------------

  lemma SectionNames()
    ensures SectionOf("Purpose") == InPurpose && SectionOf("Requirements") == InRequirements
    ensures Field("Purpose") && Field("Requirements")
  {
    hide Lower, Field;
    PurposeName();
    RequirementsName();
    assert "requirements" != "purpose";
  }

  lemma PurposeName()
    ensures Lower("Purpose") == "purpose" && Field("Purpose")
  {
  }

  lemma RequirementsName()
    ensures Lower("Requirements") == "requirements" && Field("Requirements")
  {
    hide Lower, Field;
    RequirementsField();
    RequirementsLower();
  }

  lemma RequirementsField()
    ensures Field("Requirements")
  {
  }

  lemma RequirementsLower()
    ensures Lower("Requirements") == "requirements"
  {
    hide Lower;
    LowerIs("Requirements", "requirements");
  }

  /** Lines inside a requirement block reach only the open requirement. */
  lemma {:induction false} Inside(st: State, o: Open, ls: seq<string>)
    requires AllInner(ls) && st.current == Some(o) && st.section != InPurpose
    ensures Fold(Line, st, ls) == st.(current := Some(Fold(OpenStep, o, ls)))
    decreases |ls|
  {
    hide Classify, TakeText, OpenScenario;
    if ls != [] {
      assert ls[0] in ls && Inner(ls[0]);
      var o' := OpenStep(o, ls[0]);
      var st' := Line(st, ls[0]);
      assert st' == st.(current := Some(o'));
      forall l | l in ls[1..] ensures Inner(l) { assert l in ls; }
      Inside(st', o', ls[1..]);
    }
  }

  lemma TitleReads(t: string)
    requires Field(t)
    ensures Line(START, TITLE + t) == START.(title := t)
  {
    hide Classify, Field;
    if t == "" {
      ReadNoTitle();
      assert TITLE + t == TITLE;
    } else {
      ReadTitle(t);
    }
  }

  lemma SectionReads(st: State, heading: string, name: string)
    requires Field(name) && name != "" && heading == SECTION + name
    ensures Fold(Line, st, ["", heading]) == Flush(st).(section := SectionOf(name))
  {
    hide Classify, Field, SectionOf, Flush;
    ReadBlank();
    ReadSection(name);
    assert ["", heading] == [""] + [heading];
    FoldAppend(Line, st, [""], [heading]);
    FoldOne(Line, st, "");
    FoldOne(Line, st, heading);
  }

  lemma {:induction false} PurposeReads(st: State, ls: seq<string>)
    requires st.section == InPurpose && st.current.None? && AllPlain(ls, IsHeading)
    ensures Fold(Line, st, ls) == st.(purpose := st.purpose + ls)
    decreases |ls|
  {
    hide Classify, Field, IsHeading;
    if ls == [] {
      assert st.purpose + ls == st.purpose;
    } else {
      assert ls[0] in ls;
      ReadPlain(ls[0]);
      var st' := Line(st, ls[0]);
      assert st' == st.(purpose := st.purpose + [ls[0]]);
      forall l | l in ls[1..] ensures Plain(l, IsHeading) { assert l in ls; }
      PurposeReads(st', ls[1..]);
      assert st.purpose + [ls[0]] + ls[1..] == st.purpose + ls;
    }
  }

  lemma PurposeBlockReads(st: State, p: string)
    requires st.current.None? && st.purpose == [] && Prose(p, IsHeading)
    ensures var st' := Fold(Line, st, PurposeLines(p));
            st' == st.(purpose := Block(p), section := st'.section)
  {
    hide Field, IsHeading, Block, AllPlain, Prose, SectionOf;
    BlockCollected(p, IsHeading);
    if p != "" {
      SectionNames();
      assert "## Purpose" == SECTION + "Purpose";
      SectionReads(st, "## Purpose", "Purpose");
      FoldAppend(Line, st, ["", "## Purpose"], Block(p));
      PurposeReads(st.(section := InPurpose), Block(p));
      assert [] + Block(p) == Block(p);
    } else {
      assert Block(p) == [] by { NoBlock(); }
    }
  }

  lemma NoBlock()
    ensures Block("") == []
  {
  }

  lemma RequirementReads(st: State, r: Requirement)
    requires st.section != InPurpose && RequirementOk(r, IsHeading)
    ensures Flush(Fold(Line, st, Entry(r))) == Flush(st).(done := Flush(st).done + [r])
    ensures Fold(Line, st, Entry(r)).section == st.section
  {
    hide Classify, Block, ScenariosLines, Prose, ScenarioOk, OpenStep, Inner, Trimmed, OneLine, Close;
    var head, body := HeadLines(r.name), Block(r.statement) + ScenariosLines(r.scenarios);
    assert Entry(r) == head + body;
    FoldAppend(Line, st, head, body);
    ReadBlank();
    ReadRequirement(r.name);
    var st' := Flush(st).(current := Some(Fresh(r.name)));
    assert Fold(Line, st, head) == st' by {
      assert head == [""] + [REQUIREMENT + " " + r.name];
      FoldAppend(Line, st, [""], [REQUIREMENT + " " + r.name]);
      FoldOne(Line, st, "");
      FoldOne(Line, st, REQUIREMENT + " " + r.name);
    }
    assert forall l | l in Block(r.statement) :: !IsHeading(l) by { ProseIsClear(r.statement); }
    BodyReads(r, IsHeading);
    Inside(st', Fresh(r.name), body);
  }

  lemma ProseIsClear(p: string)
    requires Prose(p, IsHeading)
    ensures forall l | l in Block(p) :: !IsHeading(l)
  {
    hide IsHeading, Split, Field;
  }

  lemma {:induction false} RequirementsRead(st: State, rs: seq<Requirement>)
    requires st.section != InPurpose && forall r | r in rs :: RequirementOk(r, IsHeading)
    ensures Flush(Fold(Line, st, RequirementsLines(rs))) == Flush(st).(done := Flush(st).done + rs)
    decreases |rs|
  {
    hide RequirementOk, Entry, Line, Flush;
    if rs == [] {
      assert Flush(st).done + rs == Flush(st).done;
    } else {
      assert rs[0] in rs;
      RequirementReads(st, rs[0]);
      var a := Entry(rs[0]);
      FoldAppend(Line, st, a, RequirementsLines(rs[1..]));
      var st' := Fold(Line, st, a);
      RequirementsRead(st', rs[1..]);
      assert Flush(st).done + [rs[0]] + rs[1..] == Flush(st).done + rs;
    }
  }

  /** The fold over the printed lines of a canonical spec rebuilds exactly its parts. */
  lemma LinesRead(s: Spec)
    requires Canonical(s)
    ensures Finish(Fold(Line, START, Lines(s) + [""])) == s.(capability := "", warnings := [])
  {
    hide Field, Prose, RequirementOk, Line, RequirementsLines, PurposeLines, Flush, Block, SectionOf, IsHeading, Collected;
    var title, purpose, reqs := [TITLE + s.title], PurposeLines(s.purpose), ["", "## Requirements"];
    TitleReads(s.title);
    FoldOne(Line, START, TITLE + s.title);
    var st1 := START.(title := s.title);
    PurposeBlockReads(st1, s.purpose);
    var st2 := Fold(Line, st1, purpose);
    SectionNames();
    assert "## Requirements" == SECTION + "Requirements";
    SectionReads(st2, "## Requirements", "Requirements");
    var st3 := Fold(Line, st2, reqs);
    assert st3 == st2.(section := InRequirements) by { FlushIdle(st2); }
    RequirementsRead(st3, s.requirements);
    var st4 := Fold(Line, st3, RequirementsLines(s.requirements));
    FoldAppend(Line, START, title, purpose);
    FoldAppend(Line, START, title + purpose, reqs);
    FoldAppend(Line, START, title + purpose + reqs, RequirementsLines(s.requirements));
    assert Lines(s) == title + purpose + reqs + RequirementsLines(s.requirements);
    FoldAppend(Line, START, Lines(s), [""]);
    FoldOne(Line, st4, "");
    assert Line(st4, "") == st4 by { BlankReads(st4); }
    BlockCollected(s.purpose, IsHeading);
    FlushIdle(st3);
    FlushKeeps(st4);
    assert [] + s.requirements == s.requirements;
  }

  lemma FlushIdle(st: State)
    ensures st.current.None? ==> Flush(st) == st
  {
  }

  lemma FlushKeeps(st: State)
    ensures Flush(st) == st.(done := Flush(st).done, current := None)
  {
  }

  lemma BlankReads(st: State)
    ensures Line(st, "") == st
  {
    ReadBlank();
  }

  // ---------------------------------------------------------------------------------------
  // Round trips
  // ---------------------------------------------------------------------------------------

  lemma NeatRequirements(rs: seq<Requirement>, taken: string -> bool)
    requires forall r | r in rs :: RequirementOk(r, taken)
    ensures Neat(RequirementsLines(rs))
  {
    hide Neat, Entry, RequirementOk;
    forall r | r in rs ensures Neat(Entry(r)) {
      NeatRequirement(r, taken);
    }
    NeatFlat(Entry, rs);
  }

  lemma NeatRequirement(r: Requirement, taken: string -> bool)
    requires RequirementOk(r, taken)
    ensures Neat(Entry(r))
  {
    hide Neat, HeadLines, Block, ScenariosLines, Prose, ScenarioOk, Field;
    NeatHead(r.name);
    NeatBlock(r.statement, taken);
    NeatScenarios(r.scenarios);
    NeatAppend(HeadLines(r.name), Block(r.statement));
    NeatAppend(HeadLines(r.name) + Block(r.statement), ScenariosLines(r.scenarios));
    assert Entry(r) == HeadLines(r.name) + Block(r.statement) + ScenariosLines(r.scenarios);
  }

  lemma NeatLines(s: Spec, taken: string -> bool)
    requires SpecOk(s, taken)
    ensures Neat(Lines(s))
  {
    hide Prose, RequirementOk, RequirementsLines, Block, Trimmed;
    NeatLead(TITLE, s.title);
    var title, reqs := [TITLE + s.title], ["", "## Requirements"];
    assert Neat(title) && Neat(reqs);
    NeatBlock(s.purpose, taken);
    assert Neat(PurposeLines(s.purpose)) by {
      var h := ["", "## Purpose"];
      assert Neat(h);
      NeatAppend(h, Block(s.purpose));
    }
    NeatRequirements(s.requirements, taken);
    NeatAppend(title, PurposeLines(s.purpose));
    NeatAppend(title + PurposeLines(s.purpose), reqs);
    NeatAppend(title + PurposeLines(s.purpose) + reqs, RequirementsLines(s.requirements));
  }

  /** The text printed for a tidy spec splits into its lines. */
  lemma PrintSplits(s: Spec, taken: string -> bool)
    requires SpecOk(s, taken)
    ensures Split(Print(s)) == Lines(s) + [""]
    ensures Neat(Lines(s))
  {
    hide SpecOk, Lines, Unlines, Split;
    NeatLines(s, taken);
    SplitUnlines(Lines(s));
  }

  /** Printing a canonical spec and parsing the text gives the spec back; nothing is warned about. */
  lemma SpecRoundTrip(s: Spec)
    requires Canonical(s)
    ensures Parse(Print(s)) == s.(capability := "", warnings := [])
  {
    hide SpecOk, Lines, Print, Finish, Line;
    PrintSplits(s, IsHeading);
    LinesRead(s);
  }

  /** Texts in which no indented line hides a heading parse to canonical specs. */
  lemma CleanTextIsCanonical(text: string)
    requires forall l | l in Split(text) :: !Indented(l, IsHeading)
    ensures Canonical(Parse(text))
  {
    hide Classify, Parse, SpecOk, IsHeading, Indented, Split;
    SplitPieces(text);
    forall l, t | l in Split(text) && Classify(l) == Other(t) ensures !IsHeading(t) {
      ClassifyYields(l);
    }
    ParseOk(text, IsHeading);
  }

  /** What a printer prints never hides a heading, so re-parsing it is always canonical. */
  lemma ReparseIsCanonical(s: Spec)
    requires SpecOk(s, Never)
    ensures Canonical(Parse(Print(s)))
  {
    hide Classify, Parse, SpecOk, IsHeading, Indented, Split, Lines, Print;
    PrintSplits(s, Never);
    forall l | l in Split(Print(s)) ensures !Indented(l, IsHeading) {
      assert FlushLeft(l);
      FlushNotIndented(l);
    }
    CleanTextIsCanonical(Print(s));
  }

  /**
  Semantic stability, exactly: re-parsing the printed parse of `text` gives the same spec, up to warnings, if and
  only if no line of the parsed purpose or of a parsed statement reads as a heading.
  */
  lemma StableIffNoHeadingInProse(text: string)
    ensures Parse(Print(Parse(text))) == Parse(text).(warnings := []) <==> Canonical(Parse(text))
  {
    hide SpecOk, Print, IsHeading;
    var s := Parse(text);
    assert s.capability == "";
    ParseIsTidy(text);
    ReparseIsCanonical(s);
    if Canonical(s) {
      SpecRoundTrip(s);
    } else if Parse(Print(s)) == s.(warnings := []) {
      WarningsAside(Parse(Print(s)), s);
    }
  }

  lemma WarningsAside(a: Spec, b: Spec)
    requires a == b.(warnings := []) && Canonical(a)
    ensures Canonical(b)
  {
  }

  /**
  The round trip, exactly: a spec, wherever it comes from, is read back from its printed text if and only if its fields
  are trimmed single lines, its blocks are proper prose, and no prose line reads as a heading.
  */
  lemma RoundTripIffCanonical(s: Spec)
    ensures Parse(Print(s)) == s.(capability := "", warnings := []) <==> Canonical(s)
  {
    hide SpecOk, Unlines, Finish;
    var bare := s.(capability := "", warnings := []);
    if Canonical(s) {
      SpecRoundTrip(s);
    } else if Parse(Print(s)) == bare {
      assert Print(bare) == Print(s);
      StableIffNoHeadingInProse(Print(s));
      OtherFieldsAside(s);
    }
  }

  lemma OtherFieldsAside(s: Spec)
    ensures Canonical(s.(capability := "", warnings := [])) <==> Canonical(s)
  {
  }

  /** Where the parser keeps a text line as prose: in the purpose, or in a statement before the first scenario. */
  predicate Keeps(st: State, t: string) {
    && !(st.current.Some? && st.current.value.scenario.Some? && BulletBody(t).Some?)
    && (st.section == InPurpose || (st.current.Some? && st.current.value.scenario.None?))
  }

  /** The line does not leave a heading in kept prose. */
  predicate Fine(st: State, raw: string) {
    Classify(raw).Other? && Keeps(st, Classify(raw).text) ==> !IsHeading(Classify(raw).text)
  }

  /** No line hides a heading at a place where the parser keeps prose. */
  ghost predicate Literal(text: string) {
    var ls := Split(text);
    forall i | 0 <= i < |ls| :: Fine(Fold(Line, START, ls[..i]), ls[i])
  }

  lemma FlushIff(st: State, taken: string -> bool)
    requires StateOk(st, Never)
    ensures StateOk(Flush(st), taken) <==> StateOk(st, taken)
  {
    hide Field, AllPlain, RequirementOk, OpenOk, Close;
    if st.current.Some? {
      CloseIff(st.current.value, Never, taken);
      var all := st.done + [Close(st.current.value)];
      assert forall r | r in st.done :: r in all;
      assert Close(st.current.value) in all;
    }
  }

  lemma TakeLineIff(st: State, t: string)
    requires StateOk(st, Never) && t != "" && Field(t)
    ensures StateOk(TakeLine(st, t), IsHeading) <==> StateOk(st, IsHeading) && (Keeps(st, t) ==> !IsHeading(t))
  {
    hide Field, RequirementOk, TakeText, OpenOk, BulletBody, IsHeading;
    if st.current.Some? { TakeTextIff(st.current.value, t, Never, IsHeading); }
    assert forall l | l in st.purpose :: l in st.purpose + [t];
    assert t in st.purpose + [t];
  }

  /** One line keeps the state clean exactly if it was clean and the line leaves no heading in kept prose. */
  lemma LineIff(st: State, raw: string)
    requires StateOk(st, Never) && OneLine(raw)
    ensures StateOk(Line(st, raw), IsHeading) <==> StateOk(st, IsHeading) && Fine(st, raw)
  {
    hide Trimmed, OneLine, AllPlain, OpenOk, RequirementOk, Classify, OpenScenario, TakeLine, Flush, IsHeading, Keeps;
    ClassifyYields(raw);
    FlushIff(st, IsHeading);
    match Classify(raw)
    case ScenarioHead(n) =>
      if st.current.Some? {
        OpenHasScenario(st.current.value, Never);
        OpenScenarioIff(st.current.value, n, IsHeading);
      }
    case RequirementHead(n) =>
      FreshOk(n, IsHeading);
      FlushCloses(st);
    case SectionHead(h) =>
    case TitleHead(t) =>
    case Blank =>
    case Other(t) => TakeLineIff(st, t);
  }

  lemma OpenHasScenario(o: Open, taken: string -> bool)
    requires OpenOk(o, taken)
    ensures o.scenario.Some? ==> ScenarioOk(o.scenario.value)
  {
  }

  lemma FlushCloses(st: State)
    ensures Flush(st).current.None?
  {
  }

  lemma {:induction false} FoldIff(ls: seq<string>, n: nat)
    requires n <= |ls| && forall l | l in ls :: OneLine(l)
    ensures StateOk(Fold(Line, START, ls[..n]), Never)
    ensures StateOk(Fold(Line, START, ls[..n]), IsHeading) <==> forall i | 0 <= i < n :: Fine(Fold(Line, START, ls[..i]), ls[i])
    decreases n
  {
    hide StateOk, OneLine, Line, Fine;
    if n == 0 {
      StartOk(Never);
      StartOk(IsHeading);
    } else {
      FoldIff(ls, n - 1);
      FoldSnoc(Line, START, ls, n - 1);
      var st := Fold(Line, START, ls[..n - 1]);
      assert ls[n - 1] in ls;
      LineOk(st, ls[n - 1], Never);
      LineIff(st, ls[n - 1]);
    }
  }

  lemma FinishIff(st: State)
    requires StateOk(st, Never)
    ensures Canonical(Finish(st)) <==> StateOk(st, IsHeading)
  {
    hide Field, AllPlain, RequirementOk, OpenOk, Flush, Collected, Prose;
    FlushIff(st, IsHeading);
    FlushCloses(st);
    FlushKeepsRest(st);
    CollectedIff(st.purpose, Never, IsHeading);
  }

  lemma FlushKeepsRest(st: State)
    ensures Flush(st).title == st.title && Flush(st).purpose == st.purpose
  {
  }

  /** The exact condition on the text: parse, print, parse is parse if and only if no kept prose line hides a heading. */
  lemma StableIffLiteral(text: string)
    ensures Parse(Print(Parse(text))) == Parse(text).(warnings := []) <==> Literal(text)
  {
    hide Canonical, Print, StateOk, Finish, Fine, Split, Line;
    var ls := Split(text);
    SplitPieces(text);
    FoldIff(ls, |ls|);
    assert ls[..|ls|] == ls;
    FinishIff(Fold(Line, START, ls));
    StableIffNoHeadingInProse(text);
  }

  /** Without indented headings the documented promise holds: parse, print, parse is parse. */
  lemma SemanticStability(text: string)
    requires forall l | l in Split(text) :: !Indented(l, IsHeading)
    ensures Parse(Print(Parse(text))) == Parse(text).(warnings := [])
  {
    hide *;
    CleanTextIsCanonical(text);
    StableIffNoHeadingInProse(text);
  }

  /** The promise fails on an indented line that looks like a heading: the purpose becomes the title. */
  lemma IndentedHeadingBreaksStability()
    ensures var text := "## Purpose\n # Foo";
            Parse(text).purpose == "# Foo" && Parse(Print(Parse(text))) != Parse(text).(warnings := [])
  {
    hide Classify, SectionOf, Split, IsHeading, SpecOk, Print, Collected;
    var text := "## Purpose\n # Foo";
    TwoLines();
    ReadTwo();
    var st := START.(section := InPurpose);
    assert Line(START, "## Purpose") == st;
    assert [] + ["# Foo"] == ["# Foo"];
    assert Line(st, " # Foo") == st.(purpose := ["# Foo"]);
    OneProse("# Foo");
    HeadingIsNotProse(Parse(text));
    StableIffNoHeadingInProse(text);
  }

  lemma TwoLines()
    ensures Fold(Line, START, Split("## Purpose\n # Foo")) == Line(Line(START, "## Purpose"), " # Foo")
  {
    hide Line, Split;
    var a, b := "## Purpose", " # Foo";
    assert "## Purpose\n # Foo" == a + "\n" + b;
    SplitLine(a, b);
    SplitOne(b);
    FoldAppend(Line, START, [a], [b]);
    FoldOne(Line, START, a);
    FoldOne(Line, Line(START, a), b);
  }

  lemma ReadTwo()
    ensures Classify("## Purpose") == SectionHead("Purpose") && SectionOf("Purpose") == InPurpose
    ensures Classify(" # Foo") == Other("# Foo")
  {
    hide Classify, SectionOf;
    SectionNames();
    assert SECTION + "Purpose" == "## Purpose";
    ReadSection("Purpose");
    assert Field("# Foo") && " " + "# Foo" == " # Foo";
    IndentedReads("# Foo");
  }

  lemma OneProse(l: string)
    requires l == "# Foo"
    ensures Collected([l]) == l
  {
    assert Trimmed(l);
    TrimmedStays(l);
  }

  lemma HeadingIsNotProse(s: Spec)
    requires s.purpose == "# Foo"
    ensures !Canonical(s)
  {
    SplitOne("# Foo");
    assert "# Foo" in Split(s.purpose);
    assert TITLE <= "# Foo";
  }

  // ---------------------------------------------------------------------------------------
  // The loops of the code
  // ---------------------------------------------------------------------------------------

  /** The loop variables of the parser as one state. */
  ghost function Snapshot(title: string, section: Section, purpose: seq<string>, done: seq<Requirement>,
                          req: Option<Requirement>, statement: seq<string>, scen: Option<Scenario>, warnings: seq<Warning>): State
  {
    State(title, section, purpose, done,
          if req.Some? then Some(Open(req.value.name, req.value.scenarios, statement, scen)) else None, warnings)
  }

  /** The line loop of the parser: an open requirement, an open scenario, statement lines and a section marker. */
  method ParseSpec(text: string) returns (s: Spec)
    ensures s == Parse(text)
  {
    hide Classify, SectionOf, Collected, BulletBody, ParseStep, Split;
    var lines := Split(text);
    var title, section, purpose, done, warnings := "", Elsewhere, [], [], [];
    var req: Option<Requirement>, scen: Option<Scenario>, statement: seq<string> := None, None, [];
    var i := 0;
    while i < |lines|
      invariant 0 <= i <= |lines|
      invariant req.None? ==> scen.None? && statement == []
      invariant Fold(Line, START, lines[..i]) == Snapshot(title, section, purpose, done, req, statement, scen, warnings)
    {
      FoldSnoc(Line, START, lines, i);
      match Classify(lines[i]) {
        case ScenarioHead(name) =>
          if req.Some? {
            if scen.Some? {
              req := Some(req.value.(scenarios := req.value.scenarios + [scen.value]));
            }
            scen := Some(Scenario(name, []));
          } else {
            warnings := warnings + [EarlyScenario(name)];
          }
        case RequirementHead(name) =>
          done := FlushRequirement(done, req, statement, scen);
          req, scen, statement := Some(Requirement(name, "", [])), None, [];
        case SectionHead(heading) =>
          done := FlushRequirement(done, req, statement, scen);
          req, scen, statement := None, None, [];
          section := SectionOf(heading);
        case TitleHead(t) =>
          title := t;
        case Blank =>
        case Other(trimmed) =>
          var body := BulletBody(trimmed);
          if body.Some? && scen.Some? {
            scen := Some(scen.value.(steps := scen.value.steps + [ParseStep(body.value)]));
          } else if section == InPurpose {
            purpose := purpose + [trimmed];
          } else if req.Some? && scen.None? {
            statement := statement + [trimmed];
          }
      }
      i := i + 1;
    }
    assert lines[..i] == lines;
    done := FlushRequirement(done, req, statement, scen);
    s := Spec("", title, Collected(purpose), done, warnings);
  }

  method FlushRequirement(done: seq<Requirement>, req: Option<Requirement>, statement: seq<string>, scen: Option<Scenario>)
    returns (out: seq<Requirement>)
    ensures req.None? ==> out == done
    ensures req.Some? ==> out == done + [Close(Open(req.value.name, req.value.scenarios, statement, scen))]
  {
    if req.None? {
      return done;
    }
    var scenarios := req.value.scenarios;
    if scen.Some? {
      scenarios := scenarios + [scen.value];
    }
    return done + [Requirement(req.value.name, Collected(statement), scenarios)];
  }

  method RenderFrontMatter(s: Spec) returns (b: string)
    ensures b == Unlines([TITLE + s.title] + PurposeLines(s.purpose) + ["", "## Requirements"])
  {
    hide Unlines, Block;
    ghost var ls := [TITLE + s.title];
    b := "" + (TITLE + s.title) + "\n";
    UnlinesOne(TITLE + s.title);
    if s.purpose != "" {
      WriteLine("", ls, "");
      WriteLine("", ls + [""], "## Purpose");
      assert ls + ["", "## Purpose"] == ls + [""] + ["## Purpose"];
      WriteBlock("", ls + ["", "## Purpose"], s.purpose);
      assert ls + ["", "## Purpose"] + Block(s.purpose) == ls + PurposeLines(s.purpose);
      b := b + "\n" + "## Purpose" + "\n" + (s.purpose + "\n");
    }
    ghost var front := ls + PurposeLines(s.purpose);
    assert s.purpose == "" ==> front == ls;
    assert b == "" + Unlines(front);
    WriteLine("", front, "");
    WriteLine("", front + [""], "## Requirements");
    assert front + ["", "## Requirements"] == front + [""] + ["## Requirements"];
    b := b + "\n" + "## Requirements" + "\n";
    assert "" + Unlines(front) + "" + "\n" == "" + Unlines(front) + "\n";
    assert b == "" + Unlines(front + ["", "## Requirements"]);
  }

  /** The printer: heading lines, then one block per requirement. */
  method RenderSpec(s: Spec) returns (b: string)
    ensures b == Print(s)
  {
    hide Unlines, RequirementLines, Flat, PurposeLines;
    b := RenderFrontMatter(s);
    ghost var front := [TITLE + s.title] + PurposeLines(s.purpose) + ["", "## Requirements"];
    var i := 0;
    NoItems(front, Entry, s.requirements);
    while i < |s.requirements|
      invariant 0 <= i <= |s.requirements|
      invariant b == "" + Unlines(front + Flat(Entry, s.requirements[..i]))
    {
      WriteItem("", front, Entry, s.requirements, i);
      b := RenderRequirement(b, s.requirements[i], "", "");
      i := i + 1;
    }
    assert s.requirements[..i] == s.requirements;
  }
}

/** Change designs: technical approach, decisions, data flow, file changes and sections kept as text. */
module DesignMarkdown {
  import opened Text
  import opened OpenSpec
  import opened Markdown
  import opened Sections

  const DECISION := "### Decision:"

  // ---------------------------------------------------------------------------------------
  // File changes
  // ---------------------------------------------------------------------------------------

  /** A bullet with a back-quoted path and an optional parenthesised kind. */
  function ParseFileChange(trimmed: string): Option<FileChange> {
    var body := BulletBody(trimmed);
    if body.None? || !("`" <= body.value) then None
    else
      var b := body.value[1..];
      var end := IndexOf(b, '`');
      if end == |b| then None
      else
        var rest := TrimSpace(b[end + 1..]);
        Some(FileChange(b[..end],
                        if |rest| >= 2 && rest[0] == '(' && rest[|rest| - 1] == ')' then TrimSpace(rest[1..|rest| - 1]) else ""))
  }

  function ChangeBody(f: FileChange): string {
    "`" + f.path + "`" + if f.kind == "" then "" else " (" + f.kind + ")"
  }

  function ChangeLine(f: FileChange): string {
    "- " + ChangeBody(f)
  }

  /** A path without back quote or newline, blanks allowed, and a trimmed kind. */
  predicate ChangeOk(f: FileChange) {
    OneLine(f.path) && (forall i | 0 <= i < |f.path| :: f.path[i] != '`') && Field(f.kind)
  }

  lemma ChangeBodyField(f: FileChange)
    requires ChangeOk(f)
    ensures ChangeBody(f) != "" && Field(ChangeBody(f))
  {
    var b := ChangeBody(f);
    assert b[0] == '`';
    assert b[|b| - 1] == if f.kind == "" then '`' else ')';
    if f.kind != "" {
      var c := "`" + f.path + "`";
      assert OneLine(c) && OneLine(" (" + f.kind + ")");
    }
  }

  lemma ChangeRoundTrip(f: FileChange)
    requires ChangeOk(f)
    ensures ParseFileChange(ChangeLine(f)) == Some(f)
  {
    hide TrimSpace, BulletBody, Trimmed, ChangeOk, ChangeBody;
    ChangeBodyField(f);
    ReadBullet(ChangeBody(f));
    ChangeParts(f);
    KindReads(f.kind);
  }

  function KindTail(k: string): string {
    if k == "" then "" else " (" + k + ")"
  }

  /** The path ends at the first back quote after its own. */
  lemma ChangeParts(f: FileChange)
    requires ChangeOk(f)
    ensures var b := ChangeBody(f); "`" <= b && IndexOf(b[1..], '`') == |f.path| < |b[1..]|
    ensures ChangeBody(f)[1..][..|f.path|] == f.path && ChangeBody(f)[1..][|f.path| + 1..] == KindTail(f.kind)
    ensures Field(f.kind)
  {
    hide Trimmed;
    var b := ChangeBody(f)[1..];
    assert b == f.path + "`" + KindTail(f.kind);
    assert b[|f.path|] == '`';
    assert forall i | 0 <= i < |f.path| :: b[i] == f.path[i];
  }

  lemma KindReads(k: string)
    requires Field(k)
    ensures TrimSpace("") == ""
    ensures k != "" ==> TrimSpace(KindTail(k)) == "(" + k + ")" && TrimSpace(k) == k && ("(" + k + ")")[1..|k| + 1] == k
  {
    TrimmedStays(k);
    if k != "" {
      var r := "(" + k + ")";
      assert r[0] == '(' && r[|r| - 1] == ')';
      TrimSpaceAfterSpace(r);
      assert " (" + k + ")" == " " + r;
    }
  }

  lemma ParseChangeOk(t: string)
    requires t != "" && Field(t)
    ensures ParseFileChange(t).Some? ==> ChangeOk(ParseFileChange(t).value)
  {
    hide TrimSpace, Trimmed, BulletBody;
    if ParseFileChange(t).Some? {
      BulletYields(t);
      var b := BulletBody(t).value[1..];
      var end := IndexOf(b, '`');
      assert OneLine(b) && OneLine(b[end + 1..]);
      TrimSpaceTrims(b[end + 1..]);
      var rest := TrimSpace(b[end + 1..]);
      if |rest| >= 2 { TrimSpaceTrims(rest[1..|rest| - 1]); }
      assert Field("") by { EmptyField(); }
    }
  }

  lemma EmptyField()
    ensures Field("")
  {
  }

  // ---------------------------------------------------------------------------------------
  // Parsing
  // ---------------------------------------------------------------------------------------

  datatype Place =
    | Outside
    | InTechnical
    | InDecisions
    | InDecision(name: string, body: seq<string>)
    | InDataFlow
    | InFileChanges
    | InExtra(heading: string, lines: seq<string>)

  datatype State = State(title: string, place: Place, technical: seq<string>, decisions: seq<Decision>, dataFlow: seq<string>,
                         fileChanges: seq<FileChange>, extras: seq<ExtraSection>)

  const START := State("", Outside, [], [], [], [], [])

  function PlaceOf(heading: string): Place {
    var h := Lower(heading);
    if "technical approach" <= h then InTechnical
    else if "architecture decision" <= h then InDecisions
    else if "data flow" <= h then InDataFlow
    else if "file change" <= h then InFileChanges
    else InExtra(heading, [])
  }

  function Flush(st: State): State {
    match st.place
    case InDecision(n, ls) => st.(decisions := st.decisions + [Decision(n, Collected(ls))], place := InDecisions)
    case InExtra(h, ls) => st.(extras := st.extras + [ExtraSection(h, Collected(ls))], place := Outside)
    case _ => st
  }

  function TakeLine(st: State, t: string): State {
    match st.place
    case InTechnical => st.(technical := st.technical + [t])
    case InDataFlow => st.(dataFlow := st.dataFlow + [t])
    case InDecision(n, ls) => st.(place := InDecision(n, ls + [t]))
    case InFileChanges =>
      if ParseFileChange(t).Some? then st.(fileChanges := st.fileChanges + [ParseFileChange(t).value]) else st
    case InExtra(h, ls) => st.(place := InExtra(h, ls + [t]))
    case _ => st
  }

  predicate AmongDecisions(p: Place) {
    p.InDecisions? || p.InDecision?
  }

  /** Decision headings count only among the decisions; elsewhere they are prose. */
  function Line(st: State, raw: string): State {
    var line := TrimRight(raw);
    if AmongDecisions(st.place) && DECISION <= line then Flush(st).(place := InDecision(After(line, DECISION), []))
    else
      match ClassifyTop(raw)
      case SectionHead(h) => Flush(st).(place := PlaceOf(h))
      case TitleHead(t) => st.(title := t)
      case Other(t) => TakeLine(st, t)
      case _ => st
  }

  function Finish(st: State): Design {
    var s := Flush(st);
    Design(st.title, Collected(st.technical), s.decisions, Collected(st.dataFlow), st.fileChanges, s.extras)
  }

  function Parse(text: string): Design {
    Finish(Fold(Line, START, Split(text)))
  }

  // ---------------------------------------------------------------------------------------
  // Printing
  // ---------------------------------------------------------------------------------------

  function DecisionLines(d: Decision): seq<string> {
    ["", DECISION + " " + d.name] + Block(d.body)
  }

  function ChangeEntry(f: FileChange): seq<string> {
    [ChangeLine(f)]
  }

  function Headed(heading: string, present: bool, ls: seq<string>): seq<string> {
    if present then ["", SECTION + heading] + ls else []
  }

  const TECHNICAL := "Technical Approach"
  const DECISIONS := "Architecture Decisions"
  const DATA_FLOW := "Data Flow"
  const FILE_CHANGES := "File Changes"

  function Lines(d: Design): seq<string> {
    [TITLE + d.title] + Titled(TECHNICAL, d.technical) + Headed(DECISIONS, d.decisions != [], Flat(DecisionLines, d.decisions)) +
    Titled(DATA_FLOW, d.dataFlow) + Headed(FILE_CHANGES, d.fileChanges != [], Flat(ChangeEntry, d.fileChanges)) +
    Flat(ExtraLines, d.extras)
  }

  function Print(d: Design): string {
    Unlines(Lines(d))
  }

  // ---------------------------------------------------------------------------------------
  // Canonical designs
  // ---------------------------------------------------------------------------------------

  /** What a decision's prose must not look like. */
  predicate IsInner(l: string) {
    IsTop(l) || DECISION <= l
  }

  ghost predicate DecisionOk(d: Decision, inner: string -> bool) {
    Field(d.name) && Prose(d.body, inner)
  }

  ghost predicate KeptOk(x: ExtraSection, top: string -> bool) {
    ExtraOk(x, top) && PlaceOf(x.heading).InExtra?
  }

  ghost predicate DesignOk(d: Design, top: string -> bool, inner: string -> bool) {
    && Field(d.title)
    && Prose(d.technical, top)
    && (forall c | c in d.decisions :: DecisionOk(c, inner))
    && Prose(d.dataFlow, top)
    && (forall f | f in d.fileChanges :: ChangeOk(f))
    && (forall x | x in d.extras :: KeptOk(x, top))
  }

  /** What survives printing: no prose line reads as a heading where it stands, no kept section is nameless. */
  ghost predicate Canonical(d: Design) {
    DesignOk(d, IsTop, IsInner) && forall x | x in d.extras :: x.heading != ""
  }

  ghost predicate PlaceOk(p: Place, top: string -> bool, inner: string -> bool) {
    && (p.InDecision? ==> Field(p.name) && AllPlain(p.body, inner))
    && (p.InExtra? ==> Field(p.heading) && PlaceOf(p.heading).InExtra? && AllPlain(p.lines, top))
  }

  ghost predicate StateOk(st: State, top: string -> bool, inner: string -> bool) {
    && Field(st.title)
    && PlaceOk(st.place, top, inner)
    && AllPlain(st.technical, top)
    && (forall c | c in st.decisions :: DecisionOk(c, inner))
    && AllPlain(st.dataFlow, top)
    && (forall f | f in st.fileChanges :: ChangeOk(f))
    && (forall x | x in st.extras :: KeptOk(x, top))
  }

  ghost predicate Named(st: State) {
    && (forall x | x in st.extras :: x.heading != "")
    && (st.place.InExtra? ==> st.place.heading != "")
  }

  lemma FlushOk(st: State, top: string -> bool, inner: string -> bool)
    requires StateOk(st, top, inner)
    ensures StateOk(Flush(st), top, inner)
    ensures !Flush(st).place.InExtra? && !Flush(st).place.InDecision?
    ensures Named(st) ==> Named(Flush(st))
  {
    hide Field, AllPlain, ChangeOk, Collected, Prose, PlaceOf;
    if st.place.InExtra? {
      CollectedBlock(st.place.lines, top);
    } else if st.place.InDecision? {
      CollectedBlock(st.place.body, inner);
    }
  }

  /** What a raw line may leave as prose at the top, and inside a decision. */
  ghost predicate Allows(raw: string, top: string -> bool, inner: string -> bool) {
    forall t | ClassifyTop(raw) == Other(t) :: !top(t) && (!(DECISION <= TrimRight(raw)) ==> !inner(t))
  }

  lemma LineOk(st: State, raw: string, top: string -> bool, inner: string -> bool)
    requires StateOk(st, top, inner) && OneLine(raw) && Allows(raw, top, inner)
    ensures StateOk(Line(st, raw), top, inner)
    ensures Named(st) && !Hollow(raw) ==> Named(Line(st, raw))
  {
    hide Trimmed, OneLine, KeptOk, DecisionOk, ClassifyTop, Flush, ParseFileChange, Lower, TrimRight, ChangeOk, TrimSpace;
    var line := TrimRight(raw);
    FlushOk(st, top, inner);
    assert AllPlain([], top) && AllPlain([], inner);
    if AmongDecisions(st.place) && DECISION <= line {
      assert Field(After(line, DECISION)) by {
        TrimRightOneLine(raw);
        assert OneLine(line[|DECISION|..]) by { SuffixOneLine(line, |DECISION|); }
        TrimSpaceTrims(line[|DECISION|..]);
      }
    } else {
      ClassifyYields(raw);
      match ClassifyTop(raw)
      case Other(t) => TakeLineOk(st, t, top, inner);
      case _ =>
    }
  }

  lemma SuffixOneLine(s: string, i: nat)
    requires OneLine(s) && i <= |s|
    ensures OneLine(s[i..])
  {
  }

  lemma TakeLineOk(st: State, t: string, top: string -> bool, inner: string -> bool)
    requires StateOk(st, top, inner) && t != "" && Field(t) && !top(t)
    requires st.place.InDecision? ==> !inner(t)
    ensures StateOk(TakeLine(st, t), top, inner)
    ensures Named(st) ==> Named(TakeLine(st, t))
  {
    hide Field, KeptOk, DecisionOk, ParseFileChange, ChangeOk, PlaceOf;
    assert Plain(t, top);
    if st.place.InDecision? { assert Plain(t, inner); }
    ParseChangeOk(t);
  }

  lemma {:induction false} FoldOk(st: State, ls: seq<string>, top: string -> bool, inner: string -> bool)
    requires StateOk(st, top, inner)
    requires forall l | l in ls :: OneLine(l) && Allows(l, top, inner)
    ensures StateOk(Fold(Line, st, ls), top, inner)
    ensures Named(st) && (forall l | l in ls :: !Hollow(l)) ==> Named(Fold(Line, st, ls))
    decreases |ls|
  {
    hide StateOk, OneLine, Allows, Line, Hollow, Named;
    if ls != [] {
      assert ls[0] in ls;
      LineOk(st, ls[0], top, inner);
      FoldOk(Line(st, ls[0]), ls[1..], top, inner);
    }
  }

  lemma ParseOk(text: string, top: string -> bool, inner: string -> bool)
    requires forall l | l in Split(text) :: Allows(l, top, inner)
    ensures DesignOk(Parse(text), top, inner)
    ensures (forall l | l in Split(text) :: !Hollow(l)) ==> forall x | x in Parse(text).extras :: x.heading != ""
  {
    hide Allows, Field, AllPlain, KeptOk, DecisionOk, Flush, Collected, Split, Prose, Line, ChangeOk, Hollow;
    SplitPieces(text);
    StartOk(top, inner);
    FoldOk(START, Split(text), top, inner);
    var st := Fold(Line, START, Split(text));
    FlushOk(st, top, inner);
    CollectedBlock(st.technical, top);
    CollectedBlock(st.dataFlow, top);
  }

  lemma StartOk(top: string -> bool, inner: string -> bool)
    ensures StateOk(START, top, inner) && Named(START)
  {
  }

  // ---------------------------------------------------------------------------------------
  // Printed designs parse back
  // ---------------------------------------------------------------------------------------

  lemma TechnicalName()
    ensures PlaceOf(TECHNICAL) == InTechnical && Field(TECHNICAL)
  {
    hide Lower;
    assert "technical approach" <= Lower(TECHNICAL);
  }

  lemma DecisionsName()
    ensures PlaceOf(DECISIONS) == InDecisions && Field(DECISIONS)
  {
    hide Lower;
    assert Lower(DECISIONS)[0] == 'a';
    assert "architecture decision" <= Lower(DECISIONS) by { DecisionsPrefix(); }
  }

  lemma DecisionsPrefix()
    ensures "architecture decision" <= Lower(DECISIONS)
  {
    hide Lower;
  }

  lemma DataFlowName()
    ensures PlaceOf(DATA_FLOW) == InDataFlow && Field(DATA_FLOW)
  {
    hide Lower;
    assert Lower(DATA_FLOW)[0] == 'd';
    assert "data flow" <= Lower(DATA_FLOW);
  }

  lemma FileChangesName()
    ensures PlaceOf(FILE_CHANGES) == InFileChanges && Field(FILE_CHANGES)
  {
    hide Lower;
    assert Lower(FILE_CHANGES)[0] == 'f';
    assert "file change" <= Lower(FILE_CHANGES);
  }

  lemma BlankReads(st: State)
    ensures Line(st, "") == st
  {
    ReadBlank();
  }

  lemma SectionReads(st: State, name: string)
    requires Field(name) && name != ""
    ensures Fold(Line, st, ["", SECTION + name]) == Flush(st).(place := PlaceOf(name))
  {
    hide ClassifyTop, Field, PlaceOf, Flush, TrimRight, TrimSpace;
    BlankReads(st);
    ReadSection(name);
    var l := SECTION + name;
    assert !(DECISION <= TrimRight(l)) by { SectionIsNoDecision(name); }
    assert ["", l] == [""] + [l];
    FoldAppend(Line, st, [""], [l]);
    FoldOne(Line, st, "");
    FoldOne(Line, st, l);
  }

  lemma SectionIsNoDecision(name: string)
    requires Field(name) && name != ""
    ensures !(DECISION <= TrimRight(SECTION + name))
  {
    hide TrimRight;
    LeadLine(SECTION, name);
    assert (SECTION + name)[2] == ' ' && DECISION[2] == '#';
  }

  function AddProse(st: State, ls: seq<string>): State {
    match st.place
    case InTechnical => st.(technical := st.technical + ls)
    case InDataFlow => st.(dataFlow := st.dataFlow + ls)
    case InDecision(n, body) => st.(place := InDecision(n, body + ls))
    case InExtra(h, kept) => st.(place := InExtra(h, kept + ls))
    case _ => st
  }

  predicate HoldsProse(p: Place) {
    p.InTechnical? || p.InDataFlow? || p.InDecision? || p.InExtra?
  }

  lemma {:induction false} ProseReads(st: State, ls: seq<string>)
    requires HoldsProse(st.place) && AllPlain(ls, if st.place.InDecision? then IsInner else IsTop)
    ensures Fold(Line, st, ls) == AddProse(st, ls)
    decreases |ls|
  {
    hide ClassifyTop, Field, IsTop, TrimRight, TrimSpace;
    var taken := if st.place.InDecision? then IsInner else IsTop;
    if ls == [] {
      assert forall xs: seq<string> :: xs + ls == xs;
    } else {
      var l := ls[0];
      assert l in ls && Plain(l, taken);
      assert !IsTop(l);
      ReadPlain(l);
      assert TrimRight(l) == l by { FieldStays(l); }
      var st' := Line(st, l);
      assert st' == AddProse(st, [l]);
      forall x | x in ls[1..] ensures Plain(x, taken) { assert x in ls; }
      ProseReads(st', ls[1..]);
      assert forall xs: seq<string> :: xs + [l] + ls[1..] == xs + ls;
    }
  }

  lemma FieldStays(l: string)
    requires Field(l)
    ensures TrimRight(l) == l
  {
    TrimmedStays(l);
  }

  lemma TitledReads(st: State, name: string, p: string)
    requires Field(name) && name != "" && Prose(p, IsTop)
    requires PlaceOf(name).InTechnical? || PlaceOf(name).InDataFlow?
    ensures var st' := Flush(Fold(Line, st, Titled(name, p)));
            st' == AddProse(Flush(st).(place := PlaceOf(name)), Block(p)).(place := st'.place)
  {
    hide Field, Prose, Block, AllPlain, PlaceOf, Line;
    BlockCollected(p, IsTop);
    if p == "" {
      assert Block(p) == [] by { NoBlock(); }
    } else {
      SectionReads(st, name);
      FoldAppend(Line, st, ["", SECTION + name], Block(p));
      ProseReads(Flush(st).(place := PlaceOf(name)), Block(p));
    }
  }

  lemma NoBlock()
    ensures Block("") == []
  {
  }

  lemma DecisionHeadReads(st: State, name: string)
    requires AmongDecisions(st.place) && Field(name)
    ensures Fold(Line, st, ["", DECISION + " " + name]) == Flush(st).(place := InDecision(name, []))
  {
    hide Field, ClassifyTop, TrimRight, Flush;
    var head := DECISION + " " + name;
    BlankReads(st);
    ReadNamed(DECISION, name);
    assert Line(st, head) == Flush(st).(place := InDecision(name, []));
    assert ["", head] == [""] + [head];
    FoldAppend(Line, st, [""], [head]);
    FoldOne(Line, st, "");
    FoldOne(Line, st, head);
  }

  lemma DecisionReads(st: State, d: Decision)
    requires AmongDecisions(st.place) && DecisionOk(d, IsInner)
    ensures Fold(Line, st, DecisionLines(d)) == Flush(st).(place := InDecision(d.name, Block(d.body)))
    ensures Flush(Fold(Line, st, DecisionLines(d))) == Flush(st).(decisions := Flush(st).decisions + [d], place := InDecisions)
  {
    hide Field, Prose, Block, AllPlain, Line, Flush, Collected;
    var st1 := Flush(st).(place := InDecision(d.name, []));
    DecisionHeadReads(st, d.name);
    BlockCollected(d.body, IsInner);
    ProseReads(st1, Block(d.body));
    assert [] + Block(d.body) == Block(d.body);
    FoldAppend(Line, st, ["", DECISION + " " + d.name], Block(d.body));
    FlushDecision(st1.(place := InDecision(d.name, Block(d.body))));
  }

  lemma FlushDecision(st: State)
    requires st.place.InDecision?
    ensures Flush(st) == st.(decisions := st.decisions + [Decision(st.place.name, Collected(st.place.body))], place := InDecisions)
  {
  }

  lemma {:induction false} DecisionsRead(st: State, ds: seq<Decision>)
    requires AmongDecisions(st.place) && forall d | d in ds :: DecisionOk(d, IsInner)
    ensures Flush(Fold(Line, st, Flat(DecisionLines, ds))) == Flush(st).(decisions := Flush(st).decisions + ds)
    decreases |ds|
  {
    hide DecisionOk, DecisionLines, Line, Collected;
    if ds == [] {
      assert Flush(st).decisions + ds == Flush(st).decisions;
    } else {
      assert ds[0] in ds;
      DecisionReads(st, ds[0]);
      FoldAppend(Line, st, DecisionLines(ds[0]), Flat(DecisionLines, ds[1..]));
      DecisionsRead(Fold(Line, st, DecisionLines(ds[0])), ds[1..]);
      assert Flush(st).decisions + [ds[0]] + ds[1..] == Flush(st).decisions + ds;
    }
  }

  lemma DecisionSectionReads(st: State, ds: seq<Decision>)
    requires forall d | d in ds :: DecisionOk(d, IsInner)
    ensures var st' := Flush(Fold(Line, st, Headed(DECISIONS, ds != [], Flat(DecisionLines, ds))));
            st' == Flush(st).(decisions := Flush(st).decisions + ds, place := st'.place)
  {
    hide DecisionOk, Flat, Line, PlaceOf, Field;
    if ds == [] {
      assert Flush(st).decisions + ds == Flush(st).decisions;
    } else {
      DecisionsName();
      SectionReads(st, DECISIONS);
      FoldAppend(Line, st, ["", SECTION + DECISIONS], Flat(DecisionLines, ds));
      DecisionsRead(Flush(st).(place := InDecisions), ds);
    }
  }

  lemma ChangeReads(st: State, f: FileChange)
    requires st.place.InFileChanges? && ChangeOk(f)
    ensures Line(st, ChangeLine(f)) == st.(fileChanges := st.fileChanges + [f])
  {
    hide ChangeOk, ChangeBody, ClassifyTop, ParseFileChange, Field, TrimRight;
    ChangeBodyField(f);
    ReadBullet(ChangeBody(f));
    ChangeRoundTrip(f);
  }

  lemma {:induction false} ChangesRead(st: State, fs: seq<FileChange>)
    requires st.place.InFileChanges? && forall f | f in fs :: ChangeOk(f)
    ensures Fold(Line, st, Flat(ChangeEntry, fs)) == st.(fileChanges := st.fileChanges + fs)
    decreases |fs|
  {
    hide ChangeOk, ChangeLine, Line;
    if fs == [] {
      assert st.fileChanges + fs == st.fileChanges;
    } else {
      var f, l := fs[0], ChangeLine(fs[0]);
      assert f in fs;
      ChangeReads(st, f);
      FoldAppend(Line, st, ChangeEntry(f), Flat(ChangeEntry, fs[1..]));
      FoldOne(Line, st, l);
      ChangesRead(st.(fileChanges := st.fileChanges + [f]), fs[1..]);
      assert st.fileChanges + [f] + fs[1..] == st.fileChanges + fs;
    }
  }

  lemma ChangeSectionReads(st: State, fs: seq<FileChange>)
    requires forall f | f in fs :: ChangeOk(f)
    ensures var st' := Flush(Fold(Line, st, Headed(FILE_CHANGES, fs != [], Flat(ChangeEntry, fs))));
            st' == Flush(st).(fileChanges := Flush(st).fileChanges + fs, place := st'.place)
  {
    hide ChangeOk, Flat, Line, PlaceOf, Field;
    if fs == [] {
      assert Flush(st).fileChanges + fs == Flush(st).fileChanges;
    } else {
      FileChangesName();
      SectionReads(st, FILE_CHANGES);
      FoldAppend(Line, st, ["", SECTION + FILE_CHANGES], Flat(ChangeEntry, fs));
      ChangesRead(Flush(st).(place := InFileChanges), fs);
    }
  }

  lemma {:induction false} ExtrasRead(st: State, xs: seq<ExtraSection>)
    requires forall x | x in xs :: KeptOk(x, IsTop) && x.heading != ""
    ensures Flush(Fold(Line, st, Flat(ExtraLines, xs))) ==
            Flush(st).(extras := Flush(st).extras + xs, place := Flush(Fold(Line, st, Flat(ExtraLines, xs))).place)
    decreases |xs|
  {
    hide Field, Prose, Block, AllPlain, PlaceOf, Line, Collected, Flush;
    if xs == [] {
      assert Flush(st).extras + xs == Flush(st).extras;
    } else {
      var x := xs[0];
      assert x in xs && KeptOk(x, IsTop);
      ExtraReads(st, x);
      var st2 := Fold(Line, st, ExtraLines(x));
      FoldAppend(Line, st, ExtraLines(x), Flat(ExtraLines, xs[1..]));
      ExtrasRead(st2, xs[1..]);
      assert Flush(st).extras + [x] + xs[1..] == Flush(st).extras + xs;
    }
  }

  lemma ExtraReads(st: State, x: ExtraSection)
    requires KeptOk(x, IsTop) && x.heading != ""
    ensures Flush(Fold(Line, st, ExtraLines(x))) == Flush(st).(extras := Flush(st).extras + [x], place := Outside)
  {
    hide Field, Prose, Block, AllPlain, PlaceOf, Line, Collected;
    BlockCollected(x.body, IsTop);
    SectionReads(st, x.heading);
    var st1 := Flush(st).(place := InExtra(x.heading, []));
    assert PlaceOf(x.heading) == InExtra(x.heading, []) by { KeptPlace(x.heading); }
    ProseReads(st1, Block(x.body));
    assert [] + Block(x.body) == Block(x.body);
    FoldAppend(Line, st, ["", SECTION + x.heading], Block(x.body));
  }

  lemma KeptPlace(h: string)
    requires PlaceOf(h).InExtra?
    ensures PlaceOf(h) == InExtra(h, [])
  {
  }

  lemma TitleReads(t: string)
    requires Field(t)
    ensures Line(START, TITLE + t) == START.(title := t)
  {
    hide ClassifyTop, Field;
    if t == "" {
      ReadNoTitle();
      assert TITLE + t == TITLE;
    } else {
      ReadTitle(t);
    }
  }

  /** The fold over the printed lines of a canonical design rebuilds exactly its parts. */
  lemma LinesRead(d: Design)
    requires Canonical(d)
    ensures Finish(Fold(Line, START, Lines(d) + [""])) == d
  {
    hide Field, Prose, KeptOk, Line, Flat, Titled, Headed, Flush, Block, PlaceOf, Collected, ChangeOk, DecisionOk;
    var title, t, ds := [TITLE + d.title], Titled(TECHNICAL, d.technical), Headed(DECISIONS, d.decisions != [], Flat(DecisionLines, d.decisions));
    var df, fs := Titled(DATA_FLOW, d.dataFlow), Headed(FILE_CHANGES, d.fileChanges != [], Flat(ChangeEntry, d.fileChanges));
    var xs := Flat(ExtraLines, d.extras);
    TitleReads(d.title);
    FoldOne(Line, START, TITLE + d.title);
    var st1 := START.(title := d.title);
    FlushIdle(st1);
    TechnicalName();
    DataFlowName();
    TitledReads(st1, TECHNICAL, d.technical);
    var st2 := Fold(Line, st1, t);
    DecisionSectionReads(st2, d.decisions);
    var st3 := Fold(Line, st2, ds);
    TitledReads(st3, DATA_FLOW, d.dataFlow);
    var st4 := Fold(Line, st3, df);
    ChangeSectionReads(st4, d.fileChanges);
    var st5 := Fold(Line, st4, fs);
    ExtrasRead(st5, d.extras);
    var st6 := Fold(Line, st5, xs);
    FoldAppend(Line, START, title, t);
    FoldAppend(Line, START, title + t, ds);
    FoldAppend(Line, START, title + t + ds, df);
    FoldAppend(Line, START, title + t + ds + df, fs);
    FoldAppend(Line, START, title + t + ds + df + fs, xs);
    FoldAppend(Line, START, Lines(d), [""]);
    FoldOne(Line, st6, "");
    BlankReads(st6);
    BlockCollected(d.technical, IsTop);
    BlockCollected(d.dataFlow, IsTop);
    FlushKeeps(st6);
    assert [] + Block(d.technical) == Block(d.technical) && [] + Block(d.dataFlow) == Block(d.dataFlow);
    assert [] + d.decisions == d.decisions && [] + d.fileChanges == d.fileChanges && [] + d.extras == d.extras;
  }

  lemma FlushIdle(st: State)
    ensures !st.place.InExtra? && !st.place.InDecision? ==> Flush(st) == st
  {
  }

  lemma FlushKeeps(st: State)
    ensures Flush(st) == st.(extras := Flush(st).extras, decisions := Flush(st).decisions, place := Flush(st).place)
  {
  }

  // ---------------------------------------------------------------------------------------
  // Round trips
  // ---------------------------------------------------------------------------------------

  lemma TidyDecision(d: Decision, inner: string -> bool)
    requires DecisionOk(d, inner)
    ensures Tidy(DecisionLines(d))
  {
    hide Prose, Block, TidyLine, Field;
    DecisionHeadTidy(d.name);
    EmptyTidy();
    assert Tidy(["", DECISION + " " + d.name]);
    TidyBlock(d.body, inner);
    TidyAppend(["", DECISION + " " + d.name], Block(d.body));
  }

  lemma DecisionHeadTidy(n: string)
    requires Field(n)
    ensures TidyLine(DECISION + " " + n)
  {
    hide TrimRight, TrimSpace;
    var l := DECISION + " " + n;
    assert OneLine(DECISION + " ");
    assert OneLine(l);
    ReadNamed(DECISION, n);
    assert TrimRight(l)[2] == DECISION[2] == '#';
  }

  lemma TidyHeaded(heading: string, present: bool, ls: seq<string>)
    requires Field(heading) && heading != "" && Tidy(ls)
    ensures Tidy(Headed(heading, present, ls))
  {
    hide TidyLine;
    TidyHeading(heading);
    TidyAppend(["", SECTION + heading], ls);
  }

  lemma TidyLists(d: Design, top: string -> bool, inner: string -> bool)
    requires DesignOk(d, top, inner)
    ensures Tidy(Flat(DecisionLines, d.decisions)) && Tidy(Flat(ChangeEntry, d.fileChanges)) && Tidy(Flat(ExtraLines, d.extras))
  {
    hide TidyLine, Field, Prose, ChangeBody, PlaceOf;
    forall c | c in d.decisions ensures Tidy(DecisionLines(c)) {
      assert DecisionOk(c, inner);
      TidyDecision(c, inner);
    }
    TidyFlat(DecisionLines, d.decisions);
    forall f | f in d.fileChanges ensures Tidy(ChangeEntry(f)) {
      ChangeBodyField(f);
      TidyBullet(ChangeBody(f));
    }
    TidyFlat(ChangeEntry, d.fileChanges);
    TidyExtras(d.extras, top);
  }

  lemma TidyLines(d: Design, top: string -> bool, inner: string -> bool)
    requires DesignOk(d, top, inner)
    ensures Tidy(Lines(d))
  {
    hide Tidy, Prose, Titled, Headed, Flat, Field, PlaceOf, DecisionOk, ChangeOk, KeptOk;
    var title, t, ds := [TITLE + d.title], Titled(TECHNICAL, d.technical), Headed(DECISIONS, d.decisions != [], Flat(DecisionLines, d.decisions));
    var df, fs := Titled(DATA_FLOW, d.dataFlow), Headed(FILE_CHANGES, d.fileChanges != [], Flat(ChangeEntry, d.fileChanges));
    TechnicalName();
    DecisionsName();
    DataFlowName();
    FileChangesName();
    TidyTitle(d.title);
    TidyTitled(TECHNICAL, d.technical, top);
    TidyTitled(DATA_FLOW, d.dataFlow, top);
    TidyLists(d, top, inner);
    TidyHeaded(DECISIONS, d.decisions != [], Flat(DecisionLines, d.decisions));
    TidyHeaded(FILE_CHANGES, d.fileChanges != [], Flat(ChangeEntry, d.fileChanges));
    TidyAppend(title, t);
    TidyAppend(title + t, ds);
    TidyAppend(title + t + ds, df);
    TidyAppend(title + t + ds + df, fs);
    TidyAppend(title + t + ds + df + fs, Flat(ExtraLines, d.extras));
  }

  /** Printing a canonical design and parsing the text gives the design back. */
  lemma DesignRoundTrip(d: Design)
    requires Canonical(d)
    ensures Parse(Print(d)) == d
  {
    hide DesignOk, Lines, Finish, Line, Unlines, Split;
    TidyLines(d, IsTop, IsInner);
    TidySplits(Lines(d));
    LinesRead(d);
  }

  predicate IsDecision(l: string) {
    DECISION <= l
  }

  /** A text the parser takes literally: no indented heading or decision, no section heading of white space only. */
  ghost predicate CleanText(text: string) {
    forall l | l in Split(text) :: !Indented(l, IsTop) && !Indented(l, IsDecision) && !Hollow(l)
  }

  lemma CleanTextIsCanonical(text: string)
    requires CleanText(text)
    ensures Canonical(Parse(text))
  {
    hide ClassifyTop, Parse, DesignOk, IsTop, Split, Hollow, TrimRight, TrimSpace;
    SplitPieces(text);
    forall l | l in Split(text) ensures Allows(l, IsTop, IsInner) {
      forall t | ClassifyTop(l) == Other(t) ensures !IsTop(t) && (!(DECISION <= TrimRight(l)) ==> !IsInner(t)) {
        ClassifyYields(l);
        OtherIs(l);
      }
    }
    ParseOk(text, IsTop, IsInner);
  }

  lemma OtherIs(raw: string)
    ensures ClassifyTop(raw).Other? ==> ClassifyTop(raw).text == TrimSpace(TrimRight(raw))
  {
  }

  lemma FlushNoDecision(raw: string)
    requires FlushLeft(raw)
    ensures !Indented(raw, IsDecision)
  {
    hide TrimSpace, TrimRight;
    FlushTrims(raw);
  }

  /**
  Semantic stability, exactly: re-parsing the printed parse gives the same design if and only if no kept prose line
  reads as a heading where it stands and no kept section is nameless.
  */
  lemma StableIffCanonical(text: string)
    ensures Parse(Print(Parse(text))) == Parse(text) <==> Canonical(Parse(text))
  {
    hide Parse, Lines, DesignOk, Split, Unlines, Hollow, Indented, ClassifyTop, FlushLeft;
    var d := Parse(text);
    assert DesignOk(d, Never, Never) by {
      forall l | l in Split(text) ensures Allows(l, Never, Never) {}
      ParseOk(text, Never, Never);
    }
    TidyLines(d, Never, Never);
    TidySplits(Lines(d));
    forall l | l in Split(Print(d)) ensures !Indented(l, IsDecision) {
      FlushNoDecision(l);
    }
    CleanTextIsCanonical(Print(d));
    if Canonical(d) {
      DesignRoundTrip(d);
    }
  }

  /**
  The round trip, exactly: a design, wherever it comes from, is read back from its printed text if and only if its
  fields are trimmed single lines, its blocks are proper prose without headings where they stand, its file changes are
  well formed, and every kept section is named, and not like a modeled one.
  */
  lemma RoundTripIffCanonical(d: Design)
    ensures Parse(Print(d)) == d <==> Canonical(d)
  {
    hide Parse, Print, Canonical;
    if Canonical(d) {
      DesignRoundTrip(d);
    }
    StableIffCanonical(Print(d));
  }

  /** The line is a heading of a decision, read as such. */
  predicate OpensDecision(st: State, raw: string) {
    AmongDecisions(st.place) && DECISION <= TrimRight(raw)
  }

  /** What a kept text line must not look like where it stands. */
  predicate Misread(st: State, t: string) {
    if st.place.InDecision? then IsInner(t)
    else (st.place.InTechnical? || st.place.InDataFlow? || st.place.InExtra?) && IsTop(t)
  }

  /** The line opens no nameless section and leaves no heading in kept prose. */
  predicate Fine(st: State, raw: string) {
    OpensDecision(st, raw) || (!Hollow(raw) && (ClassifyTop(raw).Other? ==> !Misread(st, ClassifyTop(raw).text)))
  }

  /** No line is a nameless heading, and none hides a heading at a place where the parser keeps prose. */
  ghost predicate Literal(text: string) {
    var ls := Split(text);
    forall i | 0 <= i < |ls| :: Fine(Fold(Line, START, ls[..i]), ls[i])
  }

  ghost predicate Clean(st: State) {
    StateOk(st, IsTop, IsInner) && Named(st)
  }

  lemma FlushIff(st: State)
    requires StateOk(st, Never, Never)
    ensures Clean(Flush(st)) <==> Clean(st)
    ensures !Flush(st).place.InExtra? && !Flush(st).place.InDecision?
    ensures Flush(st) == st.(extras := Flush(st).extras, decisions := Flush(st).decisions, place := Flush(st).place)
  {
    hide Field, AllPlain, ChangeOk, Collected, Prose, PlaceOf, IsTop, IsInner;
    if st.place.InExtra? {
      CollectedIff(st.place.lines, Never, IsTop);
      var x := ExtraSection(st.place.heading, Collected(st.place.lines));
      assert forall y | y in st.extras :: y in st.extras + [x];
      assert x in st.extras + [x];
    } else if st.place.InDecision? {
      CollectedIff(st.place.body, Never, IsInner);
      var x := Decision(st.place.name, Collected(st.place.body));
      assert forall y | y in st.decisions :: y in st.decisions + [x];
      assert x in st.decisions + [x];
    }
  }

  lemma TakeLineIff(st: State, t: string)
    requires StateOk(st, Never, Never) && t != "" && Field(t)
    ensures Clean(TakeLine(st, t)) <==> Clean(st) && !Misread(st, t)
  {
    hide Field, AllPlain, KeptOk, DecisionOk, ParseFileChange, ChangeOk, PlaceOf, IsTop, IsInner;
    AppendIff(st.technical, t, IsTop);
    AppendIff(st.dataFlow, t, IsTop);
    if st.place.InExtra? { AppendIff(st.place.lines, t, IsTop); }
    if st.place.InDecision? { AppendIff(st.place.body, t, IsInner); }
    ParseChangeOk(t);
  }

  lemma DecisionNamed(raw: string)
    requires OneLine(raw) && DECISION <= TrimRight(raw)
    ensures Field(After(TrimRight(raw), DECISION))
  {
    hide TrimRight, TrimSpace, Trimmed, OneLine;
    var line := TrimRight(raw);
    TrimRightOneLine(raw);
    SuffixOneLine(line, |DECISION|);
    TrimSpaceTrims(line[|DECISION|..]);
  }

  /** One line keeps the state clean exactly if it was clean and the line is fine where it stands. */
  lemma LineIff(st: State, raw: string)
    requires StateOk(st, Never, Never) && OneLine(raw)
    ensures Clean(Line(st, raw)) <==> Clean(st) && Fine(st, raw)
  {
    hide Trimmed, OneLine, AllPlain, KeptOk, DecisionOk, ChangeOk, ClassifyTop, Flush, TakeLine, IsTop, IsInner, Lower, TrimRight, TrimSpace, Misread;
    FlushIff(st);
    NothingPlain(IsTop);
    NothingPlain(IsInner);
    if OpensDecision(st, raw) {
      DecisionNamed(raw);
    } else {
      ClassifyYields(raw);
      match ClassifyTop(raw)
      case Other(t) => TakeLineIff(st, t);
      case _ =>
    }
  }

  lemma {:induction false} FoldIff(ls: seq<string>, n: nat)
    requires n <= |ls| && forall l | l in ls :: OneLine(l)
    ensures StateOk(Fold(Line, START, ls[..n]), Never, Never)
    ensures Clean(Fold(Line, START, ls[..n])) <==> forall i | 0 <= i < n :: Fine(Fold(Line, START, ls[..i]), ls[i])
    decreases n
  {
    hide StateOk, OneLine, Line, Fine, Named, ClassifyTop, TrimRight;
    if n == 0 {
      StartOk(Never, Never);
      StartOk(IsTop, IsInner);
    } else {
      FoldIff(ls, n - 1);
      FoldSnoc(Line, START, ls, n - 1);
      var st := Fold(Line, START, ls[..n - 1]);
      assert ls[n - 1] in ls;
      LineOk(st, ls[n - 1], Never, Never);
      LineIff(st, ls[n - 1]);
    }
  }

  lemma FinishIff(st: State)
    requires StateOk(st, Never, Never)
    ensures Canonical(Finish(st)) <==> Clean(st)
  {
    hide Field, AllPlain, KeptOk, DecisionOk, Flush, Collected, Prose, ChangeOk, IsTop, IsInner, PlaceOf;
    FlushIff(st);
    CollectedIff(st.technical, Never, IsTop);
    CollectedIff(st.dataFlow, Never, IsTop);
  }

  /** The exact condition on the text: parse, print, parse is parse if and only if every line is fine where it stands. */
  lemma StableIffLiteral(text: string)
    ensures Parse(Print(Parse(text))) == Parse(text) <==> Literal(text)
  {
    hide Canonical, Print, StateOk, Clean, Finish, Fine, Split, Line;
    var ls := Split(text);
    SplitPieces(text);
    FoldIff(ls, |ls|);
    assert ls[..|ls|] == ls;
    FinishIff(Fold(Line, START, ls));
    StableIffCanonical(text);
  }

  lemma SemanticStability(text: string)
    requires CleanText(text)
    ensures Parse(Print(Parse(text))) == Parse(text)
  {
    hide Parse, Print, DesignOk, CleanText, Canonical;
    CleanTextIsCanonical(text);
    StableIffCanonical(text);
  }

  /** The promise fails on a section headed by a no-break space: the parser keeps it and the printer drops it. */
  lemma HollowSectionIsLost()
    ensures var text := "## \U{A0}";
            Parse(text).extras == [ExtraSection("", "")] && Parse(Print(Parse(text))) != Parse(text)
  {
    hide ClassifyTop, Split, PlaceOf, Print, DesignOk, Collected;
    var text := "## \U{A0}";
    SplitHollow();
    HollowReads();
    EmptyCollected();
    assert PlaceOf("") == InExtra("", []) by { NoPlace(); }
    FoldOne(Line, START, text);
    assert Parse(text).extras[0].heading == "";
    StableIffCanonical(text);
  }

  lemma SplitHollow()
    ensures Split("## \U{A0}") == ["## \U{A0}"]
  {
    SplitOne("## \U{A0}");
  }

  lemma NoPlace()
    ensures PlaceOf("") == InExtra("", [])
  {
    assert |Lower("")| == 0;
  }

  // ---------------------------------------------------------------------------------------
  // The loops of the code
  // ---------------------------------------------------------------------------------------

  datatype Section = NoSection | Technical | Decisions | DataFlow | FileChanges

  function SectionOf(heading: string): Section {
    match PlaceOf(heading)
    case InTechnical => Technical
    case InDecisions => Decisions
    case InDataFlow => DataFlow
    case InFileChanges => FileChanges
    case _ => NoSection
  }

  ghost function PlaceNow(section: Section, dec: Option<string>, body: seq<string>, extra: Option<string>, kept: seq<string>): Place {
    match section
    case Technical => InTechnical
    case DataFlow => InDataFlow
    case FileChanges => InFileChanges
    case Decisions => if dec.Some? then InDecision(dec.value, body) else InDecisions
    case NoSection => if extra.Some? then InExtra(extra.value, kept) else Outside
  }

  /** Closes the open decision and the open extra section, if any. */
  method FlushBoth(d: Design, dec: Option<string>, body: seq<string>, extra: Option<string>, kept: seq<string>) returns (out: Design)
    ensures out == d.(decisions := d.decisions + (if dec.Some? then [Decision(dec.value, Collected(body))] else []),
                      extras := d.extras + (if extra.Some? then [ExtraSection(extra.value, Collected(kept))] else []))
  {
    hide Collected;
    out := d;
    assert d.decisions + [] == d.decisions && d.extras + [] == d.extras;
    if dec.Some? {
      out := out.(decisions := out.decisions + [Decision(dec.value, Collected(body))]);
    }
    if extra.Some? {
      out := out.(extras := out.extras + [ExtraSection(extra.value, Collected(kept))]);
    }
  }

  /** A line of prose goes to the list that the section collects. */
  method TakeProse(d: Design, section: Section, dec: Option<string>, body: seq<string>, extra: Option<string>, kept: seq<string>,
                   technical: seq<string>, dataFlow: seq<string>, t: string)
    returns (d': Design, body': seq<string>, technical': seq<string>, dataFlow': seq<string>, kept': seq<string>)
    requires (section != NoSection ==> extra.None?) && (section != Decisions ==> dec.None?)
    ensures State(d'.title, PlaceNow(section, dec, body', extra, kept'), technical', d'.decisions, dataFlow', d'.fileChanges, d'.extras) ==
            TakeLine(State(d.title, PlaceNow(section, dec, body, extra, kept), technical, d.decisions, dataFlow, d.fileChanges, d.extras), t)
  {
    hide ParseFileChange;
    d', body', technical', dataFlow', kept' := d, body, technical, dataFlow, kept;
    match section {
      case Technical => technical' := technical + [t];
      case DataFlow => dataFlow' := dataFlow + [t];
      case Decisions =>
        if dec.Some? {
          body' := body + [t];
        }
      case FileChanges =>
        var fc := ParseFileChange(t);
        if fc.Some? {
          d' := d.(fileChanges := d.fileChanges + [fc.value]);
        }
      case NoSection =>
        if extra.Some? {
          kept' := kept + [t];
        }
    }
  }

  /** The line loop of the design parser, with its section, open decision and open extra section. */
  method ParseDesign(text: string) returns (d: Design)
    ensures d == Parse(text)
  {
    hide ClassifyTop, Collected, Split, Lower, TakeLine, TrimRight, TrimSpace;
    var lines := Split(text);
    d := Design("", "", [], "", [], []);
    var section, dec: Option<string>, extra: Option<string> := NoSection, None, None;
    var body: seq<string>, kept: seq<string>, technical: seq<string>, dataFlow: seq<string> := [], [], [], [];
    var i := 0;
    while i < |lines|
      invariant 0 <= i <= |lines|
      invariant (section != NoSection ==> extra.None?) && (section != Decisions ==> dec.None?)
      invariant Fold(Line, START, lines[..i]) ==
                State(d.title, PlaceNow(section, dec, body, extra, kept), technical, d.decisions, dataFlow, d.fileChanges, d.extras)
    {
      FoldSnoc(Line, START, lines, i);
      var line := TrimRight(lines[i]);
      if section == Decisions && DECISION <= line {
        d := FlushBoth(d, dec, body, None, []);
        dec, body := Some(After(line, DECISION)), [];
      } else {
        match ClassifyTop(lines[i]) {
          case SectionHead(heading) =>
            d := FlushBoth(d, dec, body, extra, kept);
            section, dec, body := SectionOf(heading), None, [];
            extra, kept := if section == NoSection then Some(heading) else None, [];
          case TitleHead(t) =>
            d := d.(title := t);
          case Other(t) =>
            d, body, technical, dataFlow, kept := TakeProse(d, section, dec, body, extra, kept, technical, dataFlow, t);
          case _ =>
        }
      }
      i := i + 1;
    }
    assert lines[..i] == lines;
    d := FlushBoth(d, dec, body, extra, kept);
    d := d.(technical := Collected(technical), dataFlow := Collected(dataFlow));
  }

  method RenderDecisions(b: string, ds: seq<Decision>) returns (out: string)
    ensures out == b + Unlines(Headed(DECISIONS, ds != [], Flat(DecisionLines, ds)))
  {
    hide Unlines, Flat, DecisionLines;
    UnlinesNothing();
    if |ds| == 0 {
      return b;
    }
    ghost var head := ["", SECTION + DECISIONS];
    WriteSection(b, [], DECISIONS);
    assert [] + head == head;
    out := b + "\n" + (SECTION + DECISIONS) + "\n";
    NoItems(head, DecisionLines, ds);
    var i := 0;
    while i < |ds|
      invariant 0 <= i <= |ds|
      invariant out == b + Unlines(head + Flat(DecisionLines, ds[..i]))
    {
      WriteItem(b, head, DecisionLines, ds, i);
      out := RenderDecision(out, ds[i]);
      i := i + 1;
    }
    assert ds[..i] == ds;
  }

  method RenderDecision(b: string, d: Decision) returns (out: string)
    ensures out == b + Unlines(DecisionLines(d))
  {
    hide Unlines, Block;
    ghost var head := ["", DECISION + " " + d.name];
    UnlinesNothing();
    WriteHead(b, [], DECISION, d.name);
    assert [] + head == head;
    out := b + "\n" + (DECISION + " " + d.name) + "\n";
    WriteBlock(b, head, d.body);
    if d.body != "" {
      out := out + (d.body + "\n");
    }
  }

  method RenderFileChanges(b: string, fs: seq<FileChange>) returns (out: string)
    ensures out == b + Unlines(Headed(FILE_CHANGES, fs != [], Flat(ChangeEntry, fs)))
  {
    hide Unlines, Flat, ChangeLine;
    UnlinesNothing();
    if |fs| == 0 {
      return b;
    }
    ghost var head := ["", SECTION + FILE_CHANGES];
    WriteSection(b, [], FILE_CHANGES);
    assert [] + head == head;
    out := b + "\n" + (SECTION + FILE_CHANGES) + "\n";
    NoItems(head, ChangeEntry, fs);
    var i := 0;
    while i < |fs|
      invariant 0 <= i <= |fs|
      invariant out == b + Unlines(head + Flat(ChangeEntry, fs[..i]))
    {
      WriteItem(b, head, ChangeEntry, fs, i);
      UnlinesOne(ChangeLine(fs[i]));
      out := out + (ChangeLine(fs[i]) + "\n");
      i := i + 1;
    }
    assert fs[..i] == fs;
  }

  method RenderDesign(d: Design) returns (b: string)
    ensures b == Print(d)
  {
    hide Unlines, Titled, Headed, Flat;
    var title := TITLE + d.title;
    UnlinesOne(title);
    ghost var t, ds := Titled(TECHNICAL, d.technical), Headed(DECISIONS, d.decisions != [], Flat(DecisionLines, d.decisions));
    ghost var df, fs := Titled(DATA_FLOW, d.dataFlow), Headed(FILE_CHANGES, d.fileChanges != [], Flat(ChangeEntry, d.fileChanges));
    b := title + "\n";
    b := RenderTitled(b, TECHNICAL, d.technical);
    UnlinesAppend([title], t);
    b := RenderDecisions(b, d.decisions);
    UnlinesAppend([title] + t, ds);
    b := RenderTitled(b, DATA_FLOW, d.dataFlow);
    UnlinesAppend([title] + t + ds, df);
    b := RenderFileChanges(b, d.fileChanges);
    UnlinesAppend([title] + t + ds + df, fs);
    b := RenderExtras(b, d.extras);
    UnlinesAppend([title] + t + ds + df + fs, Flat(ExtraLines, d.extras));
  }
}

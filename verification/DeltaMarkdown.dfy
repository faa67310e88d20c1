module DeltaMarkdown {
  // Change deltas: ADDED, MODIFIED and REMOVED requirements with their annotations, parsed, printed and round-tripped.

  import opened Text
  import opened OpenSpec
  import opened Markdown
  import opened RequirementBlock

  datatype Section = Nowhere | InAdded | InModified | InRemoved

  // ---------------------------------------------------------------------------------------
  // Annotations
  // ---------------------------------------------------------------------------------------

  const PREVIOUSLY := "(Previously:"
  const RATIONALE := "(Rationale:"

  function TrimClose(s: string): string {
    if s != "" && s[|s| - 1] == ')' then s[..|s| - 1] else s
  }

  /** A "(Label: value)" line, label in any letter case, closing parenthesis optional. */
  function Annotation(t: string, lead: string): Option<string> {
    if |t| < |lead| || Lower(t[..|lead|]) != Lower(lead) then None
    else Some(TrimSpace(TrimClose(TrimSpace(t[|lead|..]))))
  }

  predicate Noted(t: string) {
    Annotation(t, PREVIOUSLY).Some? || Annotation(t, RATIONALE).Some?
  }

  /** Lines that do not stay in a statement: headings and annotations. */
  predicate Taken(t: string) {
    IsHeading(t) || Noted(t)
  }

  /** The value is recovered exactly, whatever parentheses it contains or ends in. */
  lemma AnnotationRoundTrip(lead: string, v: string)
    requires Field(v) && v != ""
    ensures Annotation(lead + " " + v + ")", lead) == Some(v)
  {
    hide TrimSpace, IsSpace, Lower;
    var t := lead + " " + v + ")";
    assert t[..|lead|] == lead;
    var u := v + ")";
    assert t[|lead|..] == " " + u;
    assert Trimmed(u) by { VisibleClose(v); }
    TrimSpaceAfterSpace(u);
    assert TrimClose(u) == v;
    TrimmedStays(v);
  }

  lemma VisibleClose(v: string)
    requires Trimmed(v) && v != ""
    ensures Trimmed(v + ")")
  {
  }

  lemma AnnotationYields(t: string, lead: string)
    requires OneLine(t)
    ensures Annotation(t, lead).Some? ==> Field(Annotation(t, lead).value)
  {
    hide TrimSpace, Lower, Trimmed;
    if |t| >= |lead| {
      TrimSpaceTrims(t[|lead|..]);
      TrimSpaceTrims(TrimClose(TrimSpace(t[|lead|..])));
    }
  }

  lemma NotNoted(t: string)
    requires t != "" && t[0] != '('
    ensures !Noted(t)
  {
    hide Lower;
    if |t| >= |PREVIOUSLY| {
      assert Lower(t[..|PREVIOUSLY|])[0] == LowerChar(t[0]);
      assert Lower(PREVIOUSLY)[0] == '(';
    }
    if |t| >= |RATIONALE| {
      assert Lower(t[..|RATIONALE|])[0] == LowerChar(t[0]);
      assert Lower(RATIONALE)[0] == '(';
    }
  }

  /** The two labels are told apart. */
  lemma LabelsDiffer(t: string)
    ensures RATIONALE <= t ==> Annotation(t, PREVIOUSLY).None?
  {
    hide Lower, TrimSpace;
    if RATIONALE <= t && |t| >= |PREVIOUSLY| {
      assert t[1] == RATIONALE[1] == 'R';
      assert Lower(t[..|PREVIOUSLY|])[1] == 'r';
      assert Lower(PREVIOUSLY)[1] == 'p';
    }
  }

  // ---------------------------------------------------------------------------------------
  // Parsing
  // ---------------------------------------------------------------------------------------

  datatype Draft = Draft(open: Open, previously: string, rationale: string)

  datatype State = State(title: string, section: Section, added: seq<Requirement>, modified: seq<Modified>,
                         removed: seq<Removed>, current: Option<Draft>, warnings: seq<Warning>)

  const START := State("", Nowhere, [], [], [], None, [])

  /** A heading names a section by its beginning, in any letter case. */
  function SectionOf(heading: string): Section {
    var h := Upper(heading);
    if "ADDED" <= h then InAdded
    else if "MODIFIED" <= h then InModified
    else if "REMOVED" <= h then InRemoved
    else Nowhere
  }

  function Flush(st: State): State {
    match st.current
    case None => st
    case Some(d) =>
      var r, s := Close(d.open), st.(current := None);
      match st.section
      case InAdded => s.(added := s.added + [r])
      case InModified => s.(modified := s.modified + [Modified(r, d.previously)])
      case InRemoved =>
        s.(removed := s.removed + [Removed(r.name, d.rationale)],
           warnings := s.warnings + if r.statement != "" || r.scenarios != [] then [RemovedCarriesContent(r.name)] else [])
      case Nowhere => s.(warnings := s.warnings + [OrphanRequirement(r.name)])
  }

  function TakeNote(d: Draft, t: string): Draft {
    var p, q := Annotation(t, PREVIOUSLY), Annotation(t, RATIONALE);
    if p.Some? then d.(previously := p.value)
    else if q.Some? then d.(rationale := q.value)
    else d.(open := TakeText(d.open, t))
  }

  function DraftStep(d: Draft, raw: string): Draft {
    match Classify(raw)
    case ScenarioHead(n) => d.(open := OpenScenario(d.open, n))
    case Other(t) => TakeNote(d, t)
    case _ => d
  }

  function Line(st: State, raw: string): State {
    match Classify(raw)
    case ScenarioHead(n) =>
      if st.current.Some? then st.(current := Some(DraftStep(st.current.value, raw)))
      else st.(warnings := st.warnings + [EarlyScenario(n)])
    case RequirementHead(n) => Flush(st).(current := Some(Draft(Fresh(n), "", "")))
    case SectionHead(h) => Flush(st).(section := SectionOf(h))
    case TitleHead(t) => st.(title := t)
    case Blank => st
    case Other(t) => if st.current.Some? then st.(current := Some(DraftStep(st.current.value, raw))) else st
  }

  function Finish(st: State): Delta {
    var s := Flush(st);
    Delta("", s.title, s.added, s.modified, s.removed, s.warnings)
  }

  function Parse(text: string): Delta {
    Finish(Fold(Line, START, Split(text)))
  }

  // ---------------------------------------------------------------------------------------
  // Printing
  // ---------------------------------------------------------------------------------------

  function AddedEntry(r: Requirement): seq<string> {
    RequirementLines(r, "", "")
  }

  function ModifiedEntry(m: Modified): seq<string> {
    RequirementLines(m.requirement, m.previously, "")
  }

  function RemovedEntry(r: Removed): seq<string> {
    RequirementLines(Requirement(r.name, "", []), "", r.rationale)
  }

  /** A section heading is printed only when there is something under it. */
  function Under(heading: string, present: bool, ls: seq<string>): seq<string> {
    if present then ["", SECTION + heading] + ls else []
  }

  const ADDED := "ADDED Requirements"
  const MODIFIED := "MODIFIED Requirements"
  const REMOVED := "REMOVED Requirements"

  function Lines(d: Delta): seq<string> {
    [TITLE + d.title] + Under(ADDED, d.added != [], Flat(AddedEntry, d.added)) +
    Under(MODIFIED, d.modified != [], Flat(ModifiedEntry, d.modified)) +
    Under(REMOVED, d.removed != [], Flat(RemovedEntry, d.removed))
  }

  function Print(d: Delta): string {
    Unlines(Lines(d))
  }

  // ---------------------------------------------------------------------------------------
  // Canonical deltas
  // ---------------------------------------------------------------------------------------

  ghost predicate ModifiedOk(m: Modified, taken: string -> bool) {
    RequirementOk(m.requirement, taken) && Field(m.previously)
  }

  ghost predicate RemovedOk(r: Removed) {
    Field(r.name) && Field(r.rationale)
  }

  ghost predicate DeltaOk(d: Delta, taken: string -> bool) {
    && Field(d.title)
    && (forall r | r in d.added :: RequirementOk(r, taken))
    && (forall m | m in d.modified :: ModifiedOk(m, taken))
    && (forall r | r in d.removed :: RemovedOk(r))
  }

  /** What survives printing: no statement line reads as a heading or as an annotation. */
  ghost predicate Canonical(d: Delta) {
    DeltaOk(d, Taken)
  }

  ghost predicate DraftOk(d: Draft, taken: string -> bool) {
    OpenOk(d.open, taken) && Field(d.previously) && Field(d.rationale)
  }

  ghost predicate StateOk(st: State, taken: string -> bool) {
    && Field(st.title)
    && (forall r | r in st.added :: RequirementOk(r, taken))
    && (forall m | m in st.modified :: ModifiedOk(m, taken))
    && (forall r | r in st.removed :: RemovedOk(r))
    && (st.current.Some? ==> DraftOk(st.current.value, taken))
  }

  lemma FlushOk(st: State, taken: string -> bool)
    requires StateOk(st, taken)
    ensures StateOk(Flush(st), taken)
  {
    hide Field, OpenOk, Close, Prose, ScenarioOk;
    if st.current.Some? {
      CloseOk(st.current.value.open, taken);
    }
  }

  lemma DraftStepOk(d: Draft, raw: string, taken: string -> bool)
    requires DraftOk(d, taken) && OneLine(raw)
    requires forall t | Classify(raw) == Other(t) :: taken(t) ==> Noted(t)
    ensures DraftOk(DraftStep(d, raw), taken)
  {
    hide Trimmed, OneLine, OpenOk, Classify, OpenScenario, TakeText, Annotation;
    ClassifyYields(raw);
    match Classify(raw)
    case ScenarioHead(n) => OpenScenarioOk(d.open, n, taken);
    case Other(t) =>
      AnnotationYields(t, PREVIOUSLY);
      AnnotationYields(t, RATIONALE);
      if !Noted(t) { TakeTextOk(d.open, t, taken); }
    case _ =>
  }

  lemma LineOk(st: State, raw: string, taken: string -> bool)
    requires StateOk(st, taken) && OneLine(raw)
    requires forall t | Classify(raw) == Other(t) :: taken(t) ==> Noted(t)
    ensures StateOk(Line(st, raw), taken)
  {
    hide Trimmed, OneLine, DraftOk, RequirementOk, ModifiedOk, RemovedOk, Classify, DraftStep, Flush;
    ClassifyYields(raw);
    FlushOk(st, taken);
    match Classify(raw)
    case RequirementHead(n) => FreshOk(n, taken);
    case _ => if st.current.Some? { DraftStepOk(st.current.value, raw, taken); }
  }

  lemma FreshOk(n: string, taken: string -> bool)
    requires Field(n)
    ensures DraftOk(Draft(Fresh(n), "", ""), taken)
  {
  }

  lemma {:induction false} FoldOk(st: State, ls: seq<string>, taken: string -> bool)
    requires StateOk(st, taken)
    requires forall l | l in ls :: OneLine(l) && forall t | Classify(l) == Other(t) :: taken(t) ==> Noted(t)
    ensures StateOk(Fold(Line, st, ls), taken)
    decreases |ls|
  {
    hide StateOk, OneLine, Classify, Line, Noted;
    if ls != [] {
      assert ls[0] in ls;
      LineOk(st, ls[0], taken);
      FoldOk(Line(st, ls[0]), ls[1..], taken);
    }
  }

  lemma ParseOk(text: string, taken: string -> bool)
    requires forall l | l in Split(text) :: forall t | Classify(l) == Other(t) :: taken(t) ==> Noted(t)
    ensures DeltaOk(Parse(text), taken)
  {
    hide Classify, Field, RequirementOk, ModifiedOk, RemovedOk, Flush, Split, Line, Noted;
    SplitPieces(text);
    StartOk(taken);
    FoldOk(START, Split(text), taken);
    FlushOk(Fold(Line, START, Split(text)), taken);
  }

  lemma StartOk(taken: string -> bool)
    ensures StateOk(START, taken)
  {
  }

  /** Whatever the text, parsing yields trimmed values and statements free of annotations. */
  lemma ParseIsTidy(text: string)
    ensures DeltaOk(Parse(text), Noted)
  {
    hide Noted, Parse;
    ParseOk(text, Noted);
  }

  // ---------------------------------------------------------------------------------------
  // Printed deltas parse back
  // ---------------------------------------------------------------------------------------

  /** Lines inside a requirement block reach only the draft. */
  lemma {:induction false} Inside(st: State, d: Draft, ls: seq<string>)
    requires AllInner(ls) && st.current == Some(d)
    ensures Fold(Line, st, ls) == st.(current := Some(Fold(DraftStep, d, ls)))
    decreases |ls|
  {
    hide Classify, TakeNote, OpenScenario;
    if ls != [] {
      assert ls[0] in ls && Inner(ls[0]);
      var d' := DraftStep(d, ls[0]);
      var st' := Line(st, ls[0]);
      assert st' == st.(current := Some(d'));
      forall l | l in ls[1..] ensures Inner(l) { assert l in ls; }
      Inside(st', d', ls[1..]);
    }
  }

  ghost predicate Unnoted(ls: seq<string>) {
    forall l | l in ls :: forall t | Classify(l) == Other(t) :: !Noted(t)
  }

  /** Lines without annotations reach only the open requirement of the draft. */
  lemma {:induction false} WithoutNotes(d: Draft, ls: seq<string>)
    requires Unnoted(ls)
    ensures Fold(DraftStep, d, ls) == d.(open := Fold(OpenStep, d.open, ls))
    decreases |ls|
  {
    hide Classify, TakeText, OpenScenario, Annotation;
    if ls != [] {
      assert ls[0] in ls;
      var d' := DraftStep(d, ls[0]);
      assert d' == d.(open := OpenStep(d.open, ls[0]));
      forall l | l in ls[1..] ensures l in ls {}
      WithoutNotes(d', ls[1..]);
    }
  }

  lemma NoteReads(d: Draft, lead: string, v: string)
    requires lead == PREVIOUSLY || lead == RATIONALE
    requires Field(v) && v != ""
    ensures var l := lead + " " + v + ")";
            Inner(l) && DraftStep(d, l) == if lead == PREVIOUSLY then d.(previously := v) else d.(rationale := v)
  {
    hide Annotation, Classify, IsHeading;
    var l := lead + " " + v + ")";
    assert l[0] == lead[0] == '(';
    NotAHeading(l);
    assert Field(l) by { NoteField(lead, v); }
    ReadPlain(l);
    AnnotationRoundTrip(lead, v);
    assert lead <= l;
    LabelsDiffer(l);
  }

  lemma NoteField(lead: string, v: string)
    requires lead == PREVIOUSLY || lead == RATIONALE
    requires OneLine(v)
    ensures Field(lead + " " + v + ")")
  {
    var l := lead + " " + v + ")";
    assert l[0] == '(' && l[|l| - 1] == ')';
    assert OneLine(lead);
  }

  lemma NotesRead(d: Draft, previously: string, rationale: string)
    requires Field(previously) && Field(rationale)
    ensures Fold(DraftStep, d, Annotations(previously, rationale)) ==
            d.(previously := if previously == "" then d.previously else previously,
               rationale := if rationale == "" then d.rationale else rationale)
    ensures AllInner(Annotations(previously, rationale))
  {
    hide DraftStep, Inner, Field;
    var a := if previously == "" then [] else ["(Previously: " + previously + ")"];
    var b := if rationale == "" then [] else ["(Rationale: " + rationale + ")"];
    assert Annotations(previously, rationale) == a + b;
    FoldAppend(DraftStep, d, a, b);
    var d' := Fold(DraftStep, d, a);
    if previously != "" {
      NoteReads(d, PREVIOUSLY, previously);
      assert "(Previously: " + previously + ")" == PREVIOUSLY + " " + previously + ")";
      FoldOne(DraftStep, d, a[0]);
    }
    if rationale != "" {
      NoteReads(d', RATIONALE, rationale);
      assert "(Rationale: " + rationale + ")" == RATIONALE + " " + rationale + ")";
      FoldOne(DraftStep, d', b[0]);
    }
  }

  lemma BlockUnnoted(p: string)
    requires Prose(p, Taken)
    ensures Unnoted(Block(p))
    ensures forall l | l in Block(p) :: !IsHeading(l)
  {
    hide IsHeading, Noted, Classify, Field, Split;
    BlockCollected(p, Taken);
    forall l | l in Block(p) ensures Classify(l) == Other(l) && !Taken(l) {
      assert Plain(l, Taken);
      ReadPlain(l);
    }
  }

  lemma {:induction false} StepsUnnoted(steps: seq<Step>)
    requires forall s | s in steps :: StepOk(s)
    ensures Unnoted(StepLines(steps))
  {
    hide StepOk, StepBody, Classify, Noted;
    if steps != [] {
      assert steps[0] in steps;
      StepsUnnoted(steps[1..]);
      StepRoundTrip(steps[0]);
      ReadBullet(StepBody(steps[0]));
      NotNoted(StepLine(steps[0]));
    }
  }

  lemma {:induction false} ScenariosUnnoted(scs: seq<Scenario>)
    requires forall sc | sc in scs :: ScenarioOk(sc)
    ensures Unnoted(ScenariosLines(scs))
  {
    hide StepOk, StepLines, Classify, Noted, Field;
    if scs != [] {
      var sc := scs[0];
      assert sc in scs;
      ScenariosUnnoted(scs[1..]);
      StepsUnnoted(sc.steps);
      ReadBlank();
      ReadScenario(sc.name);
      assert Unnoted(ScenarioLines(sc)) by {
        forall l, t | l in ScenarioLines(sc) && Classify(l) == Other(t) ensures !Noted(t) {
          assert l == "" || l == SCENARIO + " " + sc.name || l in StepLines(sc.steps);
        }
      }
    }
  }

  /** A printed block becomes the current draft with exactly its requirement and annotations. */
  lemma EntryReads(st: State, r: Requirement, previously: string, rationale: string)
    requires RequirementOk(r, Taken) && Field(previously) && Field(rationale)
    ensures var st' := Fold(Line, st, RequirementLines(r, previously, rationale));
            && st' == Flush(st).(current := st'.current) && st'.current.Some?
            && Close(st'.current.value.open) == r
            && st'.current.value.previously == previously && st'.current.value.rationale == rationale
  {
    hide Classify, Block, ScenariosLines, Prose, ScenarioOk, OpenStep, DraftStep, Inner, Trimmed, OneLine, Close, Flush, Annotations, Unnoted;
    var head, body := HeadLines(r.name), Block(r.statement);
    var notes, scs := Annotations(previously, rationale), ScenariosLines(r.scenarios);
    var st0 := Flush(st).(current := Some(Draft(Fresh(r.name), "", "")));
    HeadReads(st, r.name);
    BlockUnnoted(r.statement);
    ScenariosUnnoted(r.scenarios);
    BodyReads(r, Taken);
    BodyWithNotes(Fresh(r.name), body, notes, scs, previously, rationale);
    Inside(st0, Draft(Fresh(r.name), "", ""), body + notes + scs);
    assert RequirementLines(r, previously, rationale) == head + (body + notes + scs);
    FoldAppend(Line, st, head, body + notes + scs);
  }

  lemma BodyWithNotes(o: Open, body: seq<string>, notes: seq<string>, scs: seq<string>, previously: string, rationale: string)
    requires Unnoted(body) && Unnoted(scs) && Field(previously) && Field(rationale)
    requires notes == Annotations(previously, rationale)
    requires AllInner(body + scs)
    ensures Fold(DraftStep, Draft(o, "", ""), body + notes + scs) == Draft(Fold(OpenStep, o, body + scs), previously, rationale)
    ensures AllInner(body + notes + scs)
  {
    hide DraftStep, OpenStep, Inner, Unnoted, Field, Annotations;
    var d := Draft(o, "", "");
    WithoutNotes(d, body);
    var d1 := Draft(Fold(OpenStep, o, body), "", "");
    NotesRead(d1, previously, rationale);
    var d2 := Draft(Fold(OpenStep, o, body), previously, rationale);
    WithoutNotes(d2, scs);
    FoldAppend(DraftStep, d, body, notes);
    FoldAppend(DraftStep, d, body + notes, scs);
    FoldAppend(OpenStep, o, body, scs);
    forall l | l in body + notes + scs ensures Inner(l) {
      assert l in notes || l in body + scs;
    }
  }

  lemma HeadReads(st: State, name: string)
    requires Field(name)
    ensures Fold(Line, st, HeadLines(name)) == Flush(st).(current := Some(Draft(Fresh(name), "", "")))
  {
    hide Classify, Field, Flush;
    ReadBlank();
    ReadRequirement(name);
    assert HeadLines(name) == [""] + [REQUIREMENT + " " + name];
    FoldAppend(Line, st, [""], [REQUIREMENT + " " + name]);
    FoldOne(Line, st, "");
    FoldOne(Line, st, REQUIREMENT + " " + name);
  }

  lemma {:induction false} AddedRead(st: State, rs: seq<Requirement>)
    requires st.section == InAdded && forall r | r in rs :: RequirementOk(r, Taken)
    ensures Flush(Fold(Line, st, Flat(AddedEntry, rs))) == Flush(st).(added := Flush(st).added + rs)
    decreases |rs|
  {
    hide RequirementOk, RequirementLines, Line, Close;
    if rs == [] {
      assert Flush(st).added + rs == Flush(st).added;
    } else {
      assert rs[0] in rs;
      EmptyField();
      EntryReads(st, rs[0], "", "");
      var a := RequirementLines(rs[0], "", "");
      FoldAppend(Line, st, a, Flat(AddedEntry, rs[1..]));
      AddedRead(Fold(Line, st, a), rs[1..]);
      assert Flush(st).added + [rs[0]] + rs[1..] == Flush(st).added + rs;
    }
  }

  lemma {:induction false} ModifiedRead(st: State, ms: seq<Modified>)
    requires st.section == InModified && forall m | m in ms :: ModifiedOk(m, Taken)
    ensures Flush(Fold(Line, st, Flat(ModifiedEntry, ms))) == Flush(st).(modified := Flush(st).modified + ms)
    decreases |ms|
  {
    hide RequirementOk, RequirementLines, Line, Close, Field;
    if ms == [] {
      assert Flush(st).modified + ms == Flush(st).modified;
    } else {
      assert ms[0] in ms;
      EmptyField();
      EntryReads(st, ms[0].requirement, ms[0].previously, "");
      var a := RequirementLines(ms[0].requirement, ms[0].previously, "");
      FoldAppend(Line, st, a, Flat(ModifiedEntry, ms[1..]));
      ModifiedRead(Fold(Line, st, a), ms[1..]);
      assert Flush(st).modified + [ms[0]] + ms[1..] == Flush(st).modified + ms;
    }
  }

  lemma {:induction false} RemovedRead(st: State, rs: seq<Removed>)
    requires st.section == InRemoved && forall r | r in rs :: RemovedOk(r)
    ensures Flush(Fold(Line, st, Flat(RemovedEntry, rs))) == Flush(st).(removed := Flush(st).removed + rs)
    decreases |rs|
  {
    hide RequirementLines, Line, Close, Field;
    if rs == [] {
      assert Flush(st).removed + rs == Flush(st).removed;
    } else {
      assert rs[0] in rs;
      var r := Requirement(rs[0].name, "", []);
      EmptyField();
      BareRequirementOk(r.name);
      EntryReads(st, r, "", rs[0].rationale);
      var a := RequirementLines(r, "", rs[0].rationale);
      FoldAppend(Line, st, a, Flat(RemovedEntry, rs[1..]));
      assert Flush(st).warnings + [] == Flush(st).warnings;
      RemovedRead(Fold(Line, st, a), rs[1..]);
      assert Flush(st).removed + [rs[0]] + rs[1..] == Flush(st).removed + rs;
    }
  }

  lemma EmptyField()
    ensures Field("")
  {
  }

  lemma BareRequirementOk(name: string)
    requires Field(name)
    ensures RequirementOk(Requirement(name, "", []), Taken)
  {
  }

  lemma SectionReads(st: State, name: string)
    requires Field(name) && name != ""
    ensures Fold(Line, st, ["", SECTION + name]) == Flush(st).(section := SectionOf(name))
  {
    hide Classify, Field, SectionOf, Flush;
    ReadBlank();
    ReadSection(name);
    assert ["", SECTION + name] == [""] + [SECTION + name];
    FoldAppend(Line, st, [""], [SECTION + name]);
    FoldOne(Line, st, "");
    FoldOne(Line, st, SECTION + name);
  }

  lemma AddedName()
    ensures SectionOf(ADDED) == InAdded && Field(ADDED)
  {
    hide Upper;
    assert "ADDED" <= Upper(ADDED);
  }

  lemma ModifiedName()
    ensures SectionOf(MODIFIED) == InModified && Field(MODIFIED)
  {
    hide Upper;
    assert Upper(MODIFIED)[0] == 'M';
    assert "MODIFIED" <= Upper(MODIFIED);
  }

  lemma RemovedName()
    ensures SectionOf(REMOVED) == InRemoved && Field(REMOVED)
  {
    hide Upper;
    assert Upper(REMOVED)[0] == 'R';
    assert "REMOVED" <= Upper(REMOVED);
  }

  lemma FlushShape(st: State)
    ensures Flush(st).current.None? && Flush(Flush(st)) == Flush(st)
    ensures Flush(st).section == st.section && Flush(st).title == st.title
    ensures forall sec :: Flush(Flush(st).(section := sec)) == Flush(st).(section := sec)
  {
  }

  lemma AddedSectionReads(st: State, rs: seq<Requirement>)
    requires st.current.None? && forall r | r in rs :: RequirementOk(r, Taken)
    ensures var st' := Flush(Fold(Line, st, Under(ADDED, rs != [], Flat(AddedEntry, rs))));
            st' == st.(added := st.added + rs, section := st'.section)
  {
    hide RequirementOk, Flat, Line, SectionOf, Field, Flush;
    FlushShape(st);
    assert Flush(st) == st by { FlushIdle(st); }
    if rs == [] {
      assert st.added + rs == st.added;
    } else {
      AddedName();
      SectionReads(st, ADDED);
      var st1 := st.(section := InAdded);
      FlushIdle(st1);
      AddedRead(st1, rs);
      FoldAppend(Line, st, ["", SECTION + ADDED], Flat(AddedEntry, rs));
    }
  }

  lemma ModifiedSectionReads(st: State, ms: seq<Modified>)
    requires forall m | m in ms :: ModifiedOk(m, Taken)
    ensures var st' := Flush(Fold(Line, st, Under(MODIFIED, ms != [], Flat(ModifiedEntry, ms))));
            st' == Flush(st).(modified := Flush(st).modified + ms, section := st'.section)
  {
    hide ModifiedOk, Flat, Line, SectionOf, Field, Flush;
    FlushShape(st);
    if ms == [] {
      assert Flush(st).modified + ms == Flush(st).modified;
    } else {
      ModifiedName();
      SectionReads(st, MODIFIED);
      var st1 := Flush(st).(section := InModified);
      FlushIdle(st1);
      ModifiedRead(st1, ms);
      FoldAppend(Line, st, ["", SECTION + MODIFIED], Flat(ModifiedEntry, ms));
    }
  }

  lemma RemovedSectionReads(st: State, rs: seq<Removed>)
    requires forall r | r in rs :: RemovedOk(r)
    ensures var st' := Flush(Fold(Line, st, Under(REMOVED, rs != [], Flat(RemovedEntry, rs))));
            st' == Flush(st).(removed := Flush(st).removed + rs, section := st'.section)
  {
    hide RemovedOk, Flat, Line, SectionOf, Field, Flush;
    FlushShape(st);
    if rs == [] {
      assert Flush(st).removed + rs == Flush(st).removed;
    } else {
      RemovedName();
      SectionReads(st, REMOVED);
      var st1 := Flush(st).(section := InRemoved);
      FlushIdle(st1);
      RemovedRead(st1, rs);
      FoldAppend(Line, st, ["", SECTION + REMOVED], Flat(RemovedEntry, rs));
    }
  }

  lemma FlushIdle(st: State)
    ensures st.current.None? ==> Flush(st) == st
  {
  }

  lemma TitleReads(t: string)
    requires Field(t)
    ensures Line(START, TITLE + t) == START.(title := t)
  {
    hide Classify, Field;
    if t == "" {
      ReadNoTitle();
      assert TITLE + t == TITLE;
    } else {
      ReadTitle(t);
    }
  }

  /** The fold over the printed lines of a canonical delta rebuilds exactly its parts. */
  lemma LinesRead(d: Delta)
    requires Canonical(d)
    ensures Finish(Fold(Line, START, Lines(d) + [""])) == d.(capability := "", warnings := [])
  {
    hide Field, RequirementOk, ModifiedOk, RemovedOk, Line, Flat, Flush, Under;
    var title, a := [TITLE + d.title], Under(ADDED, d.added != [], Flat(AddedEntry, d.added));
    var m, r := Under(MODIFIED, d.modified != [], Flat(ModifiedEntry, d.modified)), Under(REMOVED, d.removed != [], Flat(RemovedEntry, d.removed));
    TitleReads(d.title);
    FoldOne(Line, START, TITLE + d.title);
    var st1 := START.(title := d.title);
    AddedSectionReads(st1, d.added);
    var st2 := Fold(Line, st1, a);
    ModifiedSectionReads(st2, d.modified);
    var st3 := Fold(Line, st2, m);
    RemovedSectionReads(st3, d.removed);
    var st4 := Fold(Line, st3, r);
    FoldAppend(Line, START, title, a);
    FoldAppend(Line, START, title + a, m);
    FoldAppend(Line, START, title + a + m, r);
    FoldAppend(Line, START, Lines(d), [""]);
    FoldOne(Line, st4, "");
    BlankReads(st4);
    assert [] + d.added == d.added && [] + d.modified == d.modified && [] + d.removed == d.removed;
  }

  lemma BlankReads(st: State)
    ensures Line(st, "") == st
  {
    ReadBlank();
  }

  // ---------------------------------------------------------------------------------------
  // Round trips
  // ---------------------------------------------------------------------------------------

  lemma NeatEntry(r: Requirement, previously: string, rationale: string, taken: string -> bool)
    requires RequirementOk(r, taken) && Field(previously) && Field(rationale)
    ensures Neat(RequirementLines(r, previously, rationale))
  {
    hide HeadLines, Block, ScenariosLines, Prose, ScenarioOk, Trimmed, OneLine, FlushLeft;
    NeatHead(r.name);
    NeatBlock(r.statement, taken);
    NeatScenarios(r.scenarios);
    assert Neat(Annotations(previously, rationale)) by { NeatNotes(previously, rationale); }
    NeatAppend(HeadLines(r.name), Block(r.statement));
    NeatAppend(HeadLines(r.name) + Block(r.statement), Annotations(previously, rationale));
    NeatAppend(HeadLines(r.name) + Block(r.statement) + Annotations(previously, rationale), ScenariosLines(r.scenarios));
  }

  lemma NeatNotes(previously: string, rationale: string)
    requires Field(previously) && Field(rationale)
    ensures Neat(Annotations(previously, rationale))
  {
    hide Trimmed, IsSpace;
    forall l | l in Annotations(previously, rationale) ensures OneLine(l) && FlushLeft(l) {
      if l == "(Previously: " + previously + ")" && previously != "" {
        NoteField(PREVIOUSLY, previously);
        assert l == PREVIOUSLY + " " + previously + ")";
      } else {
        NoteField(RATIONALE, rationale);
        assert l == RATIONALE + " " + rationale + ")";
      }
      assert Trimmed(l);
      TrimmedFlush(l);
    }
  }

  lemma TrimmedFlush(l: string)
    requires Trimmed(l)
    ensures FlushLeft(l)
  {
  }

  lemma NeatEntries(d: Delta, taken: string -> bool)
    requires DeltaOk(d, taken)
    ensures Neat(Flat(AddedEntry, d.added)) && Neat(Flat(ModifiedEntry, d.modified)) && Neat(Flat(RemovedEntry, d.removed))
  {
    hide Neat, RequirementLines, Field, RequirementOk;
    EmptyField();
    forall r | r in d.added ensures Neat(AddedEntry(r)) {
      NeatEntry(r, "", "", taken);
    }
    forall m | m in d.modified ensures Neat(ModifiedEntry(m)) {
      assert ModifiedOk(m, taken);
      NeatEntry(m.requirement, m.previously, "", taken);
    }
    forall r | r in d.removed ensures Neat(RemovedEntry(r)) {
      assert RemovedOk(r);
      BareRequirementOk(r.name);
      NeatEntry(Requirement(r.name, "", []), "", r.rationale, Taken);
    }
    NeatFlat(AddedEntry, d.added);
    NeatFlat(ModifiedEntry, d.modified);
    NeatFlat(RemovedEntry, d.removed);
  }

  lemma NeatUnder(heading: string, present: bool, ls: seq<string>)
    requires Neat(ls) && OneLine(heading)
    ensures Neat(Under(heading, present, ls))
  {
    NeatLead(SECTION, heading);
    var h := ["", SECTION + heading];
    assert Neat(h);
    NeatAppend(h, ls);
  }

  lemma NeatLines(d: Delta, taken: string -> bool)
    requires DeltaOk(d, taken)
    ensures Neat(Lines(d))
  {
    hide RequirementOk, ModifiedOk, RemovedOk, Flat, Under, Trimmed;
    NeatLead(TITLE, d.title);
    var title := [TITLE + d.title];
    assert Neat(title);
    var a := Under(ADDED, d.added != [], Flat(AddedEntry, d.added));
    var m, r := Under(MODIFIED, d.modified != [], Flat(ModifiedEntry, d.modified)), Under(REMOVED, d.removed != [], Flat(RemovedEntry, d.removed));
    HeadingsOneLine();
    NeatEntries(d, taken);
    hide Neat;
    NeatUnder(ADDED, d.added != [], Flat(AddedEntry, d.added));
    NeatUnder(MODIFIED, d.modified != [], Flat(ModifiedEntry, d.modified));
    NeatUnder(REMOVED, d.removed != [], Flat(RemovedEntry, d.removed));
    NeatAppend(title, a);
    NeatAppend(title + a, m);
    NeatAppend(title + a + m, r);
  }

  lemma HeadingsOneLine()
    ensures OneLine(ADDED) && OneLine(MODIFIED) && OneLine(REMOVED)
  {
  }

  lemma PrintSplits(d: Delta, taken: string -> bool)
    requires DeltaOk(d, taken)
    ensures Split(Print(d)) == Lines(d) + [""]
    ensures Neat(Lines(d))
  {
    hide DeltaOk, Lines, Unlines, Split;
    NeatLines(d, taken);
    SplitUnlines(Lines(d));
  }

  /** Printing a canonical delta and parsing the text gives the delta back, annotations included. */
  lemma DeltaRoundTrip(d: Delta)
    requires Canonical(d)
    ensures Parse(Print(d)) == d.(capability := "", warnings := [])
  {
    hide DeltaOk, Lines, Print, Finish, Line;
    PrintSplits(d, Taken);
    LinesRead(d);
  }

  /** Texts in which no indented line hides a heading parse to canonical deltas, sections in any order. */
  lemma CleanTextIsCanonical(text: string)
    requires forall l | l in Split(text) :: !Indented(l, IsHeading)
    ensures Canonical(Parse(text))
  {
    hide Classify, Parse, DeltaOk, IsHeading, Indented, Split, Noted;
    SplitPieces(text);
    forall l, t | l in Split(text) && Classify(l) == Other(t) ensures Taken(t) ==> Noted(t) {
      ClassifyYields(l);
    }
    ParseOk(text, Taken);
  }

  lemma ReparseIsCanonical(d: Delta)
    requires DeltaOk(d, Noted)
    ensures Canonical(Parse(Print(d)))
  {
    hide Classify, Parse, DeltaOk, IsHeading, Indented, Split, Lines, Print;
    PrintSplits(d, Noted);
    forall l | l in Split(Print(d)) ensures !Indented(l, IsHeading) {
      assert FlushLeft(l);
      FlushNotIndented(l);
    }
    CleanTextIsCanonical(Print(d));
  }

  /**
  Semantic stability, exactly: re-parsing the printed parse gives the same delta, up to warnings, if and only if
  no line of a parsed statement reads as a heading.
  */
  lemma StableIffNoHeadingInProse(text: string)
    ensures Parse(Print(Parse(text))) == Parse(text).(warnings := []) <==> DeltaOk(Parse(text), Taken)
  {
    hide DeltaOk, Print;
    var d := Parse(text);
    assert d.capability == "";
    ParseIsTidy(text);
    ReparseIsCanonical(d);
    if Canonical(d) {
      DeltaRoundTrip(d);
    } else if Parse(Print(d)) == d.(warnings := []) {
      WarningsAside(Parse(Print(d)), d);
    }
  }

  lemma WarningsAside(a: Delta, b: Delta)
    requires a == b.(warnings := []) && Canonical(a)
    ensures Canonical(b)
  {
  }

  /**
  The round trip, exactly: a delta, wherever it comes from, is read back from its printed text if and only if its fields
  are trimmed single lines, its blocks are proper prose, and no statement line reads as a heading or an annotation.
  */
  lemma RoundTripIffCanonical(d: Delta)
    ensures Parse(Print(d)) == d.(capability := "", warnings := []) <==> Canonical(d)
  {
    hide DeltaOk, Unlines, Finish;
    var bare := d.(capability := "", warnings := []);
    if Canonical(d) {
      DeltaRoundTrip(d);
    } else if Parse(Print(d)) == bare {
      assert Print(bare) == Print(d);
      StableIffNoHeadingInProse(Print(d));
      OtherFieldsAside(d);
    }
  }

  lemma OtherFieldsAside(d: Delta)
    ensures Canonical(d.(capability := "", warnings := [])) <==> Canonical(d)
  {
  }

  /** Statements are kept for added and modified requirements only. */
  predicate Counts(s: Section) {
    s == InAdded || s == InModified
  }

  /** Where the parser keeps a text line as prose: in a statement that counts, before the first scenario. */
  predicate Keeps(st: State, t: string) {
    st.current.Some? && Counts(st.section) && st.current.value.open.scenario.None? && !Noted(t)
  }

  /** The line does not leave a heading in kept prose. */
  predicate Fine(st: State, raw: string) {
    Classify(raw).Other? && Keeps(st, Classify(raw).text) ==> !IsHeading(Classify(raw).text)
  }

  /** No line hides a heading at a place where the parser keeps prose. */
  ghost predicate Literal(text: string) {
    var ls := Split(text);
    forall i | 0 <= i < |ls| :: Fine(Fold(Line, START, ls[..i]), ls[i])
  }

  /** What will count is clean. */
  ghost predicate Clean(st: State) {
    && (forall r | r in st.added :: RequirementOk(r, Taken))
    && (forall m | m in st.modified :: ModifiedOk(m, Taken))
    && (st.current.Some? && Counts(st.section) ==> OpenOk(st.current.value.open, Taken))
  }

  lemma FlushIff(st: State)
    requires StateOk(st, Noted)
    ensures Clean(Flush(st)) <==> Clean(st)
    ensures Flush(st).current.None?
  {
    hide Field, RequirementOk, OpenOk, Close, Taken, Noted;
    if st.current.Some? {
      var d := st.current.value;
      CloseIff(d.open, Noted, Taken);
      var r := Close(d.open);
      assert forall x | x in st.added :: x in st.added + [r];
      assert forall x | x in st.modified :: x in st.modified + [Modified(r, d.previously)];
      assert r in st.added + [r] && Modified(r, d.previously) in st.modified + [Modified(r, d.previously)];
    }
  }

  lemma NoteIff(d: Draft, t: string)
    requires DraftOk(d, Noted) && t != "" && Field(t)
    ensures OpenOk(TakeNote(d, t).open, Taken) <==>
            OpenOk(d.open, Taken) && (d.open.scenario.None? && !Noted(t) ==> !IsHeading(t))
  {
    hide Field, OpenOk, TakeText, IsHeading, Annotation;
    TakeTextIff(d.open, t, Noted, Taken);
  }

  lemma HeadIff(d: Draft, n: string)
    requires DraftOk(d, Noted) && Field(n)
    ensures OpenOk(OpenScenario(d.open, n), Taken) <==> OpenOk(d.open, Taken)
  {
    hide Field, AllPlain, ScenarioOk, OpenScenario, Taken, Noted;
    OpenScenarioIff(d.open, n, Taken);
  }

  /** One line keeps the state clean exactly if it was clean and the line leaves no heading in kept prose. */
  lemma LineIff(st: State, raw: string)
    requires StateOk(st, Noted) && OneLine(raw)
    ensures Clean(Line(st, raw)) <==> Clean(st) && Fine(st, raw)
  {
    hide Trimmed, OneLine, OpenOk, DraftOk, RequirementOk, Classify, OpenScenario, TakeNote, Flush, IsHeading, Taken, Noted, ModifiedOk;
    ClassifyYields(raw);
    FlushIff(st);
    match Classify(raw)
    case ScenarioHead(n) =>
      if st.current.Some? { HeadIff(st.current.value, n); }
    case RequirementHead(n) => FreshOk(n, Taken);
    case SectionHead(h) =>
    case TitleHead(t) =>
    case Blank =>
    case Other(t) =>
      if st.current.Some? { NoteIff(st.current.value, t); }
  }

  lemma {:induction false} FoldIff(ls: seq<string>, n: nat)
    requires n <= |ls| && forall l | l in ls :: OneLine(l)
    ensures StateOk(Fold(Line, START, ls[..n]), Noted)
    ensures Clean(Fold(Line, START, ls[..n])) <==> forall i | 0 <= i < n :: Fine(Fold(Line, START, ls[..i]), ls[i])
    decreases n
  {
    hide StateOk, Clean, OneLine, Line, Fine, Noted, Classify;
    if n == 0 {
      StartOk(Noted);
      StartClean();
    } else {
      FoldIff(ls, n - 1);
      FoldSnoc(Line, START, ls, n - 1);
      var st := Fold(Line, START, ls[..n - 1]);
      assert ls[n - 1] in ls;
      LineOk(st, ls[n - 1], Noted);
      LineIff(st, ls[n - 1]);
    }
  }

  lemma StartClean()
    ensures Clean(START)
  {
  }

  lemma FinishIff(st: State)
    requires StateOk(st, Noted)
    ensures Canonical(Finish(st)) <==> Clean(st)
  {
    hide Field, RequirementOk, OpenOk, Flush, ModifiedOk, RemovedOk, DraftOk;
    FlushIff(st);
    FlushOk(st, Noted);
  }

  /** The exact condition on the text: parse, print, parse is parse if and only if no kept statement line hides a heading. */
  lemma StableIffLiteral(text: string)
    ensures Parse(Print(Parse(text))) == Parse(text).(warnings := []) <==> Literal(text)
  {
    hide DeltaOk, Print, StateOk, Clean, Finish, Fine, Split, Line;
    var ls := Split(text);
    SplitPieces(text);
    FoldIff(ls, |ls|);
    assert ls[..|ls|] == ls;
    FinishIff(Fold(Line, START, ls));
    StableIffNoHeadingInProse(text);
  }

  lemma SemanticStability(text: string)
    requires forall l | l in Split(text) :: !Indented(l, IsHeading)
    ensures Parse(Print(Parse(text))) == Parse(text).(warnings := [])
  {
    hide Parse, Print, DeltaOk, Split;
    CleanTextIsCanonical(text);
    StableIffNoHeadingInProse(text);
  }

  /** The promise fails on an indented heading in a statement: it becomes a section and the statement is lost. */
  lemma IndentedHeadingBreaksStability()
    ensures var text := SECTION + MODIFIED + "\n" + ("### Requirement: R" + "\n" + " ## X");
            && Parse(text).modified == [Modified(Requirement("R", "## X", []), "")]
            && Parse(Print(Parse(text))) != Parse(text).(warnings := [])
  {
    hide Classify, SectionOf, Split, DeltaOk, Print, Collected, Annotation, BulletBody;
    var text := SECTION + MODIFIED + "\n" + ("### Requirement: R" + "\n" + " ## X");
    ThreeLines();
    ReadModified();
    ReadRequirementR();
    ReadIndented();
    NoNote();
    var st := START.(section := InModified, current := Some(Draft(Fresh("R"), "", "")));
    assert Line(START, SECTION + MODIFIED) == START.(section := InModified);
    assert Line(START.(section := InModified), "### Requirement: R") == st;
    assert [] + ["## X"] == ["## X"];
    assert Line(st, " ## X") == st.(current := Some(Draft(Fresh("R").(statement := ["## X"]), "", "")));
    assert Collected(["## X"]) == "## X" by { OneProse("## X"); }
    HeadingIsNotProse(Parse(text));
    StableIffNoHeadingInProse(text);
  }

  lemma ThreeLines()
    ensures var text := SECTION + MODIFIED + "\n" + ("### Requirement: R" + "\n" + " ## X");
            Fold(Line, START, Split(text)) == Line(Line(Line(START, SECTION + MODIFIED), "### Requirement: R"), " ## X")
  {
    hide Line, Split;
    var a, b, c := SECTION + MODIFIED, "### Requirement: R", " ## X";
    SplitLine(a, b + "\n" + c);
    SplitLine(b, c);
    SplitOne(c);
    assert Split(a + "\n" + (b + "\n" + c)) == [a] + ([b] + [c]);
    FoldAppend(Line, START, [a], [b] + [c]);
    FoldOne(Line, START, a);
    FoldAppend(Line, Line(START, a), [b], [c]);
    FoldOne(Line, Line(START, a), b);
    FoldOne(Line, Line(Line(START, a), b), c);
  }

  lemma ReadModified()
    ensures Classify(SECTION + MODIFIED) == SectionHead(MODIFIED) && SectionOf(MODIFIED) == InModified
  {
    hide Classify, SectionOf, Field;
    ModifiedName();
    ReadSection(MODIFIED);
  }

  lemma ReadRequirementR()
    ensures Classify("### Requirement: R") == RequirementHead("R")
  {
    hide Classify;
    assert Field("R");
    ReadRequirement("R");
    assert REQUIREMENT + " " + "R" == "### Requirement: R";
  }

  lemma ReadIndented()
    ensures Field("## X") && Classify(" ## X") == Other("## X")
  {
    hide Classify;
    assert Field("## X");
    IndentedReads("## X");
    assert " " + "## X" == " ## X";
  }

  lemma NoNote()
    ensures Annotation("## X", PREVIOUSLY) == None && Annotation("## X", RATIONALE) == None
  {
    assert "## X"[0] == '#' && PREVIOUSLY[0] == '(' && RATIONALE[0] == '(';
  }

  lemma OneProse(l: string)
    requires l != "" && Field(l)
    ensures Collected([l]) == l
  {
    TrimmedStays(l);
  }

  lemma HeadingIsNotProse(d: Delta)
    requires d.modified == [Modified(Requirement("R", "## X", []), "")]
    ensures !Canonical(d)
  {
    hide Field;
    StatementIsNoProse();
    var m := d.modified[0];
    assert m in d.modified && !ModifiedOk(m, Taken);
  }

  lemma StatementIsNoProse()
    ensures !Prose("## X", Taken)
  {
    hide Split, Field;
    SplitOne("## X");
    assert SECTION <= "## X";
    assert Taken("## X");
    assert "## X" in Split("## X");
  }

  // ---------------------------------------------------------------------------------------
  // The loops of the code
  // ---------------------------------------------------------------------------------------

  datatype Accumulator = Accumulator(name: string, scenarios: seq<Scenario>, previously: string, rationale: string)

  ghost function Snapshot(d: Delta, section: Section, cur: Option<Accumulator>, statement: seq<string>, scen: Option<Scenario>): State
  {
    State(d.title, section, d.added, d.modified, d.removed,
          if cur.Some? then Some(Draft(Open(cur.value.name, cur.value.scenarios, statement, scen), cur.value.previously, cur.value.rationale))
          else None,
          d.warnings)
  }

  /** Dispatches a completed block into the section it stands in. */
  method AppendRequirement(d: Delta, section: Section, cur: Option<Accumulator>, statement: seq<string>, scen: Option<Scenario>)
    returns (out: Delta)
    ensures out.capability == d.capability
    ensures Snapshot(out, section, None, [], None) == Flush(Snapshot(d, section, cur, statement, scen))
  {
    if cur.None? {
      return d;
    }
    var scenarios := cur.value.scenarios;
    if scen.Some? {
      scenarios := scenarios + [scen.value];
    }
    var r := Requirement(cur.value.name, Collected(statement), scenarios);
    match section
    case InAdded => return d.(added := d.added + [r]);
    case InModified => return d.(modified := d.modified + [Modified(r, cur.value.previously)]);
    case InRemoved =>
      var warned := d.warnings;
      if r.statement != "" || |scenarios| > 0 {
        warned := warned + [RemovedCarriesContent(r.name)];
      }
      assert d.warnings + [] == d.warnings;
      return d.(warnings := warned, removed := d.removed + [Removed(r.name, cur.value.rationale)]);
    case Nowhere => return d.(warnings := d.warnings + [OrphanRequirement(r.name)]);
  }

  /** The line loop of the delta parser. */
  method ParseDelta(text: string) returns (d: Delta)
    ensures d == Parse(text)
  {
    hide Classify, SectionOf, Collected, BulletBody, ParseStep, Split, Annotation, Flush;
    var lines := Split(text);
    d := Delta("", "", [], [], [], []);
    var section := Nowhere;
    var cur: Option<Accumulator>, scen: Option<Scenario>, statement: seq<string> := None, None, [];
    var i := 0;
    while i < |lines|
      invariant 0 <= i <= |lines| && d.capability == ""
      invariant cur.None? ==> scen.None? && statement == []
      invariant Fold(Line, START, lines[..i]) == Snapshot(d, section, cur, statement, scen)
    {
      FoldSnoc(Line, START, lines, i);
      match Classify(lines[i]) {
        case ScenarioHead(name) =>
          if cur.Some? {
            if scen.Some? {
              cur := Some(cur.value.(scenarios := cur.value.scenarios + [scen.value]));
            }
            scen := Some(Scenario(name, []));
          } else {
            d := d.(warnings := d.warnings + [EarlyScenario(name)]);
          }
        case RequirementHead(name) =>
          d := AppendRequirement(d, section, cur, statement, scen);
          cur, scen, statement := Some(Accumulator(name, [], "", "")), None, [];
        case SectionHead(heading) =>
          d := AppendRequirement(d, section, cur, statement, scen);
          cur, scen, statement := None, None, [];
          section := SectionOf(heading);
        case TitleHead(t) =>
          d := d.(title := t);
        case Blank =>
        case Other(trimmed) =>
          if cur.Some? {
            var p, q := Annotation(trimmed, PREVIOUSLY), Annotation(trimmed, RATIONALE);
            var body := BulletBody(trimmed);
            if p.Some? {
              cur := Some(cur.value.(previously := p.value));
            } else if q.Some? {
              cur := Some(cur.value.(rationale := q.value));
            } else if body.Some? && scen.Some? {
              scen := Some(scen.value.(steps := scen.value.steps + [ParseStep(body.value)]));
            } else if scen.None? {
              statement := statement + [trimmed];
            }
          }
      }
      i := i + 1;
    }
    assert lines[..i] == lines;
    d := AppendRequirement(d, section, cur, statement, scen);
  }

  method RenderAdded(b: string, rs: seq<Requirement>) returns (out: string)
    ensures out == b + Unlines(Under(ADDED, rs != [], Flat(AddedEntry, rs)))
  {
    hide Unlines, RequirementLines, Flat;
    UnlinesNothing();
    if |rs| == 0 {
      return b;
    }
    ghost var head := ["", SECTION + ADDED];
    WriteSection(b, [], ADDED);
    assert [] + head == head;
    out := b + "\n" + (SECTION + ADDED) + "\n";
    NoItems(head, AddedEntry, rs);
    var i := 0;
    while i < |rs|
      invariant 0 <= i <= |rs|
      invariant out == b + Unlines(head + Flat(AddedEntry, rs[..i]))
    {
      WriteItem(b, head, AddedEntry, rs, i);
      out := RenderRequirement(out, rs[i], "", "");
      i := i + 1;
    }
    assert rs[..i] == rs;
  }

  method RenderModified(b: string, ms: seq<Modified>) returns (out: string)
    ensures out == b + Unlines(Under(MODIFIED, ms != [], Flat(ModifiedEntry, ms)))
  {
    hide Unlines, RequirementLines, Flat;
    UnlinesNothing();
    if |ms| == 0 {
      return b;
    }
    ghost var head := ["", SECTION + MODIFIED];
    WriteSection(b, [], MODIFIED);
    assert [] + head == head;
    out := b + "\n" + (SECTION + MODIFIED) + "\n";
    NoItems(head, ModifiedEntry, ms);
    var i := 0;
    while i < |ms|
      invariant 0 <= i <= |ms|
      invariant out == b + Unlines(head + Flat(ModifiedEntry, ms[..i]))
    {
      WriteItem(b, head, ModifiedEntry, ms, i);
      out := RenderRequirement(out, ms[i].requirement, ms[i].previously, "");
      i := i + 1;
    }
    assert ms[..i] == ms;
  }

  method RenderRemoved(b: string, rs: seq<Removed>) returns (out: string)
    ensures out == b + Unlines(Under(REMOVED, rs != [], Flat(RemovedEntry, rs)))
  {
    hide Unlines, RequirementLines, Flat;
    UnlinesNothing();
    if |rs| == 0 {
      return b;
    }
    ghost var head := ["", SECTION + REMOVED];
    WriteSection(b, [], REMOVED);
    assert [] + head == head;
    out := b + "\n" + (SECTION + REMOVED) + "\n";
    NoItems(head, RemovedEntry, rs);
    var i := 0;
    while i < |rs|
      invariant 0 <= i <= |rs|
      invariant out == b + Unlines(head + Flat(RemovedEntry, rs[..i]))
    {
      WriteItem(b, head, RemovedEntry, rs, i);
      out := RenderRequirement(out, Requirement(rs[i].name, "", []), "", rs[i].rationale);
      i := i + 1;
    }
    assert rs[..i] == rs;
  }

  /** The printer: the three sections in their canonical order, empty ones omitted. */
  method RenderDelta(d: Delta) returns (b: string)
    ensures b == Print(d)
  {
    hide Unlines, Flat, Under;
    var title := TITLE + d.title;
    UnlinesOne(title);
    b := title + "\n";
    ghost var a := Under(ADDED, d.added != [], Flat(AddedEntry, d.added));
    ghost var m := Under(MODIFIED, d.modified != [], Flat(ModifiedEntry, d.modified));
    ghost var r := Under(REMOVED, d.removed != [], Flat(RemovedEntry, d.removed));
    b := RenderAdded(b, d.added);
    UnlinesAppend([title], a);
    b := RenderModified(b, d.modified);
    UnlinesAppend([title] + a, m);
    b := RenderRemoved(b, d.removed);
    UnlinesAppend([title] + a + m, r);
  }
}

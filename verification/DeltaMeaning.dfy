/** What a delta text means, without a parser: every line counts for the headings that it stands under. */
module DeltaMeaning {
  import opened Text
  import opened OpenSpec
  import opened Markdown
  import opened LineForms
  import opened RequirementBlock
  import opened SpecMeaning
  import Leniency
  import DeltaMarkdown

  // ---------------------------------------------------------------------------------------
  // What the lines before line `n` mean
  // ---------------------------------------------------------------------------------------

  datatype Part = Added | Modifies | Removes | Apart

  function PartOf(section: Option<string>): Part {
    if section.None? then Apart
    else if Begins(section.value, "added") then Added
    else if Begins(section.value, "modified") then Modifies
    else if Begins(section.value, "removed") then Removes
    else Apart
  }

  /** The part of the delta that line `n` stands in. */
  function PartAt(ls: seq<string>, n: nat): Part
    requires n <= |ls|
  {
    PartOf(SectionBefore(ls, n))
  }

  function Previously(t: string): Option<string> {
    DeltaMarkdown.Annotation(t, "(Previously:")
  }

  function Rationale(t: string): Option<string> {
    if Previously(t).Some? then None else DeltaMarkdown.Annotation(t, "(Rationale:")
  }

  /** A text line of requirement heading `j`. */
  predicate TextOf(ls: seq<string>, j: nat, i: nat)
    requires i < |ls|
  {
    Classify(ls[i]).Other? && RequirementOver(ls, i) == Some(j)
  }

  predicate IsBody(ls: seq<string>, j: nat, i: nat)
    requires i < |ls|
  {
    TextOf(ls, j, i) && ScenarioOver(ls, i) == None && Previously(Classify(ls[i]).text) == None && Rationale(Classify(ls[i]).text) == None
  }

  /** The prose before the first scenario, but for annotations. */
  function BodyUpTo(ls: seq<string>, j: nat, n: nat): seq<string>
    requires n <= |ls|
  {
    if n == 0 then [] else BodyUpTo(ls, j, n - 1) + if IsBody(ls, j, n - 1) then [Classify(ls[n - 1]).text] else []
  }

  /** The last such annotation, wherever it stands in the requirement. */
  function PreviouslyUpTo(ls: seq<string>, j: nat, n: nat): string
    requires n <= |ls|
  {
    if n == 0 then ""
    else if TextOf(ls, j, n - 1) && Previously(Classify(ls[n - 1]).text).Some? then Previously(Classify(ls[n - 1]).text).value
    else PreviouslyUpTo(ls, j, n - 1)
  }

  function RationaleUpTo(ls: seq<string>, j: nat, n: nat): string
    requires n <= |ls|
  {
    if n == 0 then ""
    else if TextOf(ls, j, n - 1) && Rationale(Classify(ls[n - 1]).text).Some? then Rationale(Classify(ls[n - 1]).text).value
    else RationaleUpTo(ls, j, n - 1)
  }

  function OneOf(ls: seq<string>, j: nat, n: nat): Requirement
    requires j < |ls| && n <= |ls| && Classify(ls[j]).RequirementHead?
  {
    Requirement(Classify(ls[j]).name, Collected(BodyUpTo(ls, j, n)), ScenariosUpTo(ls, j, n, n))
  }

  predicate Heading(ls: seq<string>, j: nat, p: Part)
    requires j < |ls|
  {
    Classify(ls[j]).RequirementHead? && PartAt(ls, j) == p
  }

  function AddedUpTo(ls: seq<string>, m: nat, n: nat): seq<Requirement>
    requires m <= |ls| && n <= |ls|
  {
    if m == 0 then [] else AddedUpTo(ls, m - 1, n) + if Heading(ls, m - 1, Added) then [OneOf(ls, m - 1, n)] else []
  }

  function ModifiedUpTo(ls: seq<string>, m: nat, n: nat): seq<Modified>
    requires m <= |ls| && n <= |ls|
  {
    if m == 0 then []
    else ModifiedUpTo(ls, m - 1, n) + if Heading(ls, m - 1, Modifies) then [Modified(OneOf(ls, m - 1, n), PreviouslyUpTo(ls, m - 1, n))] else []
  }

  function RemovedUpTo(ls: seq<string>, m: nat, n: nat): seq<Removed>
    requires m <= |ls| && n <= |ls|
  {
    if m == 0 then []
    else RemovedUpTo(ls, m - 1, n) + if Heading(ls, m - 1, Removes) then [Removed(Classify(ls[m - 1]).name, RationaleUpTo(ls, m - 1, n))] else []
  }

  /** What is to be warned of when requirement heading `j` ends at line `n`. */
  function Closing(ls: seq<string>, j: nat, n: nat): seq<Warning>
    requires j < |ls| && n <= |ls| && Classify(ls[j]).RequirementHead?
  {
    var r := OneOf(ls, j, n);
    match PartAt(ls, j)
    case Apart => [OrphanRequirement(r.name)]
    case Removes => if r.statement == "" && r.scenarios == [] then [] else [RemovedCarriesContent(r.name)]
    case _ => []
  }

  predicate Ends(ls: seq<string>, n: nat)
    requires n < |ls|
  {
    Classify(ls[n]).RequirementHead? || Classify(ls[n]).SectionHead?
  }

  function ClosingOf(ls: seq<string>, n: nat): seq<Warning>
    requires n <= |ls|
  {
    OverEarlier(ls, n);
    if RequirementOver(ls, n).Some? then Closing(ls, RequirementOver(ls, n).value, n) else []
  }

  /** Scenarios under no requirement, and what requirements that have ended must be warned of, as they come. */
  function NoticesUpTo(ls: seq<string>, n: nat): seq<Warning>
    requires n <= |ls|
  {
    if n == 0 then []
    else if Classify(ls[n - 1]).ScenarioHead? && RequirementOver(ls, n - 1) == None then
      NoticesUpTo(ls, n - 1) + [EarlyScenario(Classify(ls[n - 1]).name)]
    else if Ends(ls, n - 1) then NoticesUpTo(ls, n - 1) + ClosingOf(ls, n - 1)
    else NoticesUpTo(ls, n - 1)
  }

  function Meaning(text: string): Delta {
    var ls := Split(text);
    var n := |ls|;
    Delta("", TitleUpTo(ls, n), AddedUpTo(ls, n, n), ModifiedUpTo(ls, n, n), RemovedUpTo(ls, n, n), NoticesUpTo(ls, n) + ClosingOf(ls, n))
  }

  // ---------------------------------------------------------------------------------------
  // What a further line does not change
  // ---------------------------------------------------------------------------------------

  lemma ItemStays(ls: seq<string>, j: nat, n: nat)
    requires j < n < |ls| && Classify(ls[j]).RequirementHead? && (Silent(ls, n) || RequirementOver(ls, n) != Some(j))
    ensures OneOf(ls, j, n + 1) == OneOf(ls, j, n)
    ensures PreviouslyUpTo(ls, j, n + 1) == PreviouslyUpTo(ls, j, n) && RationaleUpTo(ls, j, n + 1) == RationaleUpTo(ls, j, n)
  {
    hide Classify, Previously, Rationale, StatementUpTo;
    BodyMore(ls, j, n);
    OverEarlier(ls, n);
    forall k | 0 <= k < n && IsScenario(ls, j, k) ensures !IsStep(ls, k, n) {}
    ScenariosStay(ls, j, n, n);
    ScenariosEnd(ls, j, n, n + 1, n + 1);
  }

  lemma BodyMore(ls: seq<string>, j: nat, n: nat)
    requires n < |ls|
    ensures BodyUpTo(ls, j, n + 1) == if IsBody(ls, j, n) then BodyUpTo(ls, j, n) + [Classify(ls[n]).text] else BodyUpTo(ls, j, n)
  {
    hide IsBody, Classify;
  }

  lemma {:induction false} ListsStay(ls: seq<string>, m: nat, n: nat)
    requires m <= n < |ls| && (Silent(ls, n) || forall j | 0 <= j < m :: RequirementOver(ls, n) != Some(j))
    ensures AddedUpTo(ls, m, n + 1) == AddedUpTo(ls, m, n)
    ensures ModifiedUpTo(ls, m, n + 1) == ModifiedUpTo(ls, m, n)
    ensures RemovedUpTo(ls, m, n + 1) == RemovedUpTo(ls, m, n)
    decreases m
  {
    hide Classify, OneOf, PreviouslyUpTo, RationaleUpTo, PartAt;
    if m > 0 {
      ListsStay(ls, m - 1, n);
      if Classify(ls[m - 1]).RequirementHead? { ItemStays(ls, m - 1, n); }
    }
  }

  lemma {:induction false} ListsEnd(ls: seq<string>, m: nat, m': nat, n: nat)
    requires m <= m' <= |ls| && n <= |ls| && forall j | m <= j < m' :: !Classify(ls[j]).RequirementHead?
    ensures AddedUpTo(ls, m', n) == AddedUpTo(ls, m, n)
    ensures ModifiedUpTo(ls, m', n) == ModifiedUpTo(ls, m, n)
    ensures RemovedUpTo(ls, m', n) == RemovedUpTo(ls, m, n)
    decreases m'
  {
    hide Classify, PartAt;
    if m' > m { ListsEnd(ls, m, m' - 1, n); }
  }

  lemma {:induction false} SectionHolds(ls: seq<string>, j: nat, n: nat)
    requires j <= n <= |ls| && forall i | j <= i < n :: !Classify(ls[i]).SectionHead?
    ensures SectionBefore(ls, n) == SectionBefore(ls, j)
    decreases n
  {
    hide Classify;
    if n > j { SectionHolds(ls, j, n - 1); }
  }

  lemma {:induction false} NoNotesYet(ls: seq<string>, m: nat, n: nat)
    requires m <= n + 1 && n < |ls| && Classify(ls[n]).RequirementHead?
    ensures BodyUpTo(ls, n, m) == [] && PreviouslyUpTo(ls, n, m) == "" && RationaleUpTo(ls, n, m) == ""
    decreases m
  {
    hide Classify, Previously, Rationale;
    if m > 0 {
      NoNotesYet(ls, m - 1, n);
      NoneOver(ls, m - 1, n);
    }
  }

  // ---------------------------------------------------------------------------------------
  // The parser keeps exactly that
  // ---------------------------------------------------------------------------------------

  function SectionOf(p: Part): DeltaMarkdown.Section {
    match p
    case Added => DeltaMarkdown.InAdded
    case Modifies => DeltaMarkdown.InModified
    case Removes => DeltaMarkdown.InRemoved
    case Apart => DeltaMarkdown.Nowhere
  }

  lemma HeadingPart(h: string)
    ensures DeltaMarkdown.SectionOf(h) == SectionOf(PartOf(Some(h)))
  {
    hide DeltaMarkdown.SectionOf, Begins;
    Leniency.DeltaSections(h);
  }

  ghost predicate DraftAgrees(ls: seq<string>, j: nat, n: nat, d: DeltaMarkdown.Draft)
    requires j < n <= |ls| && Classify(ls[j]).RequirementHead?
  {
    && d.open.name == Classify(ls[j]).name && d.open.statement == BodyUpTo(ls, j, n) && ScenariosAgree(ls, j, n, d.open)
    && d.previously == PreviouslyUpTo(ls, j, n) && d.rationale == RationaleUpTo(ls, j, n)
  }

  ghost predicate ListsAgree(ls: seq<string>, m: nat, n: nat, st: DeltaMarkdown.State)
    requires m <= |ls| && n <= |ls|
  {
    st.added == AddedUpTo(ls, m, n) && st.modified == ModifiedUpTo(ls, m, n) && st.removed == RemovedUpTo(ls, m, n)
  }

  ghost predicate CurrentAgrees(ls: seq<string>, n: nat, st: DeltaMarkdown.State)
    requires n <= |ls|
  {
    match RequirementOver(ls, n)
    case None => st.current == None && ListsAgree(ls, n, n, st)
    case Some(j) =>
      && j < n && Classify(ls[j]).RequirementHead? && ListsAgree(ls, j, n, st)
      && st.current.Some? && DraftAgrees(ls, j, n, st.current.value)
  }

  ghost predicate Agrees(ls: seq<string>, n: nat, st: DeltaMarkdown.State)
    requires n <= |ls|
  {
    && st.title == TitleUpTo(ls, n) && st.section == SectionOf(PartAt(ls, n)) && st.warnings == NoticesUpTo(ls, n)
    && CurrentAgrees(ls, n, st)
  }

  lemma CloseIs(ls: seq<string>, j: nat, n: nat, d: DeltaMarkdown.Draft)
    requires j < n <= |ls| && Classify(ls[j]).RequirementHead? && RequirementOver(ls, n) == Some(j) && DraftAgrees(ls, j, n, d)
    ensures Close(d.open) == OneOf(ls, j, n)
  {
    hide Classify, ScenariosAgree, CloseScenario;
    ScenariosClosed(ls, j, n, d.open);
  }

  /** Flushed, the lists are all that the lines so far mean, and the warnings those of what has ended. */
  lemma FlushAgrees(ls: seq<string>, n: nat, st: DeltaMarkdown.State)
    requires n <= |ls| && Agrees(ls, n, st)
    ensures var f := DeltaMarkdown.Flush(st);
            && f.current == None && f.title == st.title && f.section == st.section && ListsAgree(ls, n, n, f)
            && f.warnings == NoticesUpTo(ls, n) + ClosingOf(ls, n)
  {
    hide Classify, DraftAgrees, Close, OneOf, ScenarioOver, NoticesUpTo, PreviouslyUpTo, RationaleUpTo, TitleUpTo;
    OverEarlier(ls, n);
    if RequirementOver(ls, n).Some? {
      var j, d := RequirementOver(ls, n).value, st.current.value;
      CloseIs(ls, j, n, d);
      ListsEnd(ls, j + 1, n, n);
      SectionHolds(ls, j, n);
      DraftNotes(ls, j, n, d);
    }
  }

  lemma DraftNotes(ls: seq<string>, j: nat, n: nat, d: DeltaMarkdown.Draft)
    requires j < n <= |ls| && Classify(ls[j]).RequirementHead? && DraftAgrees(ls, j, n, d)
    ensures d.previously == PreviouslyUpTo(ls, j, n) && d.rationale == RationaleUpTo(ls, j, n)
    ensures OneOf(ls, j, n).name == Classify(ls[j]).name
  {
    hide Classify;
  }

  /** Lists of requirements that line `n` does not change. */
  lemma ListsKept(ls: seq<string>, n: nat, st: DeltaMarkdown.State)
    requires n < |ls| && !Ends(ls, n)
    ensures RequirementOver(ls, n).None? && ListsAgree(ls, n, n, st) ==> ListsAgree(ls, n + 1, n + 1, st)
    ensures RequirementOver(ls, n).Some? ==>
              RequirementOver(ls, n).value < n &&
              (ListsAgree(ls, RequirementOver(ls, n).value, n, st) ==> ListsAgree(ls, RequirementOver(ls, n).value, n + 1, st))
    ensures RequirementOver(ls, n + 1) == RequirementOver(ls, n) && PartAt(ls, n + 1) == PartAt(ls, n)
  {
    hide Classify, AddedUpTo, ModifiedUpTo, RemovedUpTo, PartOf;
    OverEarlier(ls, n);
    if RequirementOver(ls, n).Some? {
      ListsStay(ls, RequirementOver(ls, n).value, n);
    } else {
      ListsStay(ls, n, n);
      ListsEnd(ls, n, n + 1, n + 1);
    }
  }

  /** A line that ends nothing leaves the lists alone, and the draft is all that matters. */
  lemma CurrentMore(ls: seq<string>, n: nat, st: DeltaMarkdown.State, st': DeltaMarkdown.State)
    requires n < |ls| && !Ends(ls, n) && CurrentAgrees(ls, n, st)
    requires st'.added == st.added && st'.modified == st.modified && st'.removed == st.removed
    requires st.current.None? ==> st'.current.None?
    requires RequirementOver(ls, n).Some? ==>
               var j := RequirementOver(ls, n).value;
               j < n && Classify(ls[j]).RequirementHead? && st'.current.Some? && DraftAgrees(ls, j, n + 1, st'.current.value)
    ensures CurrentAgrees(ls, n + 1, st')
  {
    hide Classify, DraftAgrees, AddedUpTo, ModifiedUpTo, RemovedUpTo, PartAt;
    ListsKept(ls, n, st);
  }

  lemma DraftQuiet(ls: seq<string>, j: nat, n: nat, d: DeltaMarkdown.Draft)
    requires j < n < |ls| && Classify(ls[j]).RequirementHead? && RequirementOver(ls, n) == Some(j) && DraftAgrees(ls, j, n, d)
    requires Classify(ls[n]).Blank? || Classify(ls[n]).TitleHead?
    ensures DraftAgrees(ls, j, n + 1, d)
  {
    hide Classify, ScenariosAgree, BodyUpTo, Previously, Rationale;
    BodyMore(ls, j, n);
    ScenariosQuiet(ls, j, n, d.open);
  }

  lemma DraftScenario(ls: seq<string>, j: nat, n: nat, d: DeltaMarkdown.Draft)
    requires j < n < |ls| && Classify(ls[j]).RequirementHead? && RequirementOver(ls, n) == Some(j) && DraftAgrees(ls, j, n, d)
    requires Classify(ls[n]).ScenarioHead?
    ensures DraftAgrees(ls, j, n + 1, d.(open := OpenScenario(d.open, Classify(ls[n]).name)))
  {
    hide Classify, ScenariosAgree, BodyUpTo, Previously, Rationale, OpenScenario;
    BodyMore(ls, j, n);
    ScenariosOpened(ls, j, n, d.open);
  }

  lemma NoticesMore(ls: seq<string>, n: nat)
    requires n < |ls| && !Ends(ls, n)
    ensures NoticesUpTo(ls, n + 1) ==
            if Classify(ls[n]).ScenarioHead? && RequirementOver(ls, n) == None then NoticesUpTo(ls, n) + [EarlyScenario(Classify(ls[n]).name)]
            else NoticesUpTo(ls, n)
    ensures TitleUpTo(ls, n + 1) == if Classify(ls[n]).TitleHead? then Classify(ls[n]).title else TitleUpTo(ls, n)
  {
    hide Classify;
  }

  lemma QuietLine(ls: seq<string>, n: nat, st: DeltaMarkdown.State)
    requires n < |ls| && Agrees(ls, n, st) && (Classify(ls[n]).Blank? || Classify(ls[n]).TitleHead?)
    ensures Agrees(ls, n + 1, DeltaMarkdown.Line(st, ls[n]))
  {
    hide Classify, DraftAgrees, ListsAgree, NoticesUpTo, TitleUpTo, PartAt;
    NoticesMore(ls, n);
    ListsKept(ls, n, st);
    if RequirementOver(ls, n).Some? { DraftQuiet(ls, RequirementOver(ls, n).value, n, st.current.value); }
    CurrentMore(ls, n, st, DeltaMarkdown.Line(st, ls[n]));
  }

  lemma RequirementLine(ls: seq<string>, n: nat, st: DeltaMarkdown.State)
    requires n < |ls| && Agrees(ls, n, st) && Classify(ls[n]).RequirementHead?
    ensures Agrees(ls, n + 1, DeltaMarkdown.Line(st, ls[n]))
  {
    hide Classify, CurrentAgrees, DeltaMarkdown.Flush, AddedUpTo, ModifiedUpTo, RemovedUpTo, ClosingOf;
    FlushAgrees(ls, n, st);
    ListsStay(ls, n, n);
    FreshAgrees(ls, n, DeltaMarkdown.Line(st, ls[n]));
  }

  lemma FreshAgrees(ls: seq<string>, n: nat, st: DeltaMarkdown.State)
    requires n < |ls| && Classify(ls[n]).RequirementHead? && ListsAgree(ls, n, n + 1, st)
    requires st.current == Some(DeltaMarkdown.Draft(Fresh(Classify(ls[n]).name), "", ""))
    ensures CurrentAgrees(ls, n + 1, st)
  {
    hide Classify, AddedUpTo, ModifiedUpTo, RemovedUpTo, BodyUpTo, PreviouslyUpTo, RationaleUpTo, ScenariosUpTo, StepsUpTo, StatementUpTo;
    NothingYet(ls, n + 1, n);
    NoNotesYet(ls, n + 1, n);
  }

  lemma SectionLine(ls: seq<string>, n: nat, st: DeltaMarkdown.State)
    requires n < |ls| && Agrees(ls, n, st) && Classify(ls[n]).SectionHead?
    ensures Agrees(ls, n + 1, DeltaMarkdown.Line(st, ls[n]))
  {
    hide Classify, DeltaMarkdown.Flush, DeltaMarkdown.SectionOf, PartOf, AddedUpTo, ModifiedUpTo, RemovedUpTo, ClosingOf;
    FlushAgrees(ls, n, st);
    ListsStay(ls, n, n);
    ListsEnd(ls, n, n + 1, n + 1);
    HeadingPart(Classify(ls[n]).heading);
  }

  lemma ScenarioLine(ls: seq<string>, n: nat, st: DeltaMarkdown.State)
    requires n < |ls| && Agrees(ls, n, st) && Classify(ls[n]).ScenarioHead?
    ensures Agrees(ls, n + 1, DeltaMarkdown.Line(st, ls[n]))
  {
    hide Classify, DraftAgrees, ListsAgree, NoticesUpTo, TitleUpTo, PartAt, OpenScenario;
    NoticesMore(ls, n);
    ListsKept(ls, n, st);
    if RequirementOver(ls, n).Some? { DraftScenario(ls, RequirementOver(ls, n).value, n, st.current.value); }
    CurrentMore(ls, n, st, DeltaMarkdown.Line(st, ls[n]));
  }

  /** An annotation is no bullet. */
  lemma NoteIsNoBullet(t: string)
    requires DeltaMarkdown.Annotation(t, "(Previously:").Some? || DeltaMarkdown.Annotation(t, "(Rationale:").Some?
    ensures BulletBody(t).None?
  {
    hide DeltaMarkdown.Annotation;
    if t != "" && t[0] != '(' { DeltaMarkdown.NotNoted(t); }
  }

  lemma DraftProse(ls: seq<string>, j: nat, n: nat, d: DeltaMarkdown.Draft)
    requires j < n < |ls| && Classify(ls[j]).RequirementHead? && RequirementOver(ls, n) == Some(j) && DraftAgrees(ls, j, n, d)
    requires Classify(ls[n]).Other?
    ensures DraftAgrees(ls, j, n + 1, DeltaMarkdown.TakeNote(d, Classify(ls[n]).text)) && RequirementOver(ls, n + 1) == Some(j)
  {
    hide Classify, ScenariosAgree, BulletBody, ParseStep, DeltaMarkdown.Annotation, BodyUpTo, ScenarioOver;
    var t := Classify(ls[n]).text;
    BodyMore(ls, j, n);
    ScenariosProse(ls, j, n, d.open);
    if Previously(t).Some? || Rationale(t).Some? { NoteIsNoBullet(t); }
  }

  lemma ProseLine(ls: seq<string>, n: nat, st: DeltaMarkdown.State)
    requires n < |ls| && Agrees(ls, n, st) && Classify(ls[n]).Other?
    ensures Agrees(ls, n + 1, DeltaMarkdown.Line(st, ls[n]))
  {
    hide Classify, DraftAgrees, ListsAgree, NoticesUpTo, TitleUpTo, PartAt, DeltaMarkdown.TakeNote;
    NoticesMore(ls, n);
    ListsKept(ls, n, st);
    if RequirementOver(ls, n).Some? { DraftProse(ls, RequirementOver(ls, n).value, n, st.current.value); }
    CurrentMore(ls, n, st, DeltaMarkdown.Line(st, ls[n]));
  }

  lemma OneMoreLine(ls: seq<string>, n: nat, st: DeltaMarkdown.State)
    requires n < |ls| && Agrees(ls, n, st)
    ensures Agrees(ls, n + 1, DeltaMarkdown.Line(st, ls[n]))
  {
    hide Agrees, Classify, DeltaMarkdown.Line;
    match Classify(ls[n])
    case Blank => QuietLine(ls, n, st);
    case TitleHead(_) => QuietLine(ls, n, st);
    case RequirementHead(_) => RequirementLine(ls, n, st);
    case SectionHead(_) => SectionLine(ls, n, st);
    case ScenarioHead(_) => ScenarioLine(ls, n, st);
    case Other(_) => ProseLine(ls, n, st);
  }

  lemma NoLines(ls: seq<string>)
    ensures Agrees(ls, 0, DeltaMarkdown.START)
  {
    hide Classify;
  }

  lemma {:induction false} LinesAgree(ls: seq<string>, n: nat)
    requires n <= |ls|
    ensures Agrees(ls, n, Fold(DeltaMarkdown.Line, DeltaMarkdown.START, ls[..n]))
    decreases n
  {
    hide Agrees, DeltaMarkdown.Line;
    if n == 0 {
      NoLines(ls);
      assert ls[..0] == [];
    } else {
      LinesAgree(ls, n - 1);
      FoldSnoc(DeltaMarkdown.Line, DeltaMarkdown.START, ls, n - 1);
      OneMoreLine(ls, n - 1, Fold(DeltaMarkdown.Line, DeltaMarkdown.START, ls[..n - 1]));
    }
  }

  /** The parser returns what the text means, warnings included. */
  lemma ParseIsMeaning(text: string)
    ensures DeltaMarkdown.Parse(text) == Meaning(text)
  {
    hide DeltaMarkdown.Line, Split, DeltaMarkdown.Flush, CurrentAgrees, ClosingOf;
    var ls := Split(text);
    LinesAgree(ls, |ls|);
    assert ls[..|ls|] == ls;
    FlushAgrees(ls, |ls|, Fold(DeltaMarkdown.Line, DeltaMarkdown.START, ls));
  }
}

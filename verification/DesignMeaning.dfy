/** What a design text means, without a parser. */
module DesignMeaning {
  import opened Text
  import opened OpenSpec
  import opened Markdown
  import opened LineForms
  import opened SectionMeaning
  import opened Leniency
  import DesignMarkdown

  datatype Part = Technical | Decisions | DataFlow | FileChanges | Extra | Nowhere

  function PartOf(h: Option<string>): Part {
    if h.None? then Nowhere
    else if Begins(h.value, "technical approach") then Technical
    else if Begins(h.value, "architecture decision") then Decisions
    else if Begins(h.value, "data flow") then DataFlow
    else if Begins(h.value, "file change") then FileChanges
    else Extra
  }

  /** The part of the design that line `n` stands in. */
  function PartAt(ls: seq<string>, n: nat): Part
    requires n <= |ls|
  {
    PartOf(HeadingOver(ls, n))
  }

  /** A decision heading counts only among the decisions; elsewhere it is prose. */
  predicate DecisionHead(ls: seq<string>, i: nat)
    requires i < |ls|
  {
    PartAt(ls, i) == Decisions && "### Decision:" <= TrimRight(ls[i])
  }

  function DecisionName(raw: string): string
    requires "### Decision:" <= TrimRight(raw)
  {
    TrimSpace(TrimRight(raw)[|"### Decision:"|..])
  }

  predicate In(ls: seq<string>, p: Part, i: nat)
    requires i < |ls|
  {
    ClassifyTop(ls[i]).Other? && PartAt(ls, i) == p
  }

  /** All text lines in that part, through all its sections. */
  function ProseUpTo(ls: seq<string>, p: Part, n: nat): seq<string>
    requires n <= |ls|
  {
    if n == 0 then [] else ProseUpTo(ls, p, n - 1) + if In(ls, p, n - 1) then [ClassifyTop(ls[n - 1]).text] else []
  }

  predicate Changed(ls: seq<string>, i: nat)
    requires i < |ls|
  {
    In(ls, FileChanges, i) && DesignMarkdown.ParseFileChange(ClassifyTop(ls[i]).text).Some?
  }

  function ChangesUpTo(ls: seq<string>, n: nat): seq<FileChange>
    requires n <= |ls|
  {
    if n == 0 then []
    else ChangesUpTo(ls, n - 1) + if Changed(ls, n - 1) then [DesignMarkdown.ParseFileChange(ClassifyTop(ls[n - 1]).text).value] else []
  }

  /** The decision heading that line `n` stands under: the last one in its section. */
  function DecisionOver(ls: seq<string>, n: nat): Option<nat>
    requires n <= |ls|
  {
    if n == 0 || ClassifyTop(ls[n - 1]).SectionHead? then None
    else if DecisionHead(ls, n - 1) then Some(n - 1)
    else DecisionOver(ls, n - 1)
  }

  predicate IsBody(ls: seq<string>, d: nat, i: nat)
    requires i < |ls|
  {
    ClassifyTop(ls[i]).Other? && !DecisionHead(ls, i) && DecisionOver(ls, i) == Some(d)
  }

  function BodyUpTo(ls: seq<string>, d: nat, n: nat): seq<string>
    requires n <= |ls|
  {
    if n == 0 then [] else BodyUpTo(ls, d, n - 1) + if IsBody(ls, d, n - 1) then [ClassifyTop(ls[n - 1]).text] else []
  }

  /** The decisions that begin before line `m`, with their text before line `n`. */
  function DecisionsUpTo(ls: seq<string>, m: nat, n: nat): seq<Decision>
    requires m <= |ls| && n <= |ls|
  {
    if m == 0 then []
    else DecisionsUpTo(ls, m - 1, n) +
         if DecisionHead(ls, m - 1) then [Decision(DecisionName(ls[m - 1]), Collected(BodyUpTo(ls, m - 1, n)))] else []
  }

  predicate ExtraHead(ls: seq<string>, s: nat)
    requires s < |ls|
  {
    ClassifyTop(ls[s]).SectionHead? && PartOf(Some(ClassifyTop(ls[s]).heading)) == Extra
  }

  /** The other sections that begin before line `m`, with their text before line `n`. */
  function ExtrasUpTo(ls: seq<string>, m: nat, n: nat): seq<ExtraSection>
    requires m <= |ls| && n <= |ls|
  {
    if m == 0 then []
    else ExtrasUpTo(ls, m - 1, n) +
         if ExtraHead(ls, m - 1) then [ExtraSection(ClassifyTop(ls[m - 1]).heading, Collected(TextsUpTo(ls, m - 1, n)))] else []
  }

  function Meaning(text: string): Design {
    var ls := Split(text);
    var n := |ls|;
    Design(TitleUpTo(ls, n), Collected(ProseUpTo(ls, Technical, n)), DecisionsUpTo(ls, n, n), Collected(ProseUpTo(ls, DataFlow, n)),
           ChangesUpTo(ls, n), ExtrasUpTo(ls, n, n))
  }

  // ---------------------------------------------------------------------------------------
  // What a further line does not change
  // ---------------------------------------------------------------------------------------

  lemma {:induction false} ExtrasStay(ls: seq<string>, m: nat, n: nat)
    requires m <= n < |ls| && forall s | 0 <= s < m && ExtraHead(ls, s) :: !Under(ls, s, n)
    ensures ExtrasUpTo(ls, m, n + 1) == ExtrasUpTo(ls, m, n)
    decreases m
  {
    hide ClassifyTop, ExtraHead, Under, TextsUpTo;
    if m > 0 {
      ExtrasStay(ls, m - 1, n);
      if ExtraHead(ls, m - 1) { TextsMore(ls, m - 1, n); }
    }
  }

  lemma {:induction false} ExtrasEnd(ls: seq<string>, m: nat, m': nat, n: nat)
    requires m <= m' <= |ls| && n <= |ls| && forall s | m <= s < m' :: !ExtraHead(ls, s)
    ensures ExtrasUpTo(ls, m', n) == ExtrasUpTo(ls, m, n)
    decreases m'
  {
    hide ClassifyTop, ExtraHead;
    if m' > m { ExtrasEnd(ls, m, m' - 1, n); }
  }

  lemma BodyMore(ls: seq<string>, d: nat, n: nat)
    requires n < |ls|
    ensures BodyUpTo(ls, d, n + 1) == if IsBody(ls, d, n) then BodyUpTo(ls, d, n) + [ClassifyTop(ls[n]).text] else BodyUpTo(ls, d, n)
  {
    hide ClassifyTop, IsBody;
  }

  lemma {:induction false} DecisionsStay(ls: seq<string>, m: nat, n: nat)
    requires m <= n < |ls| && forall d | 0 <= d < m && DecisionHead(ls, d) :: !IsBody(ls, d, n)
    ensures DecisionsUpTo(ls, m, n + 1) == DecisionsUpTo(ls, m, n)
    decreases m
  {
    hide DecisionHead, IsBody, BodyUpTo, DecisionName;
    if m > 0 {
      DecisionsStay(ls, m - 1, n);
      if DecisionHead(ls, m - 1) { BodyMore(ls, m - 1, n); }
    }
  }

  lemma {:induction false} DecisionsEnd(ls: seq<string>, m: nat, m': nat, n: nat)
    requires m <= m' <= |ls| && n <= |ls| && forall d | m <= d < m' :: !DecisionHead(ls, d)
    ensures DecisionsUpTo(ls, m', n) == DecisionsUpTo(ls, m, n)
    decreases m'
  {
    hide DecisionHead, BodyUpTo, DecisionName;
    if m' > m { DecisionsEnd(ls, m, m' - 1, n); }
  }

  lemma NoPart()
    ensures PartOf(None) == Nowhere
  {
  }

  /** A decision heading is neither a section nor a title. */
  lemma DecisionIsProse(raw: string)
    requires "### Decision:" <= TrimRight(raw)
    ensures !ClassifyTop(raw).SectionHead? && !ClassifyTop(raw).TitleHead?
  {
    hide TrimRight, TrimSpace;
    assert "### Decision:"[2] == '#' && "## "[2] == ' ' && "### Decision:"[1] == '#' && "# "[1] == ' ';
  }

  lemma {:induction false} DecisionEarlier(ls: seq<string>, n: nat)
    requires n <= |ls|
    ensures DecisionOver(ls, n).Some? ==>
              var d := DecisionOver(ls, n).value;
              d < n && DecisionHead(ls, d) && PartAt(ls, n) == Decisions && forall i | d < i < n :: !DecisionHead(ls, i)
  {
    hide ClassifyTop, PartOf, TrimRight;
    if n > 0 {
      DecisionEarlier(ls, n - 1);
      if DecisionHead(ls, n - 1) { DecisionIsProse(ls[n - 1]); }
    }
  }

  // ---------------------------------------------------------------------------------------
  // The parser keeps exactly that
  // ---------------------------------------------------------------------------------------

  /** Where the parser is among sections and decisions. */
  ghost predicate PlaceAgrees(ls: seq<string>, n: nat, st: DesignMarkdown.State)
    requires n <= |ls|
  {
    match PartAt(ls, n)
    case Nowhere => st.place == DesignMarkdown.Outside && Closed(ls, n, st)
    case Technical => st.place == DesignMarkdown.InTechnical && Closed(ls, n, st)
    case DataFlow => st.place == DesignMarkdown.InDataFlow && Closed(ls, n, st)
    case FileChanges => st.place == DesignMarkdown.InFileChanges && Closed(ls, n, st)
    case Decisions =>
      if DecisionOver(ls, n).None? then st.place == DesignMarkdown.InDecisions && Closed(ls, n, st)
      else
        var d := DecisionOver(ls, n).value;
        && d < n && "### Decision:" <= TrimRight(ls[d])
        && st.place == DesignMarkdown.InDecision(DecisionName(ls[d]), BodyUpTo(ls, d, n))
        && st.decisions == DecisionsUpTo(ls, d, n) && st.extras == ExtrasUpTo(ls, n, n)
    case Extra =>
      && SectionOver(ls, n).Some?
      && var s := SectionOver(ls, n).value;
         && st.place == DesignMarkdown.InExtra(ClassifyTop(ls[s]).heading, TextsUpTo(ls, s, n))
         && st.extras == ExtrasUpTo(ls, s, n) && st.decisions == DecisionsUpTo(ls, n, n)
  }

  ghost predicate Closed(ls: seq<string>, n: nat, st: DesignMarkdown.State)
    requires n <= |ls|
  {
    st.decisions == DecisionsUpTo(ls, n, n) && st.extras == ExtrasUpTo(ls, n, n)
  }

  ghost predicate TextAgrees(ls: seq<string>, n: nat, st: DesignMarkdown.State)
    requires n <= |ls|
  {
    && st.title == TitleUpTo(ls, n) && st.technical == ProseUpTo(ls, Technical, n) && st.dataFlow == ProseUpTo(ls, DataFlow, n)
    && st.fileChanges == ChangesUpTo(ls, n)
  }

  lemma FlushAgrees(ls: seq<string>, n: nat, st: DesignMarkdown.State)
    requires n <= |ls| && PlaceAgrees(ls, n, st)
    ensures var f := DesignMarkdown.Flush(st);
            Closed(ls, n, f) && f == st.(decisions := f.decisions, extras := f.extras, place := f.place)
    ensures PartAt(ls, n) == Decisions ==> DesignMarkdown.Flush(st).place == DesignMarkdown.InDecisions
  {
    hide ClassifyTop, TextsUpTo, BodyUpTo, PartOf, DecisionName, TrimRight;
    if PartAt(ls, n) == Extra {
      var s := SectionOver(ls, n).value;
      ExtrasEnd(ls, s + 1, n, n);
    } else if PartAt(ls, n) == Decisions && DecisionOver(ls, n).Some? {
      DecisionEarlier(ls, n);
      DecisionsEnd(ls, DecisionOver(ls, n).value + 1, n, n);
    }
  }

  /** A line that is no section heading stands where the line before it stands. */
  lemma SamePart(ls: seq<string>, n: nat)
    requires n < |ls| && !ClassifyTop(ls[n]).SectionHead?
    ensures SectionOver(ls, n + 1) == SectionOver(ls, n) && PartAt(ls, n + 1) == PartAt(ls, n)
    ensures PartAt(ls, n) == Extra ==> SectionOver(ls, n).Some?
    ensures PartAt(ls, n) != Extra ==> ExtrasUpTo(ls, n + 1, n + 1) == ExtrasUpTo(ls, n, n)
    ensures PartAt(ls, n) == Extra ==> ExtrasUpTo(ls, SectionOver(ls, n).value, n + 1) == ExtrasUpTo(ls, SectionOver(ls, n).value, n)
  {
    hide ClassifyTop, PartOf;
    NoPart();
    if PartAt(ls, n) == Extra {
      ExtrasStay(ls, SectionOver(ls, n).value, n);
    } else {
      ExtrasStay(ls, n, n);
      ExtrasEnd(ls, n, n + 1, n + 1);
    }
  }

  /** What a line that is no heading of any sort does to the decisions. */
  lemma SameDecision(ls: seq<string>, n: nat)
    requires n < |ls| && !ClassifyTop(ls[n]).SectionHead? && !DecisionHead(ls, n)
    ensures DecisionOver(ls, n + 1) == DecisionOver(ls, n)
    ensures DecisionOver(ls, n).None? ==> DecisionsUpTo(ls, n + 1, n + 1) == DecisionsUpTo(ls, n, n)
    ensures DecisionOver(ls, n).Some? ==>
              var d := DecisionOver(ls, n).value;
              d < n && PartAt(ls, n) == Decisions && DecisionsUpTo(ls, d, n + 1) == DecisionsUpTo(ls, d, n)
  {
    hide ClassifyTop, PartAt, TrimRight;
    DecisionEarlier(ls, n);
    if DecisionOver(ls, n).Some? {
      DecisionsStay(ls, DecisionOver(ls, n).value, n);
    } else {
      DecisionsStay(ls, n, n);
      DecisionsEnd(ls, n, n + 1, n + 1);
    }
  }

  lemma SectionPlace(ls: seq<string>, n: nat, st: DesignMarkdown.State)
    requires n < |ls| && ClassifyTop(ls[n]).SectionHead? && Closed(ls, n, st)
    requires st.place == DesignMarkdown.PlaceOf(ClassifyTop(ls[n]).heading)
    ensures PlaceAgrees(ls, n + 1, st)
  {
    hide ClassifyTop, DesignMarkdown.PlaceOf, Begins, DecisionHead, BodyUpTo, DecisionName, TrimRight;
    DesignPlaces(ClassifyTop(ls[n]).heading);
    ExtrasStay(ls, n, n);
    NoTextsYet(ls, n, n + 1);
    if !ExtraHead(ls, n) { ExtrasEnd(ls, n, n + 1, n + 1); }
    DecisionsStay(ls, n, n);
    assert !DecisionHead(ls, n) by { NoDecision(ls, n); }
    DecisionsEnd(ls, n, n + 1, n + 1);
  }

  lemma NoDecision(ls: seq<string>, n: nat)
    requires n < |ls| && ClassifyTop(ls[n]).SectionHead?
    ensures !DecisionHead(ls, n)
  {
    hide ClassifyTop, PartAt, TrimRight;
    if "### Decision:" <= TrimRight(ls[n]) { DecisionIsProse(ls[n]); }
  }

  lemma DecisionPlace(ls: seq<string>, n: nat, st: DesignMarkdown.State, st': DesignMarkdown.State)
    requires n < |ls| && DecisionHead(ls, n) && PlaceAgrees(ls, n, st)
    requires st' == DesignMarkdown.Flush(st).(place := DesignMarkdown.InDecision(DecisionName(ls[n]), []))
    ensures PlaceAgrees(ls, n + 1, st')
  {
    hide ClassifyTop, DesignMarkdown.Flush, DecisionName, TrimRight, PartOf, ExtrasUpTo, BodyUpTo;
    DecisionIsProse(ls[n]);
    FlushAgrees(ls, n, st);
    SamePart(ls, n);
    DecisionsStay(ls, n, n);
    NoBodyYet(ls, n, n + 1);
  }

  lemma {:induction false} NoBodyYet(ls: seq<string>, d: nat, n: nat)
    requires n <= d + 1 <= |ls| && DecisionHead(ls, d)
    ensures BodyUpTo(ls, d, n) == []
    decreases n
  {
    hide ClassifyTop, PartAt, TrimRight;
    if n > 0 {
      NoBodyYet(ls, d, n - 1);
      DecisionEarlier(ls, n - 1);
    }
  }

  lemma AmongDecisions(ls: seq<string>, n: nat, st: DesignMarkdown.State)
    requires n <= |ls| && PlaceAgrees(ls, n, st)
    ensures DesignMarkdown.AmongDecisions(st.place) <==> PartAt(ls, n) == Decisions
  {
    hide ClassifyTop, TextsUpTo, BodyUpTo, PartAt, DecisionName, TrimRight, DecisionsUpTo, ExtrasUpTo, DecisionOver, SectionOver;
  }

  /** A line that is no heading of any sort: its place, and the section or the decision that it belongs to. */
  lemma PlainPlace(ls: seq<string>, n: nat, st: DesignMarkdown.State)
    requires n < |ls| && PlaceAgrees(ls, n, st) && !ClassifyTop(ls[n]).SectionHead? && !DecisionHead(ls, n)
    ensures PlaceAgrees(ls, n + 1, DesignMarkdown.Line(st, ls[n]))
  {
    hide ClassifyTop, PartAt, ExtrasUpTo, DecisionsUpTo, SectionOver, DecisionOver, TextsUpTo, BodyUpTo, DecisionName, TrimRight,
      DesignMarkdown.Flush, DesignMarkdown.ParseFileChange, TrimSpace;
    AmongDecisions(ls, n, st);
    SamePart(ls, n);
    SameDecision(ls, n);
    if SectionOver(ls, n).Some? { TextsMore(ls, SectionOver(ls, n).value, n); }
    if DecisionOver(ls, n).Some? { BodyMore(ls, DecisionOver(ls, n).value, n); }
  }

  lemma ProseMore(ls: seq<string>, p: Part, n: nat)
    requires n < |ls|
    ensures ProseUpTo(ls, p, n + 1) == if In(ls, p, n) then ProseUpTo(ls, p, n) + [ClassifyTop(ls[n]).text] else ProseUpTo(ls, p, n)
  {
    hide ClassifyTop, In;
  }

  lemma ChangesMore(ls: seq<string>, n: nat)
    requires n < |ls|
    ensures Changed(ls, n) ==> ChangesUpTo(ls, n + 1) == ChangesUpTo(ls, n) + [DesignMarkdown.ParseFileChange(ClassifyTop(ls[n]).text).value]
    ensures !Changed(ls, n) ==> ChangesUpTo(ls, n + 1) == ChangesUpTo(ls, n)
  {
    hide ClassifyTop, DesignMarkdown.ParseFileChange, PartAt;
  }

  /** The parser's place tells the part of the design. */
  lemma PlaceIsPart(ls: seq<string>, n: nat, st: DesignMarkdown.State)
    requires n <= |ls| && PlaceAgrees(ls, n, st)
    ensures st.place.InTechnical? <==> PartAt(ls, n) == Technical
    ensures st.place.InDataFlow? <==> PartAt(ls, n) == DataFlow
    ensures st.place.InFileChanges? <==> PartAt(ls, n) == FileChanges
  {
    hide ClassifyTop, TextsUpTo, BodyUpTo, PartAt, DecisionName, TrimRight, DecisionsUpTo, ExtrasUpTo, DecisionOver, SectionOver;
  }

  lemma LineText(ls: seq<string>, n: nat, st: DesignMarkdown.State)
    requires n < |ls| && TextAgrees(ls, n, st) && PlaceAgrees(ls, n, st)
    ensures TextAgrees(ls, n + 1, DesignMarkdown.Line(st, ls[n]))
  {
    hide ClassifyTop, PlaceAgrees, PartAt, ProseUpTo, ChangesUpTo, DesignMarkdown.ParseFileChange, TrimRight, TrimSpace;
    PlaceIsPart(ls, n, st);
    AmongDecisions(ls, n, st);
    ProseMore(ls, Technical, n);
    ProseMore(ls, DataFlow, n);
    ChangesMore(ls, n);
    if "### Decision:" <= TrimRight(ls[n]) { DecisionIsProse(ls[n]); }
    assert !ClassifyTop(ls[n]).ScenarioHead? && !ClassifyTop(ls[n]).RequirementHead? by { TopLine(ls[n]); }
  }

  lemma TopLine(raw: string)
    ensures !ClassifyTop(raw).ScenarioHead? && !ClassifyTop(raw).RequirementHead?
  {
    hide TrimRight, TrimSpace;
  }

  lemma LinePlace(ls: seq<string>, n: nat, st: DesignMarkdown.State)
    requires n < |ls| && PlaceAgrees(ls, n, st)
    ensures PlaceAgrees(ls, n + 1, DesignMarkdown.Line(st, ls[n]))
  {
    hide ClassifyTop, PlaceAgrees, PartAt, TrimRight, TrimSpace, DesignMarkdown.Flush, DesignMarkdown.TakeLine, DesignMarkdown.PlaceOf, Closed;
    AmongDecisions(ls, n, st);
    if DecisionHead(ls, n) {
      DecisionPlace(ls, n, st, DesignMarkdown.Line(st, ls[n]));
    } else if ClassifyTop(ls[n]).SectionHead? {
      FlushAgrees(ls, n, st);
      SectionLine(ls, n, st);
    } else {
      PlainPlace(ls, n, st);
    }
  }

  lemma SectionLine(ls: seq<string>, n: nat, st: DesignMarkdown.State)
    requires n < |ls| && ClassifyTop(ls[n]).SectionHead? && Closed(ls, n, DesignMarkdown.Flush(st))
    requires DesignMarkdown.AmongDecisions(st.place) <==> PartAt(ls, n) == Decisions
    ensures PlaceAgrees(ls, n + 1, DesignMarkdown.Line(st, ls[n]))
  {
    hide ClassifyTop, PlaceAgrees, PartAt, TrimRight, TrimSpace, DesignMarkdown.Flush, DesignMarkdown.PlaceOf, DecisionsUpTo, ExtrasUpTo;
    if "### Decision:" <= TrimRight(ls[n]) { DecisionIsProse(ls[n]); }
    SectionPlace(ls, n, DesignMarkdown.Line(st, ls[n]));
  }

  ghost predicate Agrees(ls: seq<string>, n: nat, st: DesignMarkdown.State)
    requires n <= |ls|
  {
    TextAgrees(ls, n, st) && PlaceAgrees(ls, n, st)
  }

  lemma NoLines(ls: seq<string>)
    ensures Agrees(ls, 0, DesignMarkdown.START)
  {
    hide ClassifyTop;
  }

  lemma {:induction false} LinesAgree(ls: seq<string>, n: nat)
    requires n <= |ls|
    ensures Agrees(ls, n, Fold(DesignMarkdown.Line, DesignMarkdown.START, ls[..n]))
    decreases n
  {
    hide TextAgrees, PlaceAgrees, DesignMarkdown.Line;
    if n == 0 {
      NoLines(ls);
      assert ls[..0] == [];
    } else {
      LinesAgree(ls, n - 1);
      FoldSnoc(DesignMarkdown.Line, DesignMarkdown.START, ls, n - 1);
      var st := Fold(DesignMarkdown.Line, DesignMarkdown.START, ls[..n - 1]);
      LineText(ls, n - 1, st);
      LinePlace(ls, n - 1, st);
    }
  }

  /** The parser returns what the text means. */
  lemma ParseIsMeaning(text: string)
    ensures DesignMarkdown.Parse(text) == Meaning(text)
  {
    hide DesignMarkdown.Line, Split, DesignMarkdown.Flush, PlaceAgrees;
    var ls := Split(text);
    LinesAgree(ls, |ls|);
    assert ls[..|ls|] == ls;
    FlushAgrees(ls, |ls|, Fold(DesignMarkdown.Line, DesignMarkdown.START, ls));
  }
}

/** What a proposal text means, without a parser. */
module ProposalMeaning {
  import opened Text
  import opened OpenSpec
  import opened Markdown
  import opened LineForms
  import opened SectionMeaning
  import opened Leniency
  import ProposalMarkdown

  datatype Part = Intent | Scope | Approach | Extra | Nowhere

  function PartOf(h: Option<string>): Part {
    if h.None? then Nowhere
    else if Begins(h.value, "intent") then Intent
    else if Begins(h.value, "scope") then Scope
    else if Begins(h.value, "approach") then Approach
    else Extra
  }

  /** The part of the proposal that line `n` stands in. */
  function PartAt(ls: seq<string>, n: nat): Part
    requires n <= |ls|
  {
    PartOf(HeadingOver(ls, n))
  }

  predicate In(ls: seq<string>, p: Part, i: nat)
    requires i < |ls|
  {
    ClassifyTop(ls[i]).Other? && PartAt(ls, i) == p
  }

  /** All text lines in that part, through all its sections. */
  function ProseUpTo(ls: seq<string>, p: Part, n: nat): seq<string>
    requires n <= |ls|
  {
    if n == 0 then [] else ProseUpTo(ls, p, n - 1) + if In(ls, p, n - 1) then [ClassifyTop(ls[n - 1]).text] else []
  }

  /** Whether the last label before line `n` in its section excludes; without one a section includes. */
  ghost predicate ExcludedAt(ls: seq<string>, n: nat)
    requires n <= |ls|
  {
    if n == 0 || ClassifyTop(ls[n - 1]).SectionHead? then false
    else if ClassifyTop(ls[n - 1]).Other? && Including(ClassifyTop(ls[n - 1]).text) then false
    else if ClassifyTop(ls[n - 1]).Other? && Excluding(ClassifyTop(ls[n - 1]).text) then true
    else ExcludedAt(ls, n - 1)
  }

  /** A scope bullet that is no label. */
  ghost predicate Item(ls: seq<string>, excluded: bool, i: nat)
    requires i < |ls|
  {
    && In(ls, Scope, i) && !Including(ClassifyTop(ls[i]).text) && !Excluding(ClassifyTop(ls[i]).text)
    && BulletBody(ClassifyTop(ls[i]).text).Some? && ExcludedAt(ls, i) == excluded
  }

  ghost function ItemsUpTo(ls: seq<string>, excluded: bool, n: nat): seq<string>
    requires n <= |ls|
  {
    if n == 0 then []
    else ItemsUpTo(ls, excluded, n - 1) + if Item(ls, excluded, n - 1) then [BulletBody(ClassifyTop(ls[n - 1]).text).value] else []
  }

  predicate ExtraHead(ls: seq<string>, s: nat)
    requires s < |ls|
  {
    ClassifyTop(ls[s]).SectionHead? && PartOf(Some(ClassifyTop(ls[s]).heading)) == Extra
  }

  /** The other sections that begin before line `m`, with their text before line `n`. */
  function ExtrasUpTo(ls: seq<string>, m: nat, n: nat): seq<ExtraSection>
    requires m <= |ls| && n <= |ls|
  {
    if m == 0 then []
    else ExtrasUpTo(ls, m - 1, n) +
         if ExtraHead(ls, m - 1) then [ExtraSection(ClassifyTop(ls[m - 1]).heading, Collected(TextsUpTo(ls, m - 1, n)))] else []
  }

  ghost function Meaning(text: string): Proposal {
    var ls := Split(text);
    var n := |ls|;
    Proposal(TitleUpTo(ls, n), Collected(ProseUpTo(ls, Intent, n)), ItemsUpTo(ls, false, n), ItemsUpTo(ls, true, n),
             Collected(ProseUpTo(ls, Approach, n)), ExtrasUpTo(ls, n, n))
  }

  // ---------------------------------------------------------------------------------------
  // The parser keeps exactly that
  // ---------------------------------------------------------------------------------------

  lemma {:induction false} ExtrasStay(ls: seq<string>, m: nat, n: nat)
    requires m <= n < |ls| && forall s | 0 <= s < m && ExtraHead(ls, s) :: !Under(ls, s, n)
    ensures ExtrasUpTo(ls, m, n + 1) == ExtrasUpTo(ls, m, n)
    decreases m
  {
    hide ClassifyTop, ExtraHead, Under, TextsUpTo;
    if m > 0 {
      ExtrasStay(ls, m - 1, n);
      if ExtraHead(ls, m - 1) { TextsMore(ls, m - 1, n); }
    }
  }

  lemma {:induction false} ExtrasEnd(ls: seq<string>, m: nat, m': nat, n: nat)
    requires m <= m' <= |ls| && n <= |ls| && forall s | m <= s < m' :: !ExtraHead(ls, s)
    ensures ExtrasUpTo(ls, m', n) == ExtrasUpTo(ls, m, n)
    decreases m'
  {
    hide ClassifyTop, ExtraHead;
    if m' > m { ExtrasEnd(ls, m, m' - 1, n); }
  }

  lemma ProseMore(ls: seq<string>, p: Part, n: nat)
    requires n < |ls|
    ensures ProseUpTo(ls, p, n + 1) == if In(ls, p, n) then ProseUpTo(ls, p, n) + [ClassifyTop(ls[n]).text] else ProseUpTo(ls, p, n)
  {
    hide ClassifyTop, In;
  }

  lemma ItemsMore(ls: seq<string>, excluded: bool, n: nat)
    requires n < |ls|
    ensures Item(ls, excluded, n) ==>
              ItemsUpTo(ls, excluded, n + 1) == ItemsUpTo(ls, excluded, n) + [BulletBody(ClassifyTop(ls[n]).text).value]
    ensures !Item(ls, excluded, n) ==> ItemsUpTo(ls, excluded, n + 1) == ItemsUpTo(ls, excluded, n)
  {
    hide ClassifyTop, BulletBody, Including, Excluding;
  }

  /** Where the parser is. */
  ghost predicate PlaceAgrees(ls: seq<string>, n: nat, place: ProposalMarkdown.Place, extras: seq<ExtraSection>)
    requires n <= |ls|
  {
    match PartAt(ls, n)
    case Nowhere => place == ProposalMarkdown.Outside && extras == ExtrasUpTo(ls, n, n)
    case Intent => place == ProposalMarkdown.InIntent && extras == ExtrasUpTo(ls, n, n)
    case Scope => place == ProposalMarkdown.InScope(ExcludedAt(ls, n)) && extras == ExtrasUpTo(ls, n, n)
    case Approach => place == ProposalMarkdown.InApproach && extras == ExtrasUpTo(ls, n, n)
    case Extra =>
      var s := SectionOver(ls, n).value;
      && place == ProposalMarkdown.InExtra(ClassifyTop(ls[s]).heading, TextsUpTo(ls, s, n))
      && extras == ExtrasUpTo(ls, s, n)
  }

  ghost predicate TextAgrees(ls: seq<string>, n: nat, st: ProposalMarkdown.State)
    requires n <= |ls|
  {
    && st.title == TitleUpTo(ls, n) && st.intent == ProseUpTo(ls, Intent, n) && st.approach == ProseUpTo(ls, Approach, n)
    && st.scopeIn == ItemsUpTo(ls, false, n) && st.scopeOut == ItemsUpTo(ls, true, n)
  }

  ghost predicate Agrees(ls: seq<string>, n: nat, st: ProposalMarkdown.State)
    requires n <= |ls|
  {
    TextAgrees(ls, n, st) && PlaceAgrees(ls, n, st.place, st.extras)
  }

  lemma FlushAgrees(ls: seq<string>, n: nat, st: ProposalMarkdown.State)
    requires n <= |ls| && PlaceAgrees(ls, n, st.place, st.extras)
    ensures ProposalMarkdown.Flush(st).extras == ExtrasUpTo(ls, n, n)
    ensures ProposalMarkdown.Flush(st) == st.(extras := ExtrasUpTo(ls, n, n), place := ProposalMarkdown.Flush(st).place)
  {
    hide ClassifyTop, TextsUpTo, Begins;
    if PartAt(ls, n) == Extra {
      var s := SectionOver(ls, n).value;
      ExtrasEnd(ls, s + 1, n, n);
    }
  }

  lemma Unprosed(ls: seq<string>, n: nat, st: ProposalMarkdown.State)
    requires n < |ls| && TextAgrees(ls, n, st) && !ClassifyTop(ls[n]).Other?
    ensures TextAgrees(ls, n + 1, st.(title := if ClassifyTop(ls[n]).TitleHead? then ClassifyTop(ls[n]).title else st.title))
  {
    hide ClassifyTop, PartAt, BulletBody, Including, Excluding;
    ProseMore(ls, Intent, n);
    ProseMore(ls, Approach, n);
    ItemsMore(ls, false, n);
    ItemsMore(ls, true, n);
  }

  /** A line that is no section heading stands where the line before it stands. */
  lemma SamePart(ls: seq<string>, n: nat)
    requires n < |ls| && !ClassifyTop(ls[n]).SectionHead?
    ensures SectionOver(ls, n + 1) == SectionOver(ls, n) && PartAt(ls, n + 1) == PartAt(ls, n)
    ensures PartAt(ls, n) == Extra ==> SectionOver(ls, n).Some?
    ensures PartAt(ls, n) != Extra ==> ExtrasUpTo(ls, n + 1, n + 1) == ExtrasUpTo(ls, n, n)
    ensures PartAt(ls, n) == Extra ==> ExtrasUpTo(ls, SectionOver(ls, n).value, n + 1) == ExtrasUpTo(ls, SectionOver(ls, n).value, n)
  {
    hide ClassifyTop, PartOf;
    NoPart();
    if PartAt(ls, n) == Extra {
      ExtrasStay(ls, SectionOver(ls, n).value, n);
    } else {
      ExtrasStay(ls, n, n);
      ExtrasEnd(ls, n, n + 1, n + 1);
    }
  }

  lemma NoPart()
    ensures PartOf(None) == Nowhere
  {
  }

  lemma ExcludedMore(ls: seq<string>, n: nat)
    requires n < |ls| && !ClassifyTop(ls[n]).SectionHead?
    ensures ExcludedAt(ls, n + 1) ==
            if ClassifyTop(ls[n]).Other? && Including(ClassifyTop(ls[n]).text) then false
            else if ClassifyTop(ls[n]).Other? && Excluding(ClassifyTop(ls[n]).text) then true
            else ExcludedAt(ls, n)
  {
    hide ClassifyTop, Including, Excluding;
  }

  lemma QuietPlace(ls: seq<string>, n: nat, place: ProposalMarkdown.Place, extras: seq<ExtraSection>)
    requires n < |ls| && PlaceAgrees(ls, n, place, extras) && !ClassifyTop(ls[n]).Other? && !ClassifyTop(ls[n]).SectionHead?
    ensures PlaceAgrees(ls, n + 1, place, extras)
  {
    hide ClassifyTop, PartAt, ExtrasUpTo, ExcludedAt, SectionOver, TextsUpTo;
    SamePart(ls, n);
    ExcludedMore(ls, n);
    if SectionOver(ls, n).Some? { TextsMore(ls, SectionOver(ls, n).value, n); }
  }

  lemma SectionPlace(ls: seq<string>, n: nat, extras: seq<ExtraSection>)
    requires n < |ls| && ClassifyTop(ls[n]).SectionHead? && extras == ExtrasUpTo(ls, n, n)
    ensures PlaceAgrees(ls, n + 1, ProposalMarkdown.PlaceOf(ClassifyTop(ls[n]).heading), extras)
  {
    hide ClassifyTop, ProposalMarkdown.PlaceOf, Begins, Including, Excluding;
    ProposalPlaces(ClassifyTop(ls[n]).heading);
    ExtrasStay(ls, n, n);
    NoTextsYet(ls, n, n + 1);
    if !ExtraHead(ls, n) { ExtrasEnd(ls, n, n + 1, n + 1); }
  }

  /** What a text line does, by the part that it stands in. */
  lemma ProsePlace(ls: seq<string>, n: nat, st: ProposalMarkdown.State)
    requires n < |ls| && PlaceAgrees(ls, n, st.place, st.extras) && ClassifyTop(ls[n]).Other?
    ensures var st' := ProposalMarkdown.Line(st, ls[n]); PlaceAgrees(ls, n + 1, st'.place, st'.extras)
  {
    hide ClassifyTop, PartAt, ExtrasUpTo, ExcludedAt, SectionOver, TextsUpTo, BulletBody, Including, Excluding, Lower;
    ScopeLabels(ClassifyTop(ls[n]).text);
    LabelsApart(ClassifyTop(ls[n]).text);
    SamePart(ls, n);
    ExcludedMore(ls, n);
    if SectionOver(ls, n).Some? { TextsMore(ls, SectionOver(ls, n).value, n); }
  }

  lemma LabelsApart(t: string)
    ensures !(Including(t) && Excluding(t))
  {
    hide Begins;
    if Excluding(t) { OneLabel(t); }
  }

  lemma ProseText(ls: seq<string>, n: nat, st: ProposalMarkdown.State)
    requires n < |ls| && Agrees(ls, n, st) && ClassifyTop(ls[n]).Other?
    ensures TextAgrees(ls, n + 1, ProposalMarkdown.Line(st, ls[n]))
  {
    hide ClassifyTop, PartAt, ExtrasUpTo, ExcludedAt, TextsUpTo, BulletBody, Including, Excluding, Lower, ProseUpTo, ItemsUpTo, SectionOver;
    ScopeLabels(ClassifyTop(ls[n]).text);
    ProseMore(ls, Intent, n);
    ProseMore(ls, Approach, n);
    ItemsMore(ls, false, n);
    ItemsMore(ls, true, n);
  }

  lemma ProseLine(ls: seq<string>, n: nat, st: ProposalMarkdown.State)
    requires n < |ls| && Agrees(ls, n, st) && ClassifyTop(ls[n]).Other?
    ensures Agrees(ls, n + 1, ProposalMarkdown.Line(st, ls[n]))
  {
    hide TextAgrees, PlaceAgrees, ProposalMarkdown.Line, ClassifyTop;
    assert TextAgrees(ls, n + 1, ProposalMarkdown.Line(st, ls[n])) by { ProseText(ls, n, st); }
    ProsePlace(ls, n, st);
  }

  lemma OneMoreLine(ls: seq<string>, n: nat, st: ProposalMarkdown.State)
    requires n < |ls| && Agrees(ls, n, st)
    ensures Agrees(ls, n + 1, ProposalMarkdown.Line(st, ls[n]))
  {
    hide ClassifyTop, TextAgrees, PlaceAgrees, ProposalMarkdown.Flush;
    TopLine(ls[n]);
    if ClassifyTop(ls[n]).Other? {
      ProseLine(ls, n, st);
    } else if ClassifyTop(ls[n]).SectionHead? {
      FlushAgrees(ls, n, st);
      SectionPlace(ls, n, ProposalMarkdown.Flush(st).extras);
      Unprosed(ls, n, st);
      SameText(ls, n + 1, st, ProposalMarkdown.Line(st, ls[n]));
    } else {
      QuietPlace(ls, n, st.place, st.extras);
      Unprosed(ls, n, st);
    }
  }

  lemma TopLine(raw: string)
    ensures !ClassifyTop(raw).ScenarioHead? && !ClassifyTop(raw).RequirementHead?
  {
    hide TrimRight, TrimSpace;
  }

  lemma SameText(ls: seq<string>, n: nat, st: ProposalMarkdown.State, st': ProposalMarkdown.State)
    requires n <= |ls| && TextAgrees(ls, n, st)
    requires st' == st.(place := st'.place, extras := st'.extras)
    ensures TextAgrees(ls, n, st')
  {
    hide ProseUpTo, ItemsUpTo;
  }

  lemma NoLines(ls: seq<string>)
    ensures Agrees(ls, 0, ProposalMarkdown.START)
  {
    hide ClassifyTop;
  }

  lemma {:induction false} LinesAgree(ls: seq<string>, n: nat)
    requires n <= |ls|
    ensures Agrees(ls, n, Fold(ProposalMarkdown.Line, ProposalMarkdown.START, ls[..n]))
    decreases n
  {
    hide Agrees, ProposalMarkdown.Line;
    if n == 0 {
      NoLines(ls);
      assert ls[..0] == [];
    } else {
      LinesAgree(ls, n - 1);
      FoldSnoc(ProposalMarkdown.Line, ProposalMarkdown.START, ls, n - 1);
      OneMoreLine(ls, n - 1, Fold(ProposalMarkdown.Line, ProposalMarkdown.START, ls[..n - 1]));
    }
  }

  /** The parser returns what the text means. */
  lemma ParseIsMeaning(text: string)
    ensures ProposalMarkdown.Parse(text) == Meaning(text)
  {
    hide ProposalMarkdown.Line, Split, ProposalMarkdown.Flush, PlaceAgrees;
    var ls := Split(text);
    LinesAgree(ls, |ls|);
    assert ls[..|ls|] == ls;
    FlushAgrees(ls, |ls|, Fold(ProposalMarkdown.Line, ProposalMarkdown.START, ls));
  }
}

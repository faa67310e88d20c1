/**
What a spec text means, without a parser: every line counts for the headings that it stands under. The parser computes
exactly that.
*/
module SpecMeaning {
  import opened Text
  import opened OpenSpec
  import opened Markdown
  import opened LineForms
  import opened RequirementBlock
  import opened SpecMarkdown

  // ---------------------------------------------------------------------------------------
  // The headings that a line stands under
  // ---------------------------------------------------------------------------------------

  /** The last section heading before line `n`. */
  function SectionBefore(ls: seq<string>, n: nat): Option<string>
    requires n <= |ls|
  {
    if n == 0 then None
    else if Classify(ls[n - 1]).SectionHead? then Some(Classify(ls[n - 1]).heading)
    else SectionBefore(ls, n - 1)
  }

  /** The requirement heading that line `n` stands under: the last one, unless a section has begun since. */
  function RequirementOver(ls: seq<string>, n: nat): Option<nat>
    requires n <= |ls|
  {
    if n == 0 || Classify(ls[n - 1]).SectionHead? then None
    else if Classify(ls[n - 1]).RequirementHead? then Some(n - 1)
    else RequirementOver(ls, n - 1)
  }

  /** The scenario heading of that requirement that line `n` stands under: the last one. */
  function ScenarioOver(ls: seq<string>, n: nat): Option<nat>
    requires n <= |ls|
  {
    if n == 0 || Classify(ls[n - 1]).SectionHead? || Classify(ls[n - 1]).RequirementHead? then None
    else if Classify(ls[n - 1]).ScenarioHead? then (if RequirementOver(ls, n - 1).Some? then Some(n - 1) else None)
    else ScenarioOver(ls, n - 1)
  }

  predicate InPurposeSection(ls: seq<string>, n: nat)
    requires n <= |ls|
  {
    SectionBefore(ls, n).Some? && Spells(SectionBefore(ls, n).value, "purpose")
  }

  lemma {:induction false} OverEarlier(ls: seq<string>, n: nat)
    requires n <= |ls|
    ensures RequirementOver(ls, n).Some? ==>
              var j := RequirementOver(ls, n).value;
              j < n && Classify(ls[j]).RequirementHead? && forall i | j < i < n :: !Classify(ls[i]).RequirementHead? && !Classify(ls[i]).SectionHead?
    ensures ScenarioOver(ls, n).Some? ==>
              var k := ScenarioOver(ls, n).value;
              && k < n && Classify(ls[k]).ScenarioHead? && RequirementOver(ls, n).Some? && RequirementOver(ls, k) == RequirementOver(ls, n)
              && RequirementOver(ls, n).value < k
              && forall i | k < i < n :: !Classify(ls[i]).ScenarioHead?
  {
    hide Classify;
    if n > 0 { OverEarlier(ls, n - 1); }
  }

  // ---------------------------------------------------------------------------------------
  // What the lines before line `n` mean
  // ---------------------------------------------------------------------------------------

  predicate IsStep(ls: seq<string>, k: nat, i: nat)
    requires i < |ls|
  {
    Classify(ls[i]).Other? && ScenarioOver(ls, i) == Some(k) && BulletBody(Classify(ls[i]).text).Some?
  }

  /** The bullets of scenario heading `k`. */
  function StepsUpTo(ls: seq<string>, k: nat, n: nat): seq<Step>
    requires n <= |ls|
  {
    if n == 0 then []
    else StepsUpTo(ls, k, n - 1) + if IsStep(ls, k, n - 1) then [ParseStep(BulletBody(Classify(ls[n - 1]).text).value)] else []
  }

  predicate IsStatement(ls: seq<string>, j: nat, i: nat)
    requires i < |ls|
  {
    Classify(ls[i]).Other? && RequirementOver(ls, i) == Some(j) && ScenarioOver(ls, i) == None && !InPurposeSection(ls, i)
  }

  /** The prose of requirement heading `j` before its first scenario. */
  function StatementUpTo(ls: seq<string>, j: nat, n: nat): seq<string>
    requires n <= |ls|
  {
    if n == 0 then [] else StatementUpTo(ls, j, n - 1) + if IsStatement(ls, j, n - 1) then [Classify(ls[n - 1]).text] else []
  }

  predicate IsScenario(ls: seq<string>, j: nat, k: nat)
    requires k < |ls|
  {
    Classify(ls[k]).ScenarioHead? && RequirementOver(ls, k) == Some(j)
  }

  /** The scenarios of requirement heading `j` that begin before line `m`, with their steps before line `n`. */
  function ScenariosUpTo(ls: seq<string>, j: nat, m: nat, n: nat): seq<Scenario>
    requires m <= |ls| && n <= |ls|
  {
    if m == 0 then []
    else ScenariosUpTo(ls, j, m - 1, n) + if IsScenario(ls, j, m - 1) then [Scenario(Classify(ls[m - 1]).name, StepsUpTo(ls, m - 1, n))] else []
  }

  function OneRequirement(ls: seq<string>, j: nat, n: nat): Requirement
    requires j < |ls| && n <= |ls| && Classify(ls[j]).RequirementHead?
  {
    Requirement(Classify(ls[j]).name, Collected(StatementUpTo(ls, j, n)), ScenariosUpTo(ls, j, n, n))
  }

  /** The requirements that begin before line `m`, with what is said of them before line `n`. */
  function RequirementsUpTo(ls: seq<string>, m: nat, n: nat): seq<Requirement>
    requires m <= |ls| && n <= |ls|
  {
    if m == 0 then []
    else RequirementsUpTo(ls, m - 1, n) + if Classify(ls[m - 1]).RequirementHead? then [OneRequirement(ls, m - 1, n)] else []
  }

  predicate IsPurpose(ls: seq<string>, i: nat)
    requires i < |ls|
  {
    && Classify(ls[i]).Other? && InPurposeSection(ls, i)
    && !(ScenarioOver(ls, i).Some? && BulletBody(Classify(ls[i]).text).Some?)
  }

  function PurposeUpTo(ls: seq<string>, n: nat): seq<string>
    requires n <= |ls|
  {
    if n == 0 then [] else PurposeUpTo(ls, n - 1) + if IsPurpose(ls, n - 1) then [Classify(ls[n - 1]).text] else []
  }

  /** The last title. */
  function TitleUpTo(ls: seq<string>, n: nat): string
    requires n <= |ls|
  {
    if n == 0 then "" else if Classify(ls[n - 1]).TitleHead? then Classify(ls[n - 1]).title else TitleUpTo(ls, n - 1)
  }

  /** Every scenario that stands under no requirement. */
  function WarningsUpTo(ls: seq<string>, n: nat): seq<Warning>
    requires n <= |ls|
  {
    if n == 0 then []
    else WarningsUpTo(ls, n - 1) +
         if Classify(ls[n - 1]).ScenarioHead? && RequirementOver(ls, n - 1) == None then [EarlyScenario(Classify(ls[n - 1]).name)] else []
  }

  function Meaning(text: string): Spec {
    var ls := Split(text);
    Spec("", TitleUpTo(ls, |ls|), Collected(PurposeUpTo(ls, |ls|)), RequirementsUpTo(ls, |ls|, |ls|), WarningsUpTo(ls, |ls|))
  }

  // ---------------------------------------------------------------------------------------
  // What a further line does not change
  // ---------------------------------------------------------------------------------------

  lemma StepsStay(ls: seq<string>, k: nat, n: nat)
    requires n < |ls| && !IsStep(ls, k, n)
    ensures StepsUpTo(ls, k, n + 1) == StepsUpTo(ls, k, n)
  {
  }

  lemma StatementStays(ls: seq<string>, j: nat, n: nat)
    requires n < |ls| && !IsStatement(ls, j, n)
    ensures StatementUpTo(ls, j, n + 1) == StatementUpTo(ls, j, n)
  {
  }

  /** The scenarios of a requirement that line `n` does not stand under, or all of them if the line is no step, stay as they are. */
  lemma {:induction false} ScenariosStay(ls: seq<string>, j: nat, m: nat, n: nat)
    requires m <= n < |ls| && forall k | 0 <= k < m && IsScenario(ls, j, k) :: !IsStep(ls, k, n)
    ensures ScenariosUpTo(ls, j, m, n + 1) == ScenariosUpTo(ls, j, m, n)
    decreases m
  {
    hide IsStep, IsScenario;
    if m > 0 {
      ScenariosStay(ls, j, m - 1, n);
      if IsScenario(ls, j, m - 1) { StepsStay(ls, m - 1, n); }
    }
  }

  /** No scenario of `j` begins after its last scenario heading. */
  lemma {:induction false} ScenariosEnd(ls: seq<string>, j: nat, m: nat, m': nat, n: nat)
    requires m <= m' <= |ls| && n <= |ls| && forall k | m <= k < m' :: !IsScenario(ls, j, k)
    ensures ScenariosUpTo(ls, j, m', n) == ScenariosUpTo(ls, j, m, n)
    decreases m'
  {
    hide IsScenario;
    if m' > m { ScenariosEnd(ls, j, m, m' - 1, n); }
  }

  /** A line that says nothing of the requirement that it stands under. */
  predicate Silent(ls: seq<string>, n: nat)
    requires n < |ls|
  {
    !Classify(ls[n]).Other? && !Classify(ls[n]).ScenarioHead?
  }

  /** Requirements that line `n` does not stand under, or says nothing of, stay as they are. */
  lemma {:induction false} RequirementsStay(ls: seq<string>, m: nat, n: nat)
    requires m <= n < |ls| && (Silent(ls, n) || forall j | 0 <= j < m :: RequirementOver(ls, n) != Some(j))
    ensures RequirementsUpTo(ls, m, n + 1) == RequirementsUpTo(ls, m, n)
    decreases m
  {
    hide Classify, IsStep, IsScenario, IsStatement;
    if m > 0 {
      RequirementsStay(ls, m - 1, n);
      if Classify(ls[m - 1]).RequirementHead? { OneStays(ls, m - 1, n); }
    }
  }

  lemma OneStays(ls: seq<string>, j: nat, n: nat)
    requires j < n < |ls| && Classify(ls[j]).RequirementHead? && (Silent(ls, n) || RequirementOver(ls, n) != Some(j))
    ensures OneRequirement(ls, j, n + 1) == OneRequirement(ls, j, n)
  {
    hide Classify;
    OverEarlier(ls, n);
    forall k | 0 <= k < n && IsScenario(ls, j, k) ensures !IsStep(ls, k, n) {}
    ScenariosStay(ls, j, n, n);
    ScenariosEnd(ls, j, n, n + 1, n + 1);
    StatementStays(ls, j, n);
  }

  /** No requirement begins after the one that line `n` stands under. */
  lemma {:induction false} RequirementsEnd(ls: seq<string>, m: nat, m': nat, n: nat)
    requires m <= m' <= |ls| && n <= |ls| && forall j | m <= j < m' :: !Classify(ls[j]).RequirementHead?
    ensures RequirementsUpTo(ls, m', n) == RequirementsUpTo(ls, m, n)
    decreases m'
  {
    hide Classify;
    if m' > m { RequirementsEnd(ls, m, m' - 1, n); }
  }

  // ---------------------------------------------------------------------------------------
  // The scenarios of the open requirement
  // ---------------------------------------------------------------------------------------

  /** Its scenarios are what the lines so far say of heading `j`. */
  ghost predicate ScenariosAgree(ls: seq<string>, j: nat, n: nat, o: Open)
    requires j < n <= |ls|
  {
    match ScenarioOver(ls, n)
    case None => o.scenario == None && o.scenarios == ScenariosUpTo(ls, j, n, n)
    case Some(k) =>
      && k < n && IsScenario(ls, j, k) && o.scenarios == ScenariosUpTo(ls, j, k, n)
      && o.scenario == Some(Scenario(Classify(ls[k]).name, StepsUpTo(ls, k, n)))
  }

  lemma ScenariosClosed(ls: seq<string>, j: nat, n: nat, o: Open)
    requires j < n <= |ls| && RequirementOver(ls, n) == Some(j) && ScenariosAgree(ls, j, n, o)
    ensures CloseScenario(o).scenarios == ScenariosUpTo(ls, j, n, n)
  {
    hide Classify, StepsUpTo, StatementUpTo;
    OverEarlier(ls, n);
    if ScenarioOver(ls, n).Some? {
      var k := ScenarioOver(ls, n).value;
      ScenariosEnd(ls, j, k + 1, n, n);
    }
  }

  /** A blank line or a title. */
  lemma ScenariosQuiet(ls: seq<string>, j: nat, n: nat, o: Open)
    requires j < n < |ls| && RequirementOver(ls, n) == Some(j) && ScenariosAgree(ls, j, n, o)
    requires Classify(ls[n]).Blank? || Classify(ls[n]).TitleHead?
    ensures ScenariosAgree(ls, j, n + 1, o) && RequirementOver(ls, n + 1) == Some(j)
  {
    hide Classify;
    if ScenarioOver(ls, n).Some? {
      ScenariosStay(ls, j, ScenarioOver(ls, n).value, n);
      StepsStay(ls, ScenarioOver(ls, n).value, n);
    } else {
      ScenariosStay(ls, j, n, n);
      ScenariosEnd(ls, j, n, n + 1, n + 1);
    }
  }

  /** A scenario heading. */
  lemma ScenariosOpened(ls: seq<string>, j: nat, n: nat, o: Open)
    requires j < n < |ls| && RequirementOver(ls, n) == Some(j) && ScenariosAgree(ls, j, n, o) && Classify(ls[n]).ScenarioHead?
    ensures ScenariosAgree(ls, j, n + 1, OpenScenario(o, Classify(ls[n]).name)) && RequirementOver(ls, n + 1) == Some(j)
    ensures OpenScenario(o, Classify(ls[n]).name).name == o.name && OpenScenario(o, Classify(ls[n]).name).statement == o.statement
  {
    hide Classify;
    ScenariosClosed(ls, j, n, o);
    ScenariosStay(ls, j, n, n);
    NothingYet(ls, n + 1, n);
  }

  /** Prose: a bullet in a scenario is a step, and nothing else is. */
  lemma ScenariosProse(ls: seq<string>, j: nat, n: nat, o: Open)
    requires j < n < |ls| && RequirementOver(ls, n) == Some(j) && ScenariosAgree(ls, j, n, o) && Classify(ls[n]).Other?
    ensures var t := Classify(ls[n]).text;
            && RequirementOver(ls, n + 1) == Some(j) && ScenariosAgree(ls, j, n + 1, TakeText(o, t))
            && (o.scenario.None? || BulletBody(t).None? ==> ScenariosAgree(ls, j, n + 1, o))
            && (o.scenario.Some? <==> ScenarioOver(ls, n).Some?)
  {
    hide Classify, BulletBody, ParseStep;
    OverEarlier(ls, n);
    if ScenarioOver(ls, n).Some? {
      var k := ScenarioOver(ls, n).value;
      ScenariosStay(ls, j, k, n);
      StepsMore(ls, k, n);
    } else {
      ScenariosStay(ls, j, n, n);
      ScenariosEnd(ls, j, n, n + 1, n + 1);
    }
  }

  lemma StepsMore(ls: seq<string>, k: nat, n: nat)
    requires n < |ls|
    ensures IsStep(ls, k, n) ==> StepsUpTo(ls, k, n + 1) == StepsUpTo(ls, k, n) + [ParseStep(BulletBody(Classify(ls[n]).text).value)]
    ensures !IsStep(ls, k, n) ==> StepsUpTo(ls, k, n + 1) == StepsUpTo(ls, k, n)
  {
    hide Classify, BulletBody, ParseStep;
  }

  lemma {:induction false} NoneOver(ls: seq<string>, m: nat, n: nat)
    requires m <= n < |ls|
    ensures RequirementOver(ls, m) != Some(n) && ScenarioOver(ls, m) != Some(n)
  {
    OverEarlier(ls, m);
  }

  /** Nothing is said of a heading before it. */
  lemma {:induction false} NothingYet(ls: seq<string>, m: nat, n: nat)
    requires m <= n + 1 && n < |ls| && (Classify(ls[n]).RequirementHead? || Classify(ls[n]).ScenarioHead?)
    ensures StatementUpTo(ls, n, m) == [] && StepsUpTo(ls, n, m) == [] && ScenariosUpTo(ls, n, m, n + 1) == []
    decreases m
  {
    hide Classify;
    if m > 0 {
      NothingYet(ls, m - 1, n);
      NoneOver(ls, m - 1, n);
    }
  }

  // ---------------------------------------------------------------------------------------
  // The parser keeps exactly that
  // ---------------------------------------------------------------------------------------

  /** The open requirement is what the lines so far say of heading `j`. */
  ghost predicate OpenAgrees(ls: seq<string>, j: nat, n: nat, o: Open)
    requires j < n <= |ls| && Classify(ls[j]).RequirementHead?
  {
    o.name == Classify(ls[j]).name && o.statement == StatementUpTo(ls, j, n) && ScenariosAgree(ls, j, n, o)
  }

  ghost predicate RequirementsAgree(ls: seq<string>, n: nat, done: seq<Requirement>, current: Option<Open>)
    requires n <= |ls|
  {
    match RequirementOver(ls, n)
    case None => current == None && done == RequirementsUpTo(ls, n, n)
    case Some(j) =>
      && j < n && Classify(ls[j]).RequirementHead? && done == RequirementsUpTo(ls, j, n)
      && current.Some? && OpenAgrees(ls, j, n, current.value)
  }

  ghost predicate Agrees(ls: seq<string>, n: nat, st: State)
    requires n <= |ls|
  {
    && st.title == TitleUpTo(ls, n) && (st.section == InPurpose <==> InPurposeSection(ls, n))
    && st.purpose == PurposeUpTo(ls, n) && st.warnings == WarningsUpTo(ls, n)
    && RequirementsAgree(ls, n, st.done, st.current)
  }

  /** Flushed, the requirements are all that the lines so far mean. */
  lemma FlushAgrees(ls: seq<string>, n: nat, st: State)
    requires n <= |ls| && RequirementsAgree(ls, n, st.done, st.current)
    ensures Flush(st).done == RequirementsUpTo(ls, n, n) && Flush(st) == st.(done := Flush(st).done, current := None)
  {
    hide Classify, ScenariosAgree, CloseScenario, ScenarioOver;
    OverEarlier(ls, n);
    if RequirementOver(ls, n).Some? {
      var j := RequirementOver(ls, n).value;
      ScenariosClosed(ls, j, n, st.current.value);
      RequirementsEnd(ls, j + 1, n, n);
    }
  }

  /** A blank line or a title. */
  lemma QuietLine(ls: seq<string>, n: nat, st: State)
    requires n < |ls| && Agrees(ls, n, st) && (Classify(ls[n]).Blank? || Classify(ls[n]).TitleHead?)
    ensures Agrees(ls, n + 1, SpecMarkdown.Line(st, ls[n]))
  {
    hide Classify, ScenariosAgree;
    OverEarlier(ls, n);
    if RequirementOver(ls, n).Some? {
      var j := RequirementOver(ls, n).value;
      RequirementsStay(ls, j, n);
      StatementStays(ls, j, n);
      ScenariosQuiet(ls, j, n, st.current.value);
    } else {
      RequirementsStay(ls, n, n);
    }
  }

  /** A requirement heading closes the requirement before it. */
  lemma RequirementLine(ls: seq<string>, n: nat, st: State)
    requires n < |ls| && Agrees(ls, n, st) && Classify(ls[n]).RequirementHead?
    ensures Agrees(ls, n + 1, SpecMarkdown.Line(st, ls[n]))
  {
    hide Classify, RequirementsAgree, Flush;
    FlushAgrees(ls, n, st);
    RequirementsStay(ls, n, n);
    FreshAgrees(ls, n, Flush(st).done);
  }

  lemma FreshAgrees(ls: seq<string>, n: nat, done: seq<Requirement>)
    requires n < |ls| && Classify(ls[n]).RequirementHead? && done == RequirementsUpTo(ls, n, n + 1)
    ensures RequirementsAgree(ls, n + 1, done, Some(Fresh(Classify(ls[n]).name)))
  {
    hide Classify, RequirementsUpTo, StatementUpTo, ScenariosUpTo, StepsUpTo;
    NothingYet(ls, n + 1, n);
  }

  /** A section closes the requirement before it. */
  lemma SectionLine(ls: seq<string>, n: nat, st: State)
    requires n < |ls| && Agrees(ls, n, st) && Classify(ls[n]).SectionHead?
    ensures Agrees(ls, n + 1, SpecMarkdown.Line(st, ls[n]))
  {
    hide Classify, Flush, SectionOf, Spells;
    FlushAgrees(ls, n, st);
    RequirementsStay(ls, n, n);
    PurposeHeading(Classify(ls[n]).heading);
  }

  lemma PurposeHeading(h: string)
    ensures SectionOf(h) == InPurpose <==> Spells(h, "purpose")
  {
    hide Lower, Spells;
    LowerIs("purpose", "purpose");
    CaseIgnored(h, "purpose");
  }

  /** A scenario heading opens a scenario of its requirement, and is a warning without one. */
  lemma ScenarioLine(ls: seq<string>, n: nat, st: State)
    requires n < |ls| && Agrees(ls, n, st) && Classify(ls[n]).ScenarioHead?
    ensures Agrees(ls, n + 1, SpecMarkdown.Line(st, ls[n]))
  {
    hide Classify, OpenScenario, ScenariosAgree;
    OverEarlier(ls, n);
    if RequirementOver(ls, n).Some? {
      var j := RequirementOver(ls, n).value;
      RequirementsStay(ls, j, n);
      StatementStays(ls, j, n);
      ScenariosOpened(ls, j, n, st.current.value);
    } else {
      RequirementsStay(ls, n, n);
    }
  }

  /** Prose: a step, a line of the purpose or of a statement, or nothing. */
  lemma ProseLine(ls: seq<string>, n: nat, st: State)
    requires n < |ls| && Agrees(ls, n, st) && Classify(ls[n]).Other?
    ensures Agrees(ls, n + 1, SpecMarkdown.Line(st, ls[n]))
  {
    hide Classify, BulletBody, ParseStep, InPurposeSection, ScenariosAgree;
    OverEarlier(ls, n);
    SectionStays(ls, n);
    if RequirementOver(ls, n).Some? {
      var j := RequirementOver(ls, n).value;
      RequirementsStay(ls, j, n);
      StatementMore(ls, j, n);
      ScenariosProse(ls, j, n, st.current.value);
    } else {
      RequirementsStay(ls, n, n);
    }
  }

  lemma SectionStays(ls: seq<string>, n: nat)
    requires n < |ls| && Classify(ls[n]).Other?
    ensures InPurposeSection(ls, n + 1) == InPurposeSection(ls, n)
  {
    hide Classify;
  }

  lemma StatementMore(ls: seq<string>, j: nat, n: nat)
    requires n < |ls|
    ensures StatementUpTo(ls, j, n + 1) == if IsStatement(ls, j, n) then StatementUpTo(ls, j, n) + [Classify(ls[n]).text] else StatementUpTo(ls, j, n)
  {
    hide IsStatement, Classify;
  }

  lemma OneMoreLine(ls: seq<string>, n: nat, st: State)
    requires n < |ls| && Agrees(ls, n, st)
    ensures Agrees(ls, n + 1, SpecMarkdown.Line(st, ls[n]))
  {
    hide Agrees, Classify, SpecMarkdown.Line;
    match Classify(ls[n])
    case Blank => QuietLine(ls, n, st);
    case TitleHead(_) => QuietLine(ls, n, st);
    case RequirementHead(_) => RequirementLine(ls, n, st);
    case SectionHead(_) => SectionLine(ls, n, st);
    case ScenarioHead(_) => ScenarioLine(ls, n, st);
    case Other(_) => ProseLine(ls, n, st);
  }

  lemma NoLines(ls: seq<string>)
    ensures Agrees(ls, 0, START)
  {
    hide Classify;
  }

  lemma {:induction false} LinesAgree(ls: seq<string>, n: nat)
    requires n <= |ls|
    ensures Agrees(ls, n, Fold(SpecMarkdown.Line, START, ls[..n]))
    decreases n
  {
    hide Agrees, SpecMarkdown.Line;
    if n == 0 {
      NoLines(ls);
      assert ls[..0] == [];
    } else {
      LinesAgree(ls, n - 1);
      FoldSnoc(SpecMarkdown.Line, START, ls, n - 1);
      OneMoreLine(ls, n - 1, Fold(SpecMarkdown.Line, START, ls[..n - 1]));
    }
  }

  /** The parser returns what the text means. */
  lemma ParseIsMeaning(text: string)
    ensures Parse(text) == Meaning(text)
  {
    hide SpecMarkdown.Line, Split, Flush, RequirementsAgree;
    var ls := Split(text);
    LinesAgree(ls, |ls|);
    assert ls[..|ls|] == ls;
    FlushAgrees(ls, |ls|, Fold(SpecMarkdown.Line, START, ls));
  }
}

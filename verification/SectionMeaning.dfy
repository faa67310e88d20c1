/** Texts that are divided by section headings only: the section that a line stands in, and what stands in a section. */
module SectionMeaning {
  import opened Text
  import opened Markdown

  /** The section heading that line `n` stands under: the last one before it. */
  function SectionOver(ls: seq<string>, n: nat): (s: Option<nat>)
    requires n <= |ls|
    ensures s.Some? ==> s.value < n && ClassifyTop(ls[s.value]).SectionHead?
    ensures s.Some? ==> forall i | s.value < i < n :: !ClassifyTop(ls[i]).SectionHead?
    ensures s.None? ==> forall i | 0 <= i < n :: !ClassifyTop(ls[i]).SectionHead?
  {
    if n == 0 then None else if ClassifyTop(ls[n - 1]).SectionHead? then Some(n - 1) else SectionOver(ls, n - 1)
  }

  function HeadingOver(ls: seq<string>, n: nat): Option<string>
    requires n <= |ls|
  {
    var s := SectionOver(ls, n);
    if s.None? then None else Some(ClassifyTop(ls[s.value]).heading)
  }

  /** The last title. */
  function TitleUpTo(ls: seq<string>, n: nat): string
    requires n <= |ls|
  {
    if n == 0 then "" else if ClassifyTop(ls[n - 1]).TitleHead? then ClassifyTop(ls[n - 1]).title else TitleUpTo(ls, n - 1)
  }

  predicate Under(ls: seq<string>, s: nat, i: nat)
    requires i < |ls|
  {
    ClassifyTop(ls[i]).Other? && SectionOver(ls, i) == Some(s)
  }

  /** The text lines of section heading `s`. */
  function TextsUpTo(ls: seq<string>, s: nat, n: nat): seq<string>
    requires n <= |ls|
  {
    if n == 0 then [] else TextsUpTo(ls, s, n - 1) + if Under(ls, s, n - 1) then [ClassifyTop(ls[n - 1]).text] else []
  }

  lemma TextsMore(ls: seq<string>, s: nat, n: nat)
    requires n < |ls|
    ensures TextsUpTo(ls, s, n + 1) == if Under(ls, s, n) then TextsUpTo(ls, s, n) + [ClassifyTop(ls[n]).text] else TextsUpTo(ls, s, n)
  {
    hide ClassifyTop, Under;
  }

  lemma {:induction false} NoTextsYet(ls: seq<string>, s: nat, n: nat)
    requires n <= s + 1 <= |ls| && ClassifyTop(ls[s]).SectionHead?
    ensures TextsUpTo(ls, s, n) == []
    decreases n
  {
    hide ClassifyTop;
    if n > 0 { NoTextsYet(ls, s, n - 1); }
  }
}

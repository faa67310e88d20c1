/** Requirement names as predicate key segments: slugs, and the minter that tells repeated slugs apart. */
module RequirementIds {
  import opened Text
  import opened Numerals

  // ---------------------------------------------------------------------------------------
  // Slugs
  // ---------------------------------------------------------------------------------------

  predicate SlugChar(c: char) {
    'a' <= c <= 'z' || '0' <= c <= '9'
  }

  /** Every run of other characters becomes one hyphen. */
  function Collapse(s: string, inRun: bool): string {
    if s == "" then ""
    else if SlugChar(s[0]) then [s[0]] + Collapse(s[1..], false)
    else (if inRun then "" else "-") + Collapse(s[1..], true)
  }

  function CutStart(s: string): string {
    if s != "" && s[0] == '-' then CutStart(s[1..]) else s
  }

  function CutEnd(s: string): string {
    if s != "" && s[|s| - 1] == '-' then CutEnd(s[..|s| - 1]) else s
  }

  function Slugify(s: string): string {
    CutEnd(CutStart(Collapse(Lower(TrimSpace(s)), false)))
  }

  predicate KeyChars(s: string) {
    forall i | 0 <= i < |s| :: SlugChar(s[i]) || s[i] == '-'
  }

  predicate DotFree(s: string) {
    forall i | 0 <= i < |s| :: s[i] != '.'
  }

  lemma {:induction false} CollapseChars(s: string, inRun: bool)
    ensures KeyChars(Collapse(s, inRun))
  {
    if s != "" {
      CollapseChars(s[1..], false);
      CollapseChars(s[1..], true);
    }
  }

  lemma {:induction false} CutStartChars(s: string)
    requires KeyChars(s)
    ensures KeyChars(CutStart(s)) && (CutStart(s) != "" ==> CutStart(s)[0] != '-')
  {
    if s != "" && s[0] == '-' { CutStartChars(s[1..]); }
  }

  lemma {:induction false} CutEndChars(s: string)
    requires KeyChars(s)
    ensures KeyChars(CutEnd(s)) && (CutEnd(s) != "" ==> CutEnd(s)[|CutEnd(s)| - 1] != '-')
    ensures CutEnd(s) != "" ==> s != "" && CutEnd(s)[0] == s[0]
  {
    if s != "" && s[|s| - 1] == '-' { CutEndChars(s[..|s| - 1]); }
  }

  /** A slug is lower-kebab: letters, digits and inner hyphens, so it is free of dots. */
  lemma SlugShape(s: string)
    ensures KeyChars(Slugify(s)) && DotFree(Slugify(s))
    ensures Slugify(s) != "" ==> Slugify(s)[0] != '-' && Slugify(s)[|Slugify(s)| - 1] != '-'
  {
    hide Collapse, CutStart, CutEnd, TrimSpace, Lower;
    var c := Collapse(Lower(TrimSpace(s)), false);
    CollapseChars(Lower(TrimSpace(s)), false);
    CutStartChars(c);
    CutEndChars(CutStart(c));
  }

  // ---------------------------------------------------------------------------------------
  // What a slug says
  // ---------------------------------------------------------------------------------------

  predicate Letters(s: string) {
    forall i | 0 <= i < |s| :: 'a' <= s[i] <= 'z' || '0' <= s[i] <= '9'
  }

  predicate NoLetters(s: string) {
    forall i | 0 <= i < |s| :: !('a' <= s[i] <= 'z' || '0' <= s[i] <= '9')
  }

  /** `words` are the maximal runs of small letters and digits in `s`, in order. */
  ghost predicate WordsOf(s: string, words: seq<string>)
    decreases |words|
  {
    if words == [] then NoLetters(s)
    else
      exists gap, rest :: s == gap + words[0] + rest && NoLetters(gap) && Letters(words[0]) && words[0] != "" &&
        (rest != "" ==> NoLetters([rest[0]])) && WordsOf(rest, words[1..])
  }

  function Hyphenated(words: seq<string>): string {
    if words == [] then "" else if |words| == 1 then words[0] else words[0] + "-" + Hyphenated(words[1..])
  }

  lemma {:induction false} CollapseGap(gap: string, rest: string, inRun: bool)
    requires NoLetters(gap) && gap != ""
    ensures Collapse(gap + rest, inRun) == (if inRun then "" else "-") + Collapse(rest, true)
  {
    var all := gap + rest;
    assert all[0] == gap[0] && all[1..] == gap[1..] + rest;
    if |gap| > 1 {
      CollapseGap(gap[1..], rest, true);
    } else {
      assert all[1..] == rest;
    }
  }

  lemma {:induction false} CollapseLead(word: string, rest: string, inRun: bool)
    requires Letters(word) && word != ""
    ensures Collapse(word + rest, inRun) == word + Collapse(rest, false)
  {
    var all := word + rest;
    assert all[0] == word[0] && all[1..] == word[1..] + rest;
    if |word| > 1 {
      CollapseLead(word[1..], rest, false);
      assert [word[0]] + (word[1..] + Collapse(rest, false)) == word + Collapse(rest, false);
    } else {
      assert all[1..] == rest && word == [word[0]];
    }
  }

  /** A hyphen for what stands after the last word. */
  function Trail(s: string): string {
    if s != "" && !SlugChar(s[|s| - 1]) then "-" else ""
  }

  lemma CollapseFront(gap: string, word: string, rest: string, inRun: bool)
    requires NoLetters(gap) && Letters(word) && word != ""
    ensures Collapse(gap + (word + rest), inRun) == (if gap == "" || inRun then "" else "-") + (word + Collapse(rest, false))
  {
    hide Collapse, Letters, NoLetters;
    if gap == "" {
      assert gap + (word + rest) == word + rest;
      CollapseLead(word, rest, inRun);
    } else {
      CollapseGap(gap, word + rest, inRun);
      CollapseLead(word, rest, true);
    }
  }

  /** Where the text after a word goes. */
  function AfterWord(words: seq<string>, rest: string): string {
    if words == [] then Trail(rest) else "-" + Hyphenated(words) + Trail(rest)
  }

  lemma {:induction false} CollapseIs(s: string, words: seq<string>, inRun: bool)
    requires WordsOf(s, words)
    ensures words == [] ==> Collapse(s, inRun) == if s == "" || inRun then "" else "-"
    ensures words != [] ==>
              s != "" && Collapse(s, inRun) == (if SlugChar(s[0]) || inRun then "" else "-") + Hyphenated(words) + Trail(s)
    decreases |words|
  {
    hide Collapse, Trail, Hyphenated, Letters, NoLetters, AfterWord;
    if words == [] {
      CollapseNoWords(s, inRun);
    } else {
      var gap, rest :| s == gap + words[0] + rest && NoLetters(gap) && Letters(words[0]) && words[0] != "" &&
                       (rest != "" ==> NoLetters([rest[0]])) && WordsOf(rest, words[1..]);
      assert s == gap + (words[0] + rest);
      CollapseFront(gap, words[0], rest, inRun);
      CollapseIs(rest, words[1..], false);
      RestAfter(words[1..], rest);
      LastLetter(gap, words[0]);
      LastOf(gap + words[0], rest, s);
      FirstOf(gap, words[0], rest, s);
      GlueWord(if SlugChar(s[0]) || inRun then "" else "-", words, rest);
    }
  }

  lemma {:induction false} CollapseNoWords(s: string, inRun: bool)
    requires NoLetters(s)
    ensures Collapse(s, inRun) == if s == "" || inRun then "" else "-"
  {
    if s != "" {
      CollapseGap(s, "", inRun);
      assert s + "" == s;
    }
  }

  lemma RestAfter(words: seq<string>, rest: string)
    requires WordsOf(rest, words) && (rest != "" ==> NoLetters([rest[0]]))
    requires words == [] ==> Collapse(rest, false) == if rest == "" then "" else "-"
    requires words != [] ==>
               rest != "" && Collapse(rest, false) == (if SlugChar(rest[0]) then "" else "-") + Hyphenated(words) + Trail(rest)
    ensures Collapse(rest, false) == AfterWord(words, rest)
  {
    hide Collapse, Hyphenated;
    if rest != "" { assert [rest[0]][0] == rest[0]; }
  }

  lemma LastLetter(gap: string, word: string)
    requires Letters(word) && word != ""
    ensures SlugChar((gap + word)[|gap + word| - 1])
  {
    assert (gap + word)[|gap + word| - 1] == word[|word| - 1];
  }

  lemma LastOf(front: string, rest: string, s: string)
    requires s == front + rest && front != "" && SlugChar(front[|front| - 1])
    ensures Trail(s) == Trail(rest)
  {
  }

  lemma FirstOf(gap: string, word: string, rest: string, s: string)
    requires s == gap + (word + rest) && NoLetters(gap) && Letters(word) && word != ""
    ensures SlugChar(s[0]) <==> gap == ""
  {
    if gap == "" { assert s[0] == word[0]; } else { assert s[0] == gap[0]; }
  }

  lemma GlueWord(lead: string, words: seq<string>, rest: string)
    requires words != []
    ensures lead + (words[0] + AfterWord(words[1..], rest)) == lead + Hyphenated(words) + Trail(rest)
  {
    hide Trail;
    var t := Trail(rest);
    if |words| == 1 {
      assert lead + (words[0] + t) == lead + words[0] + t;
    } else {
      var h := Hyphenated(words[1..]);
      assert lead + (words[0] + ("-" + h + t)) == lead + (words[0] + "-" + h) + t;
    }
  }

  /** Joined words start and end with a letter or digit. */
  lemma {:induction false} HyphenatedEnds(s: string, words: seq<string>)
    requires WordsOf(s, words) && words != []
    ensures var h := Hyphenated(words); h != "" && SlugChar(h[0]) && SlugChar(h[|h| - 1])
    decreases |words|
  {
    var gap, rest :| s == gap + words[0] + rest && Letters(words[0]) && words[0] != "" && WordsOf(rest, words[1..]);
    assert SlugChar(words[0][0]) && SlugChar(words[0][|words[0]| - 1]);
    if |words| > 1 { HyphenatedEnds(rest, words[1..]); }
  }

  lemma CutHyphens(lead: string, h: string, trail: string)
    requires (lead == "" || lead == "-") && (trail == "" || trail == "-")
    requires h != "" ==> h[0] != '-' && h[|h| - 1] != '-'
    requires h == "" ==> lead == "" || trail == ""
    ensures CutEnd(CutStart(lead + h + trail)) == h
  {
    if h == "" {
      assert lead + h + trail == lead + trail;
    } else {
      assert lead + h + trail == lead + (h + trail);
      assert CutStart(h + trail) == h + trail;
      if lead == "-" { assert (lead + (h + trail))[1..] == h + trail; } else { assert lead + (h + trail) == h + trail; }
      assert CutEnd(h) == h;
      if trail == "-" { assert (h + trail)[..|h|] == h; } else { assert h + trail == h; }
    }
  }

  /** A slug is the words of the lowered text, joined by hyphens. */
  lemma SlugIsWords(s: string, words: seq<string>)
    requires WordsOf(Lower(TrimSpace(s)), words)
    ensures Slugify(s) == Hyphenated(words)
  {
    hide Collapse, CutStart, CutEnd, WordsOf, Hyphenated, Lower, TrimSpace;
    var t := Lower(TrimSpace(s));
    CollapseIs(t, words, false);
    if words == [] {
      NoWords();
      CutHyphens("", "", if t == "" then "" else "-");
      assert Collapse(t, false) == "" + "" + (if t == "" then "" else "-");
    } else {
      HyphenatedEnds(t, words);
      CutHyphens(if SlugChar(t[0]) then "" else "-", Hyphenated(words), Trail(t));
    }
  }

  lemma NoWords()
    ensures Hyphenated([]) == ""
  {
  }

  /** Every text has its words. */
  lemma {:induction false} SomeWords(s: string) returns (words: seq<string>)
    ensures WordsOf(s, words)
    decreases |s|
  {
    var i := 0;
    while i < |s| && !SlugChar(s[i])
      invariant i <= |s| && forall k | 0 <= k < i :: !SlugChar(s[k])
    {
      i := i + 1;
    }
    if i == |s| {
      words := [];
    } else {
      var j := i;
      while j < |s| && SlugChar(s[j])
        invariant i <= j <= |s| && forall k | i <= k < j :: SlugChar(s[k])
      {
        j := j + 1;
      }
      var more := SomeWords(s[j..]);
      words := [s[i..j]] + more;
      assert s == s[..i] + words[0] + s[j..];
      assert words[1..] == more;
      assert s[j..] != "" ==> s[j..][0] == s[j];
    }
  }

  // ---------------------------------------------------------------------------------------
  // Minting
  // ---------------------------------------------------------------------------------------

  function Base(name: string): string {
    if Slugify(name) == "" then "requirement" else Slugify(name)
  }

  function Suffixed(base: string, n: nat): string {
    base + "-" + Itoa(n)
  }

  /** How many of the names have the base `base`. */
  function Seen(names: seq<string>, base: string): nat {
    if names == [] then 0
    else Seen(names[..|names| - 1], base) + if Base(names[|names| - 1]) == base then 1 else 0
  }

  function Rid(names: seq<string>, i: nat): string
    requires i < |names|
  {
    var base := Base(names[i]);
    var n := Seen(names[..i], base);
    if n == 0 then base else Suffixed(base, n + 1)
  }

  /** Minting keeps a count per base. */
  class Minter {
    var seen: map<string, nat>
    ghost var names: seq<string>

    ghost predicate Valid()
      reads this
    {
      forall b :: (if b in seen then seen[b] else 0) == Seen(names, b)
    }

    constructor ()
      ensures Valid() && names == []
    {
      seen, names := map[], [];
    }

    method Mint(name: string) returns (rid: string)
      requires Valid()
      modifies this
      ensures Valid() && names == old(names) + [name]
      ensures rid == Rid(names, |names| - 1)
    {
      hide Slugify;
      var base := Base(name);
      var n := if base in seen then seen[base] else 0;
      seen := seen[base := n + 1];
      ghost var before := names;
      names := names + [name];
      assert names[..|names| - 1] == before;
      rid := if n == 0 then base else base + "-" + Itoa(n + 1);
    }
  }

  /** The key of the `i`th requirement: its words, or "requirement" if it has none, and a number from the second one on. */
  lemma RidIs(names: seq<string>, i: nat, words: seq<string>)
    requires i < |names| && WordsOf(Lower(TrimSpace(names[i])), words)
    ensures var base := if words == [] then "requirement" else Hyphenated(words);
            var n := Seen(names[..i], base);
            Base(names[i]) == base && Rid(names, i) == if n == 0 then base else base + "-" + Itoa(n + 1)
  {
    hide Slugify, WordsOf, Hyphenated, Lower, TrimSpace, Seen, Itoa;
    SlugIsWords(names[i], words);
    if words == [] {
      NoWords();
    } else {
      HyphenatedEnds(Lower(TrimSpace(names[i])), words);
    }
  }

  lemma BaseShape(name: string)
    ensures Base(name) != "" && KeyChars(Base(name)) && DotFree(Base(name))
  {
    SlugShape(name);
    assert KeyChars("requirement");
  }

  /** Minted rids are non-empty and free of dots. */
  lemma RidShape(names: seq<string>, i: nat)
    requires i < |names|
    ensures Rid(names, i) != "" && DotFree(Rid(names, i))
  {
    hide Base, Itoa;
    BaseShape(names[i]);
    var n := Seen(names[..i], Base(names[i])) + 1;
    ItoaDigits(n);
    assert DotFree(Suffixed(Base(names[i]), n)) by { SuffixedDotFree(Base(names[i]), n); }
  }

  lemma SuffixedDotFree(b: string, n: nat)
    requires DotFree(b)
    ensures DotFree(Suffixed(b, n))
  {
    hide Itoa;
    ItoaDigits(n);
    var s := Suffixed(b, n);
    forall i | 0 <= i < |s| ensures s[i] != '.' {
      if i > |b| { assert s[i] == Itoa(n)[i - |b| - 1]; }
    }
  }

  /** The hyphen before the number is the last one. */
  lemma LastHyphen(b: string, n: nat)
    ensures var s := Suffixed(b, n);
            |b| < |s| && s[|b|] == '-' && s[..|b|] == b && s[|b| + 1..] == Itoa(n) && forall i | |b| < i < |s| :: s[i] != '-'
  {
    hide Itoa;
    ItoaDigits(n);
    var s := Suffixed(b, n);
    assert s[|b| + 1..] == Itoa(n);
    forall i | |b| < i < |s| ensures s[i] != '-' {
      assert s[i] == Itoa(n)[i - |b| - 1];
    }
  }

  /** A suffixed form determines its base and its number. */
  lemma SuffixedInjective(a: string, m: nat, b: string, n: nat)
    requires Suffixed(a, m) == Suffixed(b, n)
    ensures a == b && m == n
  {
    hide Suffixed, Itoa;
    LastHyphen(a, m);
    LastHyphen(b, n);
    assert |a| == |b|;
    ItoaInjective(m, n);
  }

  lemma {:induction false} SeenGrows(names: seq<string>, i: nat, j: nat)
    requires i < j <= |names|
    ensures Seen(names[..i], Base(names[i])) < Seen(names[..j], Base(names[i]))
    decreases j
  {
    hide Base;
    assert names[..j][..j - 1] == names[..j - 1];
    assert names[..j][j - 1] == names[j - 1];
    if i < j - 1 {
      SeenGrows(names, i, j - 1);
    }
  }

  /** The slug of name `i` equals the form minted for a repetition at `j`. */
  predicate Clash(names: seq<string>, i: nat, j: nat)
    requires i < |names| && j < |names|
  {
    var n := Seen(names[..j], Base(names[j]));
    n > 0 && Base(names[i]) == Suffixed(Base(names[j]), n + 1)
  }

  predicate NoClash(names: seq<string>) {
    forall i, j | 0 <= i < |names| && 0 <= j < |names| :: !Clash(names, i, j)
  }

  ghost predicate Apart(names: seq<string>) {
    forall i, j | 0 <= i < j < |names| :: Rid(names, i) != Rid(names, j)
  }

  lemma {:induction false} FirstUse(names: seq<string>, i: nat) returns (k: nat)
    requires i < |names|
    ensures k <= i && Base(names[k]) == Base(names[i]) && Seen(names[..k], Base(names[k])) == 0
    decreases i
  {
    hide Base;
    var b := Base(names[i]);
    if Seen(names[..i], b) == 0 {
      k := i;
    } else {
      var p := LastBefore(names, i, b);
      k := FirstUse(names, p);
    }
  }

  lemma {:induction false} LastBefore(names: seq<string>, i: nat, b: string) returns (p: nat)
    requires i <= |names| && Seen(names[..i], b) > 0
    ensures p < i && Base(names[p]) == b
  {
    hide Base;
    assert i > 0;
    assert names[..i][..i - 1] == names[..i - 1] && names[..i][i - 1] == names[i - 1];
    if Base(names[i - 1]) == b {
      p := i - 1;
    } else {
      p := LastBefore(names, i - 1, b);
    }
  }

  /** Exactly when no slug equals the suffixed form of another, repeated slug are the minted rids pairwise distinct. */
  lemma RidsApartIffNoClash(names: seq<string>)
    ensures Apart(names) <==> NoClash(names)
  {
    hide Base, Suffixed, Seen;
    if NoClash(names) {
      forall i, j | 0 <= i < j < |names| ensures Rid(names, i) != Rid(names, j) {
        RidsDiffer(names, i, j);
      }
    } else {
      var i, j :| 0 <= i < |names| && 0 <= j < |names| && Clash(names, i, j);
      var k := FirstUse(names, i);
      assert Rid(names, k) == Rid(names, j);
      SuffixedLonger(Base(names[j]), Seen(names[..j], Base(names[j])) + 1);
      assert k != j;
      assert !Apart(names) by {
        if k < j { assert Rid(names, k) == Rid(names, j); } else { assert Rid(names, j) == Rid(names, k); }
      }
    }
  }

  lemma SuffixedLonger(b: string, n: nat)
    ensures Suffixed(b, n) != b
  {
    assert |Suffixed(b, n)| > |b|;
  }

  lemma RidsDiffer(names: seq<string>, i: nat, j: nat)
    requires i < j < |names| && NoClash(names)
    ensures Rid(names, i) != Rid(names, j)
  {
    hide Base, Suffixed, Seen;
    var a, b := Base(names[i]), Base(names[j]);
    var m, n := Seen(names[..i], a), Seen(names[..j], b);
    assert !Clash(names, i, j) && !Clash(names, j, i);
    if a == b {
      SeenGrows(names, i, j);
      SuffixedLonger(a, n + 1);
      if m > 0 && Suffixed(a, m + 1) == Suffixed(b, n + 1) {
        SuffixedInjective(a, m + 1, b, n + 1);
      }
    } else if m > 0 && n > 0 && Suffixed(a, m + 1) == Suffixed(b, n + 1) {
      SuffixedInjective(a, m + 1, b, n + 1);
    }
  }

  /** The condition is needed: these three names mint "foo", "foo-2" and "foo-2" again. */
  lemma MintedRidsCanClash()
    ensures var names := ["Foo", "Foo", "Foo 2"];
            Rid(names, 0) == "foo" && Rid(names, 1) == "foo-2" && Rid(names, 2) == "foo-2"
  {
    hide Base;
    var names := ["Foo", "Foo", "Foo 2"];
    FooSlug();
    Foo2Slug();
    assert names[..0] == [] && names[..1] == ["Foo"] && names[..2] == ["Foo", "Foo"];
    assert ["Foo"][..0] == [] && ["Foo", "Foo"][..1] == ["Foo"];
    assert "foo-2" != "foo" by { assert |"foo-2"| == 5; }
    assert Seen(["Foo"], "foo") == 1;
    assert Seen(["Foo", "Foo"], "foo-2") == 0;
    assert Itoa(2) == "2";
    assert "foo" + "-" + "2" == "foo-2";
  }

  lemma FooSlug()
    ensures Base("Foo") == "foo"
  {
    TrimmedStays("Foo");
    LowerIs("Foo", "foo");
    CollapseWord("foo");
  }

  lemma {:induction false} CollapseWord(s: string)
    requires forall i | 0 <= i < |s| :: SlugChar(s[i])
    ensures Collapse(s, false) == s
  {
    if s != "" {
      CollapseWord(s[1..]);
      assert [s[0]] + s[1..] == s;
    }
  }

  lemma Foo2Slug()
    ensures Base("Foo 2") == "foo-2"
  {
    hide Collapse, Lower, TrimSpace;
    TrimmedStays("Foo 2");
    LowerIs("Foo 2", "foo 2");
    Foo2Collapse();
    assert CutStart("foo-2") == "foo-2" && CutEnd("foo-2") == "foo-2";
  }

  lemma Foo2Collapse()
    ensures Collapse("foo 2", false) == "foo-2"
  {
    assert "foo 2"[1..] == "oo 2" && "oo 2"[1..] == "o 2" && "o 2"[1..] == " 2" && " 2"[1..] == "2" && "2"[1..] == "";
    assert Collapse("2", true) == "2";
    assert Collapse(" 2", false) == "-2";
    assert Collapse("o 2", false) == "o-2";
    assert Collapse("oo 2", false) == "oo-2";
  }
}

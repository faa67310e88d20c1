/**
What all five OpenSpec parsers and printers share: heading markers, bullets, and the requirement block.
*/
module Markdown {
  import opened Text
  import opened OpenSpec

  const SCENARIO := "#### Scenario:"
  const REQUIREMENT := "### Requirement:"
  const SECTION := "## "
  const TITLE := "# "

  predicate IsTop(l: string) {
    SECTION <= l || TITLE <= l
  }

  predicate IsHeading(l: string) {
    SCENARIO <= l || REQUIREMENT <= l || IsTop(l)
  }

  predicate Never(l: string) {
    false
  }

  datatype Line =
    | ScenarioHead(name: string)
    | RequirementHead(name: string)
    | SectionHead(heading: string)
    | TitleHead(title: string)
    | Blank
    | Other(text: string)

  function After(line: string, marker: string): string
    requires marker <= line
  {
    TrimSpace(line[|marker|..])
  }

  /** How a raw line reads where only sections and the title are headings. */
  function ClassifyTop(raw: string): Line {
    var line := TrimRight(raw);
    var trimmed := TrimSpace(line);
    if SECTION <= line then SectionHead(After(line, SECTION))
    else if TITLE <= line then TitleHead(After(line, TITLE))
    else if trimmed == "" then Blank
    else Other(trimmed)
  }

  /** How a raw line reads in a spec or a delta. Headings are looked for in the untrimmed line, prose is kept trimmed. */
  function Classify(raw: string): Line {
    var line := TrimRight(raw);
    if SCENARIO <= line then ScenarioHead(After(line, SCENARIO))
    else if REQUIREMENT <= line then RequirementHead(After(line, REQUIREMENT))
    else ClassifyTop(raw)
  }

  // ---------------------------------------------------------------------------------------
  // Reading printed lines back
  // ---------------------------------------------------------------------------------------

  lemma ReadBlank()
    ensures Classify("") == Blank && ClassifyTop("") == Blank
  {
  }

  lemma ReadTitle(t: string)
    requires Field(t) && t != ""
    ensures ClassifyTop(TITLE + t) == TitleHead(t) && Classify(TITLE + t) == TitleHead(t)
  {
    hide IsSpace, TrimRight, TrimSpace;
    var line := TITLE + t;
    LeadLine(TITLE, t);
    assert line[1] == ' ';
    assert line[|TITLE|..] == t;
    TrimmedStays(t);
  }

  /** An empty title prints as a bare "#", which reads as prose. */
  lemma ReadNoTitle()
    ensures ClassifyTop(TITLE) == Other("#") && Classify(TITLE) == Other("#")
  {
    assert TITLE[..1] == "#";
    assert TrimRight("#") == "#";
    assert TrimRight(TITLE) == "#";
    TrimmedStays("#");
  }

  lemma ReadSection(h: string)
    requires Field(h) && h != ""
    ensures ClassifyTop(SECTION + h) == SectionHead(h) && Classify(SECTION + h) == SectionHead(h)
  {
    hide IsSpace, TrimRight, TrimSpace;
    var line := SECTION + h;
    LeadLine(SECTION, h);
    assert line[2] == ' ';
    assert line[|SECTION|..] == h;
    TrimmedStays(h);
  }

  /** A heading printed as its marker, a space and a name that may be empty. */
  lemma ReadNamed(marker: string, n: string)
    requires marker != "" && !IsBlank(marker[|marker| - 1]) && Field(n)
    ensures var line := TrimRight(marker + " " + n);
            marker <= line && After(line, marker) == n
  {
    hide IsSpace, IsBlank, TrimRight, TrimSpace;
    if n == "" {
      ReadUnnamed(marker);
      assert marker + " " + n == marker + " ";
    } else {
      LeadLine(marker + " ", n);
      var line := marker + " " + n;
      assert line == (marker + " ") + n;
      assert line[|marker|..] == " " + n;
      TrimSpaceAfterSpace(n);
    }
  }

  lemma ReadUnnamed(marker: string)
    requires marker != "" && !IsBlank(marker[|marker| - 1])
    ensures TrimRight(marker + " ") == marker && After(marker, marker) == ""
  {
    hide IsSpace;
    var line := marker + " ";
    assert line[..|line| - 1] == marker;
    assert TrimRight(marker) == marker;
    assert marker[|marker|..] == "";
  }

  lemma ReadRequirement(n: string)
    requires Field(n)
    ensures Classify(REQUIREMENT + " " + n) == RequirementHead(n)
  {
    hide TrimRight, TrimSpace, IsSpace;
    ReadNamed(REQUIREMENT, n);
    var line := TrimRight(REQUIREMENT + " " + n);
    assert line[3] == REQUIREMENT[3] == ' ';
    assert SCENARIO[3] == '#';
  }

  lemma ReadScenario(n: string)
    requires Field(n)
    ensures Classify(SCENARIO + " " + n) == ScenarioHead(n)
  {
    hide TrimRight, TrimSpace, IsSpace;
    ReadNamed(SCENARIO, n);
  }

  lemma ReadPlain(l: string)
    requires l != "" && Field(l)
    ensures !IsHeading(l) ==> Classify(l) == Other(l)
    ensures !IsTop(l) ==> ClassifyTop(l) == Other(l)
  {
    TrimmedStays(l);
  }

  lemma NotAHeading(l: string)
    requires l != "" && l[0] != '#'
    ensures !IsHeading(l) && !IsTop(l)
  {
    assert SCENARIO[0] == '#' && REQUIREMENT[0] == '#' && SECTION[0] == '#' && TITLE[0] == '#';
  }

  // ---------------------------------------------------------------------------------------
  // What reading any line yields
  // ---------------------------------------------------------------------------------------

  /** Prose that a parser keeps although, once trimmed, it looks like a heading. */
  predicate Indented(raw: string, heading: string -> bool) {
    heading(TrimSpace(TrimRight(raw))) && !heading(TrimRight(raw))
  }

  predicate FlushLeft(raw: string) {
    raw != "" ==> !IsSpace(raw[0])
  }

  lemma ClassifyYields(raw: string)
    requires OneLine(raw)
    ensures match Classify(raw)
            case ScenarioHead(n) => Field(n)
            case RequirementHead(n) => Field(n)
            case SectionHead(h) => Field(h)
            case TitleHead(t) => Field(t)
            case Blank => true
            case Other(t) => t != "" && Field(t) && (IsHeading(t) ==> Indented(raw, IsHeading))
    ensures match ClassifyTop(raw)
            case SectionHead(h) => Field(h)
            case TitleHead(t) => Field(t)
            case Blank => true
            case Other(t) => t != "" && Field(t) && (IsTop(t) ==> Indented(raw, IsTop))
            case _ => false
  {
    hide IsSpace, TrimRight, TrimSpace, Trimmed;
    var line := TrimRight(raw);
    TrimRightOneLine(raw);
    TrimSpaceTrims(line);
    if SCENARIO <= line { TrimSpaceTrims(line[|SCENARIO|..]); }
    if REQUIREMENT <= line { TrimSpaceTrims(line[|REQUIREMENT|..]); }
    if SECTION <= line { TrimSpaceTrims(line[|SECTION|..]); }
    if TITLE <= line { TrimSpaceTrims(line[|TITLE|..]); }
  }

  /** An indented line is prose whatever it says, and is kept without its indentation. */
  lemma IndentedReads(l: string)
    requires l != "" && Field(l)
    ensures Classify(" " + l) == Other(l) && ClassifyTop(" " + l) == Other(l)
  {
    hide IsSpace;
    LeadLine(" ", l);
    TrimSpaceAfterSpace(l);
    assert (" " + l)[0] == ' ';
    assert SCENARIO[0] == '#' && REQUIREMENT[0] == '#' && SECTION[0] == '#' && TITLE[0] == '#';
  }

  /** A section heading of white space that only full trimming cuts has no name. */
  lemma HollowReads()
    ensures ClassifyTop("## \U{A0}") == SectionHead("")
  {
    var l := "## \U{A0}";
    assert TrimRight(l) == l;
    assert l[3..] == "\U{A0}";
    assert "\U{A0}"[1..] == "";
  }

  /** A line that starts flush left hides no heading. */
  lemma FlushNotIndented(raw: string)
    requires FlushLeft(raw)
    ensures !Indented(raw, IsHeading) && !Indented(raw, IsTop)
  {
    hide IsSpace, IsHeading, IsTop, TrimSpace, TrimRight;
    FlushTrims(raw);
    PrefixOfHeading(TrimSpace(TrimRight(raw)), TrimRight(raw));
  }

  lemma FlushTrims(raw: string)
    requires FlushLeft(raw)
    ensures TrimSpace(TrimRight(raw)) <= TrimRight(raw)
  {
    hide IsSpace;
    var line := TrimRight(raw);
    TrimRightIs(raw);
    if line != "" {
      assert line[0] == raw[0];
      assert TrimStart(line) == line;
      TrimEndIs(line);
    }
  }

  lemma PrefixOfHeading(t: string, line: string)
    requires t <= line
    ensures (IsHeading(t) ==> IsHeading(line)) && (IsTop(t) ==> IsTop(line))
  {
  }

  // ---------------------------------------------------------------------------------------
  // Bullets
  // ---------------------------------------------------------------------------------------

  function BulletBody(trimmed: string): Option<string> {
    if "- " <= trimmed || "* " <= trimmed || "+ " <= trimmed then Some(TrimSpace(trimmed[2..])) else None
  }

  lemma ReadBullet(b: string)
    requires Field(b) && b != ""
    ensures Classify("- " + b) == Other("- " + b) && ClassifyTop("- " + b) == Other("- " + b)
    ensures BulletBody("- " + b) == Some(b)
    ensures OneLine("- " + b) && FlushLeft("- " + b)
  {
    hide TrimRight, TrimSpace;
    var l := "- " + b;
    LeadTrimmed("- ", b);
    assert OneLine(l);
    NotAHeading(l);
    ReadPlain(l);
    assert l[2..] == b;
    TrimmedStays(b);
  }

  lemma BulletYields(t: string)
    requires t != "" && Field(t) && BulletBody(t).Some?
    ensures BulletBody(t).value != "" && Field(BulletBody(t).value)
  {
    hide TrimSpace;
    assert IsSpace(t[1]) && |t| > 2;
    TrimSpaceTrims(t[2..]);
    VisibleRemains(t[2..]);
    assert t[2..][|t[2..]| - 1] == t[|t| - 1];
  }

  /** Text that ends visibly is not trimmed away. */
  lemma VisibleRemains(s: string)
    ensures s != "" && !IsSpace(s[|s| - 1]) ==> TrimSpace(s) != ""
  {
    hide IsSpace;
    if s != "" && !IsSpace(s[|s| - 1]) {
      TrimStartIs(s);
      var k :| 0 <= k <= |s| && TrimStart(s) == s[k..] && (k < |s| ==> !IsSpace(s[k])) && forall i | 0 <= i < k :: IsSpace(s[i]);
      assert k < |s|;
      var u := s[k..];
      assert u[|u| - 1] == s[|s| - 1];
      assert TrimEnd(u) == u;
    }
  }

  // ---------------------------------------------------------------------------------------
  // Scenario steps
  // ---------------------------------------------------------------------------------------

  predicate IsKeyword(k: string) {
    k == "GIVEN" || k == "WHEN" || k == "THEN" || k == "AND"
  }

  function IndexOf(s: string, c: char): (i: nat)
    ensures i <= |s|
    ensures i < |s| ==> s[i] == c
    ensures forall j | 0 <= j < i :: s[j] != c
  {
    if s == "" || s[0] == c then 0 else 1 + IndexOf(s[1..], c)
  }

  function CutHead(s: string): string {
    s[..IndexOf(s, ' ')]
  }

  function CutRest(s: string): string {
    var i := IndexOf(s, ' ');
    if i < |s| then s[i + 1..] else ""
  }

  function ParseStep(bullet: string): Step {
    var b := TrimSpace(bullet);
    var kw := Upper(CutHead(b));
    if IsKeyword(kw) then Step(kw, TrimSpace(CutRest(b))) else Step("", b)
  }

  function StepBody(s: Step): string {
    if s.keyword != "" then (if s.text != "" then s.keyword + " " + s.text else s.keyword) else s.text
  }

  function StepLine(s: Step): string {
    "- " + StepBody(s)
  }

  /** A recognised upper-case keyword, or none and a text that does not start with one. */
  predicate StepOk(s: Step) {
    && Field(s.text)
    && if s.keyword == "" then s.text != "" && !IsKeyword(Upper(CutHead(s.text))) else IsKeyword(s.keyword)
  }

  lemma KeywordShape(k: string)
    requires IsKeyword(k)
    ensures Upper(k) == k && Field(k) && k != "" && forall i | 0 <= i < |k| :: k[i] != ' '
  {
    hide IsSpace, Upper;
    KeywordLetters(k);
    LettersShape(k);
  }

  predicate Capitals(k: string) {
    forall i | 0 <= i < |k| :: 'A' <= k[i] <= 'Z'
  }

  lemma KeywordLetters(k: string)
    requires IsKeyword(k)
    ensures Capitals(k) && k != ""
  {
  }

  lemma LettersShape(k: string)
    requires Capitals(k)
    ensures Upper(k) == k && Field(k) && forall i | 0 <= i < |k| :: k[i] != ' '
  {
    assert forall i | 0 <= i < |k| :: UpperChar(k[i]) == k[i];
    assert Upper(k) == k;
  }

  lemma CutKeyword(k: string, t: string)
    requires forall i | 0 <= i < |k| :: k[i] != ' '
    ensures CutHead(k + " " + t) == k && CutRest(k + " " + t) == t
    ensures CutHead(k) == k && CutRest(k) == ""
  {
    var s := k + " " + t;
    assert s[|k|] == ' ';
    assert forall i | 0 <= i < |k| :: s[i] == k[i];
    assert IndexOf(s, ' ') == |k|;
    assert s[..|k|] == k && s[|k| + 1..] == t;
    assert IndexOf(k, ' ') == |k|;
    assert k[..|k|] == k;
  }

  /** Every printed step parses back to itself. */
  lemma StepRoundTrip(s: Step)
    requires StepOk(s)
    ensures StepBody(s) != "" && Field(StepBody(s))
    ensures ParseStep(StepBody(s)) == s
  {
    hide IsSpace, TrimSpace, IsKeyword, CutHead, CutRest, Upper;
    var b := StepBody(s);
    if s.keyword != "" {
      KeywordShape(s.keyword);
      CutKeyword(s.keyword, s.text);
      TrimmedStays(s.text);
      TrimmedStays("");
      if s.text != "" {
        LeadTrimmed(s.keyword + " ", s.text);
        assert b == (s.keyword + " ") + s.text;
        assert OneLine(b);
      }
    }
    TrimmedStays(b);
  }

  lemma ParseStepOk(b: string)
    requires b != "" && Field(b)
    ensures StepOk(ParseStep(b))
  {
    hide IsSpace, TrimSpace, IsKeyword, Upper;
    TrimmedStays(b);
    TrimSpaceTrims(CutRest(b));
    if IsKeyword(Upper(CutHead(b))) {
      KeywordShape(Upper(CutHead(b)));
    }
  }

  // ---------------------------------------------------------------------------------------
  // Printed lines are single, flush-left lines
  // ---------------------------------------------------------------------------------------

  ghost predicate Neat(ls: seq<string>) {
    forall l | l in ls :: OneLine(l) && FlushLeft(l)
  }

  lemma NeatAppend(a: seq<string>, b: seq<string>)
    requires Neat(a) && Neat(b)
    ensures Neat(a + b)
  {
    hide OneLine, FlushLeft;
  }

  lemma NeatLead(lead: string, v: string)
    requires OneLine(v) && OneLine(lead) && lead != "" && !IsSpace(lead[0])
    ensures OneLine(lead + v) && FlushLeft(lead + v)
  {
  }

  lemma NeatBlock(p: string, taken: string -> bool)
    requires Prose(p, taken)
    ensures Neat(Block(p))
  {
    hide IsSpace;
    BlockCollected(p, taken);
    forall l | l in Block(p) ensures OneLine(l) && FlushLeft(l) {
      assert Plain(l, taken);
    }
  }

  lemma {:induction false} NeatFlat<T>(f: T -> seq<string>, xs: seq<T>)
    requires forall x | x in xs :: Neat(f(x))
    ensures Neat(Flat(f, xs))
  {
    if xs != [] {
      NeatFlat(f, xs[1..]);
      NeatAppend(f(xs[0]), Flat(f, xs[1..]));
    }
  }

  // ---------------------------------------------------------------------------------------
  // Writing lines
  // ---------------------------------------------------------------------------------------

  lemma UnlinesNothing()
    ensures Unlines([]) == ""
  {
  }

  /** Writing a line extends the printed lines. */
  lemma WriteLine(b: string, ls: seq<string>, l: string)
    ensures b + Unlines(ls + [l]) == b + Unlines(ls) + l + "\n"
  {
    hide Unlines;
    UnlinesAppend(ls, [l]);
    UnlinesOne(l);
    assert b + (Unlines(ls) + (l + "\n")) == b + Unlines(ls) + l + "\n";
  }

  lemma WriteBlock(b: string, ls: seq<string>, p: string)
    ensures b + Unlines(ls + Block(p)) == b + Unlines(ls) + if p == "" then "" else p + "\n"
  {
    hide Unlines;
    UnlinesAppend(ls, Block(p));
    if p == "" {
      assert ls + Block(p) == ls;
    } else {
      UnlinesBlock(p);
    }
  }

  /** A blank line and a heading. */
  lemma WriteHead(b: string, ls: seq<string>, marker: string, name: string)
    ensures b + Unlines(ls + ["", marker + " " + name]) == b + Unlines(ls) + "\n" + (marker + " " + name) + "\n"
  {
    hide Unlines;
    var l := marker + " " + name;
    WriteLine(b, ls, "");
    WriteLine(b, ls + [""], l);
    assert ls + ["", l] == ls + [""] + [l];
    assert b + Unlines(ls) + "" + "\n" == b + Unlines(ls) + "\n";
  }

  /** Writing one more item extends the printed items. */
  lemma WriteItem<T>(b: string, front: seq<string>, f: T -> seq<string>, xs: seq<T>, i: nat)
    requires i < |xs|
    ensures b + Unlines(front + Flat(f, xs[..i + 1])) == b + Unlines(front + Flat(f, xs[..i])) + Unlines(f(xs[i]))
  {
    hide Unlines, Flat;
    FlatSnoc(f, xs, i);
    UnlinesAppend(front + Flat(f, xs[..i]), f(xs[i]));
    assert front + Flat(f, xs[..i + 1]) == front + Flat(f, xs[..i]) + f(xs[i]);
  }

  lemma NoItems<T>(front: seq<string>, f: T -> seq<string>, xs: seq<T>)
    ensures front + Flat(f, xs[..0]) == front
  {
  }

  /** A blank line and a section heading. */
  lemma WriteSection(b: string, ls: seq<string>, heading: string)
    ensures b + Unlines(ls + ["", SECTION + heading]) == b + Unlines(ls) + "\n" + (SECTION + heading) + "\n"
  {
    hide Unlines;
    WriteLine(b, ls, "");
    WriteLine(b, ls + [""], SECTION + heading);
    assert ls + ["", SECTION + heading] == ls + [""] + [SECTION + heading];
    assert b + Unlines(ls) + "" + "\n" == b + Unlines(ls) + "\n";
  }
}

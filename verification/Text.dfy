/**
Text as the markdown layer sees it: lines, two ways of trimming, ASCII letter case, and folds over lines.
White space is the white space of Go's unicode.IsSpace. Only letter case is limited to ASCII.
*/
module Text {

  datatype Option<+T> = None | Some(value: T)

  // ---------------------------------------------------------------------------------------
  // Trimming
  // ---------------------------------------------------------------------------------------

  predicate IsSpace(c: char) {
    || c == ' ' || ('\t' <= c && c <= '\r')
    || c == '\U{85}' || c == '\U{A0}' || c == '\U{1680}' || ('\U{2000}' <= c && c <= '\U{200A}')
    || c == '\U{2028}' || c == '\U{2029}' || c == '\U{202F}' || c == '\U{205F}' || c == '\U{3000}'
  }

  /** White space by its numbers. */
  lemma SpaceIs(c: char)
    ensures IsSpace(c) <==>
            var n := c as int;
            9 <= n <= 13 || n == 32 || n == 0x85 || n == 0xA0 || n == 0x1680 || 0x2000 <= n <= 0x200A ||
            n == 0x2028 || n == 0x2029 || n == 0x202F || n == 0x205F || n == 0x3000
  {
  }

  /** What the parsers cut from the end of a raw line: fewer characters than `IsSpace`. */
  predicate IsBlank(c: char) {
    c == ' ' || c == '\t' || c == '\r'
  }

  function TrimRight(s: string): string {
    if s != "" && IsBlank(s[|s| - 1]) then TrimRight(s[..|s| - 1]) else s
  }

  function TrimStart(s: string): string {
    if s != "" && IsSpace(s[0]) then TrimStart(s[1..]) else s
  }

  function TrimEnd(s: string): string {
    if s != "" && IsSpace(s[|s| - 1]) then TrimEnd(s[..|s| - 1]) else s
  }

  function TrimSpace(s: string): string {
    TrimEnd(TrimStart(s))
  }

  predicate Trimmed(s: string) {
    s != "" ==> !IsSpace(s[0]) && !IsSpace(s[|s| - 1])
  }

  predicate OneLine(s: string) {
    forall i | 0 <= i < |s| :: s[i] != '\n'
  }

  /** A value that survives being printed on a line of its own. */
  predicate Field(s: string) {
    Trimmed(s) && OneLine(s)
  }

  lemma {:induction false} TrimStartAt(s: string) returns (k: nat)
    ensures k <= |s| && TrimStart(s) == s[k..] && (k < |s| ==> !IsSpace(s[k])) && forall i | 0 <= i < k :: IsSpace(s[i])
  {
    hide IsSpace;
    if s != "" && IsSpace(s[0]) {
      var t := s[1..];
      var j := TrimStartAt(t);
      k := j + 1;
      assert t[j..] == s[k..];
      forall i | 0 <= i < k ensures IsSpace(s[i]) {
        if i > 0 { assert t[i - 1] == s[i]; }
      }
    } else {
      k := 0;
      assert s[0..] == s;
    }
  }

  lemma TrimStartIs(s: string)
    ensures exists k | 0 <= k <= |s| :: TrimStart(s) == s[k..] && (k < |s| ==> !IsSpace(s[k])) && forall i | 0 <= i < k :: IsSpace(s[i])
  {
    hide IsSpace, TrimStart;
    var k := TrimStartAt(s);
  }

  lemma {:induction false} TrimEndIs(s: string)
    ensures exists k | 0 <= k <= |s| :: TrimEnd(s) == s[..k] && (k > 0 ==> !IsSpace(s[k - 1]))
  {
    hide IsSpace;
    if s != "" && IsSpace(s[|s| - 1]) {
      var t := s[..|s| - 1];
      TrimEndIs(t);
      var k :| 0 <= k <= |t| && TrimEnd(t) == t[..k] && (k > 0 ==> !IsSpace(t[k - 1]));
      assert t[..k] == s[..k];
    } else {
      assert s[..|s|] == s;
    }
  }

  lemma {:induction false} TrimRightIs(s: string)
    ensures exists k | 0 <= k <= |s| :: TrimRight(s) == s[..k] && (k > 0 ==> !IsBlank(s[k - 1]))
  {
    if s != "" && IsBlank(s[|s| - 1]) {
      var t := s[..|s| - 1];
      TrimRightIs(t);
      var k :| 0 <= k <= |t| && TrimRight(t) == t[..k] && (k > 0 ==> !IsBlank(t[k - 1]));
      assert t[..k] == s[..k];
    } else {
      assert s[..|s|] == s;
    }
  }

  lemma TrimSpaceTrims(s: string)
    ensures Trimmed(TrimSpace(s))
    ensures OneLine(s) ==> OneLine(TrimSpace(s))
  {
    hide IsSpace, TrimStart, TrimEnd, Trimmed, OneLine;
    TrimStartIs(s);
    var k :| 0 <= k <= |s| && TrimStart(s) == s[k..] && (k < |s| ==> !IsSpace(s[k]));
    var u := s[k..];
    TrimEndIs(u);
    var j :| 0 <= j <= |u| && TrimEnd(u) == u[..j] && (j > 0 ==> !IsSpace(u[j - 1]));
    CutTrims(s, k, j);
  }

  lemma CutTrims(s: string, k: nat, j: nat)
    requires k <= |s| && j <= |s[k..]| && (k < |s| ==> !IsSpace(s[k])) && (j > 0 ==> !IsSpace(s[k..][j - 1]))
    ensures Trimmed(s[k..][..j]) && (OneLine(s) ==> OneLine(s[k..][..j]))
  {
    hide IsSpace;
    var t := s[k..][..j];
    assert forall i | 0 <= i < |t| :: t[i] == s[k + i];
  }

  lemma TrimmedStays(s: string)
    requires Trimmed(s)
    ensures TrimSpace(s) == s && TrimRight(s) == s
  {
  }

  lemma TrimRightOneLine(s: string)
    requires OneLine(s)
    ensures OneLine(TrimRight(s))
  {
    hide TrimRight;
    TrimRightIs(s);
  }

  lemma TrimSpaceAfterSpace(v: string)
    requires Trimmed(v)
    ensures TrimSpace(" " + v) == v
  {
    assert (" " + v)[1..] == v;
    TrimmedStays(v);
    assert TrimStart(v) == v;
  }

  // ---------------------------------------------------------------------------------------
  // Printed lines: a fixed lead and a trimmed value
  // ---------------------------------------------------------------------------------------

  /** A lead followed by a non-empty trimmed value has nothing to cut at its end. */
  lemma LeadLine(lead: string, v: string)
    requires v != "" && Trimmed(v)
    ensures TrimRight(lead + v) == lead + v
  {
    assert (lead + v)[|lead + v| - 1] == v[|v| - 1];
  }

  /** ... and, if the lead starts visibly, nothing to cut at all. */
  lemma LeadTrimmed(lead: string, v: string)
    requires lead != "" && !IsSpace(lead[0])
    requires if v == "" then !IsSpace(lead[|lead| - 1]) else Trimmed(v)
    ensures Trimmed(lead + v)
  {
    if v == "" { assert lead + v == lead; }
  }

  // ---------------------------------------------------------------------------------------
  // Lines
  // ---------------------------------------------------------------------------------------

  function Split(s: string): (ls: seq<string>)
    ensures |ls| > 0
  {
    if s == "" then [""]
    else
      var rest := Split(s[1..]);
      if s[0] == '\n' then [""] + rest else [[s[0]] + rest[0]] + rest[1..]
  }

  function Join(ls: seq<string>): string {
    if ls == [] then "" else if |ls| == 1 then ls[0] else ls[0] + "\n" + Join(ls[1..])
  }

  /** Every line ended by a newline. */
  function Unlines(ls: seq<string>): string {
    if ls == [] then "" else ls[0] + "\n" + Unlines(ls[1..])
  }

  lemma {:induction false} UnlinesAppend(a: seq<string>, b: seq<string>)
    ensures Unlines(a + b) == Unlines(a) + Unlines(b)
  {
    if a == [] {
      assert a + b == b;
    } else {
      UnlinesAppend(a[1..], b);
      assert (a + b)[1..] == a[1..] + b;
    }
  }

  lemma UnlinesOne(l: string)
    ensures Unlines([l]) == l + "\n"
  {
    assert [l][1..] == [];
  }

  lemma {:induction false} SplitPieces(s: string)
    ensures forall l | l in Split(s) :: OneLine(l)
  {
    if s != "" {
      var rest := Split(s[1..]);
      SplitPieces(s[1..]);
      forall l | l in Split(s) ensures OneLine(l) {
        if s[0] == '\n' {
          assert l == "" || l in rest;
        } else {
          assert rest[0] in rest;
          assert l == [s[0]] + rest[0] || l in rest[1..];
          if l in rest[1..] { assert l in rest; }
        }
      }
    }
  }

  /** Splitting undoes printing: a line, a newline and the rest. */
  lemma {:induction false} SplitLine(l: string, rest: string)
    requires OneLine(l)
    ensures Split(l + "\n" + rest) == [l] + Split(rest)
  {
    var s := l + "\n" + rest;
    if l == "" {
      assert s[1..] == rest;
    } else {
      assert s[1..] == l[1..] + "\n" + rest;
      SplitLine(l[1..], rest);
      assert [s[0]] + l[1..] == l;
    }
  }

  lemma {:induction false} SplitUnlines(ls: seq<string>)
    requires forall l | l in ls :: OneLine(l)
    ensures Split(Unlines(ls)) == ls + [""]
  {
    if ls != [] {
      SplitUnlines(ls[1..]);
      SplitLine(ls[0], Unlines(ls[1..]));
      assert ls[0] + "\n" + Unlines(ls[1..]) == Unlines(ls);
      assert [ls[0]] + (ls[1..] + [""]) == ls + [""];
    }
  }

  lemma {:induction false} SplitOne(l: string)
    requires OneLine(l)
    ensures Split(l) == [l]
  {
    if l != "" {
      SplitOne(l[1..]);
      assert [l[0]] + l[1..] == l;
    }
  }

  lemma {:induction false} SplitJoin(ls: seq<string>)
    requires ls != [] && forall l | l in ls :: OneLine(l)
    ensures Split(Join(ls)) == ls
  {
    if |ls| == 1 {
      SplitOne(ls[0]);
    } else {
      SplitJoin(ls[1..]);
      SplitLine(ls[0], Join(ls[1..]));
      assert [ls[0]] + ls[1..] == ls;
    }
  }

  lemma {:induction false} JoinSplit(s: string)
    ensures Join(Split(s)) == s
  {
    if s != "" {
      JoinSplit(s[1..]);
      var rest := Split(s[1..]);
      if s[0] == '\n' {
        assert ([""] + rest)[1..] == rest;
        assert [s[0]] + s[1..] == s;
      } else {
        var r := [[s[0]] + rest[0]] + rest[1..];
        assert r[1..] == rest[1..];
        assert Join(r) == [s[0]] + Join(rest);
        assert [s[0]] + s[1..] == s;
      }
    }
  }

  /** A block of text and a newline are its lines, each with a newline. */
  lemma UnlinesSplit(s: string)
    ensures Unlines(Split(s)) == s + "\n"
  {
    hide Split, Join, Unlines;
    UnlinesJoin(Split(s));
    JoinSplit(s);
  }

  lemma {:induction false} UnlinesJoin(ls: seq<string>)
    requires ls != []
    ensures Unlines(ls) == Join(ls) + "\n"
  {
    if |ls| == 1 {
      assert ls[1..] == [];
    } else {
      UnlinesJoin(ls[1..]);
    }
  }

  /** The lines printed for each item, one after the other. */
  function Flat<T>(f: T -> seq<string>, xs: seq<T>): seq<string> {
    if xs == [] then [] else f(xs[0]) + Flat(f, xs[1..])
  }

  lemma {:induction false} FlatSnoc<T>(f: T -> seq<string>, xs: seq<T>, i: nat)
    requires i < |xs|
    ensures Flat(f, xs[..i + 1]) == Flat(f, xs[..i]) + f(xs[i])
  {
    if i == 0 {
      assert xs[..1][1..] == [];
    } else {
      FlatSnoc(f, xs[1..], i - 1);
      assert xs[..i + 1][1..] == xs[1..][..i] && xs[..i][1..] == xs[1..][..i - 1];
      assert Flat(f, xs[..i + 1]) == f(xs[0]) + (Flat(f, xs[1..][..i - 1]) + f(xs[i]));
    }
  }

  // ---------------------------------------------------------------------------------------
  // Prose: blocks of plain lines
  // ---------------------------------------------------------------------------------------

  /** A line kept as prose: visible, trimmed, and none of the lines a parser takes for something else. */
  ghost predicate Plain(l: string, taken: string -> bool) {
    l != "" && Field(l) && !taken(l)
  }

  ghost predicate AllPlain(ls: seq<string>, taken: string -> bool) {
    forall l | l in ls :: Plain(l, taken)
  }

  ghost predicate Prose(p: string, taken: string -> bool) {
    p == "" || AllPlain(Split(p), taken)
  }

  /** The lines a prose block prints. */
  function Block(p: string): seq<string> {
    if p == "" then [] else Split(p)
  }

  /** What the parsers make of the prose lines they collected. */
  function Collected(ls: seq<string>): string {
    TrimSpace(Join(ls))
  }

  lemma {:induction false} JoinTrimmed(ls: seq<string>)
    requires ls != [] && forall l | l in ls :: l != "" && Trimmed(l)
    ensures Join(ls) != "" && Trimmed(Join(ls)) && Join(ls)[0] == ls[0][0]
  {
    hide IsSpace;
    if |ls| > 1 {
      forall l | l in ls[1..] ensures l in ls {}
      JoinTrimmed(ls[1..]);
      var t := Join(ls[1..]);
      assert Join(ls)[|Join(ls)| - 1] == t[|t| - 1];
      assert ls[0] in ls;
    } else {
      assert ls[0] in ls;
    }
  }

  lemma CollectedBlock(ls: seq<string>, taken: string -> bool)
    requires AllPlain(ls, taken)
    ensures Prose(Collected(ls), taken)
    ensures Block(Collected(ls)) == ls
  {
    hide IsSpace, Split, Join, TrimSpace;
    if ls == [] {
      EmptyCollected();
    } else {
      JoinTrimmed(ls);
      TrimmedStays(Join(ls));
      SplitJoin(ls);
    }
  }

  lemma AppendIff(ls: seq<string>, t: string, taken: string -> bool)
    requires t != "" && Field(t)
    ensures AllPlain(ls + [t], taken) <==> AllPlain(ls, taken) && !taken(t)
  {
    hide Field;
    assert forall l | l in ls :: l in ls + [t];
    assert t in ls + [t];
  }

  lemma NothingPlain(taken: string -> bool)
    ensures AllPlain([], taken)
  {
  }

  /** Collecting tidy lines loses none of them, so the prose is as clean as the lines. */
  lemma CollectedIff(ls: seq<string>, tidy: string -> bool, taken: string -> bool)
    requires AllPlain(ls, tidy)
    ensures Prose(Collected(ls), taken) <==> AllPlain(ls, taken)
  {
    hide Collected, Split, Plain;
    CollectedBlock(ls, tidy);
  }

  lemma EmptyCollected()
    ensures Collected([]) == ""
  {
  }

  lemma BlockCollected(p: string, taken: string -> bool)
    requires Prose(p, taken)
    ensures AllPlain(Block(p), taken)
    ensures Collected(Block(p)) == p
  {
    hide IsSpace, Split, Join, TrimSpace;
    if p == "" {
      EmptyCollected();
    } else {
      JoinSplit(p);
      JoinTrimmed(Split(p));
      TrimmedStays(p);
    }
  }

  lemma UnlinesBlock(p: string)
    requires p != ""
    ensures Unlines(Block(p)) == p + "\n"
  {
    UnlinesSplit(p);
  }

  // ---------------------------------------------------------------------------------------
  // ASCII letter case
  // ---------------------------------------------------------------------------------------

  function LowerChar(c: char): char {
    if 'A' <= c <= 'Z' then c + 32 as char else c
  }

  function UpperChar(c: char): char {
    if 'a' <= c <= 'z' then c - 32 as char else c
  }

  function Lower(s: string): (r: string)
    ensures |r| == |s|
    ensures forall i | 0 <= i < |s| :: r[i] == LowerChar(s[i])
  {
    if s == "" then "" else [LowerChar(s[0])] + Lower(s[1..])
  }

  function Upper(s: string): (r: string)
    ensures |r| == |s|
    ensures forall i | 0 <= i < |s| :: r[i] == UpperChar(s[i])
  {
    if s == "" then "" else [UpperChar(s[0])] + Upper(s[1..])
  }

  lemma LowerIs(a: string, b: string)
    requires |a| == |b| && forall i | 0 <= i < |a| :: LowerChar(a[i]) == b[i]
    ensures Lower(a) == b
  {
    hide Lower;
  }

  // ---------------------------------------------------------------------------------------
  // Quoted text in messages
  // ---------------------------------------------------------------------------------------

  function HexDigit(n: nat): char
    requires n < 16
  {
    if n < 10 then '0' + n as char else 'a' + (n - 10) as char
  }

  /** One character as it stands between double quotes; beyond ASCII every character stands for itself. */
  function QuotedChar(c: char): string {
    if c == '"' || c == '\\' then ['\\', c]
    else if c == '\U{7}' then "\\a"
    else if c == '\U{8}' then "\\b"
    else if c == '\U{C}' then "\\f"
    else if c == '\n' then "\\n"
    else if c == '\r' then "\\r"
    else if c == '\t' then "\\t"
    else if c == '\U{B}' then "\\v"
    else if c < ' ' || c == '\U{7F}' then "\\x" + [HexDigit(c as int / 16), HexDigit(c as int % 16)]
    else [c]
  }

  function QuotedChars(s: string): string {
    if s == "" then "" else QuotedChar(s[0]) + QuotedChars(s[1..])
  }

  function Quoted(s: string): string {
    "\"" + QuotedChars(s) + "\""
  }

  /** Text without quotes, backslashes and control characters is only put between quotes. */
  lemma {:induction false} QuotedPlain(s: string)
    requires forall c | c in s :: 32 <= c as int && c as int != 127 && c != '"' && c != '\\'
    ensures Quoted(s) == "\"" + s + "\""
  {
    PlainChars(s);
  }

  lemma {:induction false} PlainChars(s: string)
    requires forall c | c in s :: 32 <= c as int && c as int != 127 && c != '"' && c != '\\'
    ensures QuotedChars(s) == s
  {
    hide QuotedChar;
    if s != "" {
      assert s[0] in s && forall c | c in s[1..] :: c in s;
      PlainChars(s[1..]);
      PlainChar(s[0]);
      assert [s[0]] + s[1..] == s;
    }
  }

  lemma PlainChar(c: char)
    requires 32 <= c as int && c as int != 127 && c != '"' && c != '\\'
    ensures QuotedChar(c) == [c]
  {
  }

  // ---------------------------------------------------------------------------------------
  // Folding a parser over lines
  // ---------------------------------------------------------------------------------------

  function Fold<S>(f: (S, string) -> S, s: S, ls: seq<string>): S {
    if ls == [] then s else Fold(f, f(s, ls[0]), ls[1..])
  }

  lemma {:induction false} FoldAppend<S>(f: (S, string) -> S, s: S, a: seq<string>, b: seq<string>)
    ensures Fold(f, s, a + b) == Fold(f, Fold(f, s, a), b)
  {
    if a == [] {
      assert a + b == b;
    } else {
      FoldAppend(f, f(s, a[0]), a[1..], b);
      assert (a + b)[1..] == a[1..] + b;
    }
  }

  lemma FoldOne<S>(f: (S, string) -> S, s: S, l: string)
    ensures Fold(f, s, [l]) == f(s, l)
  {
    assert [l][1..] == [];
  }

  lemma FoldSnoc<S>(f: (S, string) -> S, s: S, ls: seq<string>, i: nat)
    requires i < |ls|
    ensures Fold(f, s, ls[..i + 1]) == f(Fold(f, s, ls[..i]), ls[i])
  {
    assert ls[..i + 1] == ls[..i] + [ls[i]];
    FoldAppend(f, s, ls[..i], [ls[i]]);
    FoldOne(f, Fold(f, s, ls[..i]), ls[i]);
  }
}

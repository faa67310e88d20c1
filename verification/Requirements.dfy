/** Sandbox requirements: which are valid, their normal form, and the names probes are stamped under. */
module Requirements {
  import opened Text
  import opened Ordering
  import RequirementIds

  datatype Probe = Probe(name: string, command: string, expectExit: int)

  datatype SandboxRequirements = SandboxRequirements(
    languages: seq<string>, tools: seq<string>, services: seq<string>, network: string,
    secrets: seq<string>, mounts: seq<string>, privileges: seq<string>, verification: seq<Probe>)

  // ---------------------------------------------------------------------------------------
  // Tokens
  // ---------------------------------------------------------------------------------------

  function Token(s: string): string {
    Lower(TrimSpace(s))
  }

  lemma TokenIdempotent(s: string)
    ensures Token(Token(s)) == Token(s)
  {
    hide Lower, TrimSpace, IsSpace, LowerChar;
    var t := TrimSpace(s);
    TrimSpaceTrims(s);
    assert Trimmed(Lower(t)) by {
      if t != "" {
        LowerKeepsSpace(t[0]);
        LowerKeepsSpace(t[|t| - 1]);
      }
    }
    TrimmedStays(Lower(t));
    LowerTwice(t);
  }

  lemma LowerKeepsSpace(c: char)
    ensures IsSpace(LowerChar(c)) <==> IsSpace(c)
  {
  }

  lemma LowerTwice(s: string)
    ensures Lower(Lower(s)) == Lower(s)
  {
    hide Lower;
  }

  /** The non-empty tokens of a list. */
  function Tokens(xs: seq<string>): set<string> {
    set x | x in xs && Token(x) != "" :: Token(x)
  }

  function Elements(xs: seq<string>): set<string> {
    set x | x in xs
  }

  lemma TokensOfListing(s: set<string>, xs: seq<string>)
    requires s == Tokens(xs)
    ensures Tokens(Listing(s)) == s && Listing(Tokens(Listing(s))) == Listing(s)
  {
    hide Token, Listing;
    forall t ensures t in Tokens(Listing(s)) <==> t in s {
      if t in s {
        var x :| x in xs && Token(x) == t;
        TokenIdempotent(x);
        assert t in Listing(s) && Token(t) == t;
      }
      if t in Tokens(Listing(s)) {
        var y :| y in Listing(s) && Token(y) == t;
        var x :| x in xs && Token(x) == y;
        TokenIdempotent(x);
      }
    }
  }

  // ---------------------------------------------------------------------------------------
  // Probe names as predicate segments
  // ---------------------------------------------------------------------------------------

  const MAX_SEGMENT := 55

  /** Runs of other characters become single hyphens, none in front; cut to length; none at the end. */
  function Kebab(name: string): string {
    var b := RequirementIds.Collapse(Lower(name), true);
    var cut := RequirementIds.CutEnd(if |b| > MAX_SEGMENT then b[..MAX_SEGMENT] else b);
    if cut == "" then "probe" else cut
  }

  predicate NoDoubleHyphen(s: string) {
    forall i | 0 <= i < |s| - 1 :: !(s[i] == '-' && s[i + 1] == '-')
  }

  predicate SegmentShape(s: string) {
    && s != "" && RequirementIds.KeyChars(s) && NoDoubleHyphen(s)
    && s[0] != '-' && s[|s| - 1] != '-' && |s| <= MAX_SEGMENT
  }

  lemma {:induction false} CollapseSingles(s: string, inRun: bool)
    ensures var r := RequirementIds.Collapse(s, inRun); NoDoubleHyphen(r) && (inRun && r != "" ==> r[0] != '-')
  {
    if s != "" {
      CollapseSingles(s[1..], false);
      CollapseSingles(s[1..], true);
    }
  }

  lemma {:induction false} CutEndPrefix(s: string)
    ensures RequirementIds.CutEnd(s) <= s
  {
    if s != "" && s[|s| - 1] == '-' { CutEndPrefix(s[..|s| - 1]); }
  }

  lemma ProbeWord()
    ensures SegmentShape("probe")
  {
    assert |"probe"| == 5;
  }

  /** Every stamped probe segment is lower-kebab and leaves room for its prefix within 64 bytes. */
  lemma KebabShape(name: string)
    ensures SegmentShape(Kebab(name)) && |"verified-" + Kebab(name)| <= 64
  {
    hide RequirementIds.Collapse, RequirementIds.CutEnd, Lower;
    var b := RequirementIds.Collapse(Lower(name), true);
    CollapseSingles(Lower(name), true);
    RequirementIds.CollapseChars(Lower(name), true);
    var c := if |b| > MAX_SEGMENT then b[..MAX_SEGMENT] else b;
    assert RequirementIds.KeyChars(c) && NoDoubleHyphen(c);
    CutEndPrefix(c);
    RequirementIds.CutEndChars(c);
    ProbeWord();
  }

  lemma CutNothing(s: string)
    requires s != "" ==> s[|s| - 1] != '-'
    ensures RequirementIds.CutEnd(s) == s
  {
  }

  lemma CutOne(s: string)
    requires s != "" ==> s[|s| - 1] != '-'
    ensures RequirementIds.CutEnd(s + "-") == s
  {
    assert (s + "-")[..|s|] == s;
    CutNothing(s);
  }

  /** What is cut from joined words that are too long: everything after 55 characters, and a hyphen left at the end. */
  lemma CutLong(h: string)
    requires |h| > 55 && NoDoubleHyphen(h)
    ensures RequirementIds.CutEnd(h[..55]) == if h[54] == '-' then h[..54] else h[..55]
  {
    hide RequirementIds.CutEnd;
    if h[54] == '-' {
      assert h[53] != '-';
      CutOne(h[..54]);
      assert h[..55] == h[..54] + "-";
    } else {
      CutNothing(h[..55]);
    }
  }

  /** A stamped segment is the words of the lowered name joined by hyphens, "probe" without any, cut to 55 characters. */
  lemma KebabIsWords(name: string, words: seq<string>)
    requires RequirementIds.WordsOf(Lower(name), words)
    ensures var h := RequirementIds.Hyphenated(words);
            Kebab(name) == if words == [] then "probe"
                           else if |h| <= 55 then h
                           else if h[54] == '-' then h[..54] else h[..55]
  {
    hide RequirementIds.Collapse, RequirementIds.CutEnd, RequirementIds.WordsOf, RequirementIds.Hyphenated, RequirementIds.Trail, Lower;
    var t, h := Lower(name), RequirementIds.Hyphenated(words);
    var b := RequirementIds.Collapse(t, true);
    RequirementIds.CollapseIs(t, words, true);
    if words == [] {
      CutNothing("");
    } else {
      RequirementIds.HyphenatedEnds(t, words);
      CollapseSingles(t, true);
      var trail := RequirementIds.Trail(t);
      assert b == h + trail;
      TrailIs(t);
      if |h| <= 55 {
        if |b| > 55 { assert b[..55] == h; }
        if trail == "-" { CutOne(h); } else { assert b == h; }
        CutNothing(h);
      } else {
        assert b[..55] == h[..55];
        assert NoDoubleHyphen(h) by { HyphensOf(h, trail); }
        CutLong(h);
      }
    }
  }

  lemma TrailIs(s: string)
    ensures RequirementIds.Trail(s) == "" || RequirementIds.Trail(s) == "-"
  {
  }

  lemma HyphensOf(h: string, trail: string)
    requires NoDoubleHyphen(h + trail)
    ensures NoDoubleHyphen(h)
  {
    var b := h + trail;
    forall i | 0 <= i < |h| - 1 ensures !(h[i] == '-' && h[i + 1] == '-') {
      assert b[i] == h[i] && b[i + 1] == h[i + 1];
    }
  }

  // ---------------------------------------------------------------------------------------
  // Validation
  // ---------------------------------------------------------------------------------------

  predicate TokenShape(s: string) {
    && s != "" && RequirementIds.SlugChar(s[0])
    && forall i | 0 <= i < |s| :: RequirementIds.SlugChar(s[i]) || s[i] == '.' || s[i] == '_' || s[i] == '-'
  }

  predicate SecretShape(s: string) {
    && s != "" && ('A' <= s[0] <= 'Z' || s[0] == '_')
    && forall i | 0 <= i < |s| :: 'A' <= s[i] <= 'Z' || '0' <= s[i] <= '9' || s[i] == '_'
  }

  predicate CommandShape(s: string) {
    s != "" && forall i | 0 <= i < |s| :: (s[i] >= ' ' || s[i] == '\t' || s[i] == '\n') && s[i] != '\U{7f}'
  }

  predicate ProbeOk(p: Probe) {
    TokenShape(Token(p.name)) && CommandShape(TrimSpace(p.command))
  }

  predicate Tokenlike(xs: seq<string>) {
    forall x | x in xs :: TokenShape(Token(x))
  }

  ghost predicate SegmentsDiffer(ps: seq<Probe>) {
    forall i, j | 0 <= i < j < |ps| :: Kebab(TrimSpace(ps[i].name)) != Kebab(TrimSpace(ps[j].name))
  }

  ghost predicate Valid(r: SandboxRequirements) {
    && Tokenlike(r.languages) && Tokenlike(r.tools) && Tokenlike(r.services)
    && r.network in ["", "restricted", "public", "none"]
    && (forall s | s in r.secrets :: SecretShape(TrimSpace(s)))
    && (forall m | m in r.mounts :: m in ["workspace-write", "workspace-read"])
    && (forall p | p in r.privileges :: p in ["docker-socket", "privileged"])
    && (forall p | p in r.verification :: ProbeOk(p))
    && SegmentsDiffer(r.verification)
  }

  // ---------------------------------------------------------------------------------------
  // The normal form
  // ---------------------------------------------------------------------------------------

  function NormalProbe(p: Probe): Probe {
    Probe(Token(p.name), TrimSpace(p.command), p.expectExit)
  }

  function NormalProbes(ps: seq<Probe>): seq<Probe> {
    seq(|ps|, i requires 0 <= i < |ps| => NormalProbe(ps[i]))
  }

  function ProbeNames(ps: seq<Probe>): seq<string> {
    seq(|ps|, i requires 0 <= i < |ps| => ps[i].name)
  }

  /** The probes, each normalized, in name order; equal names in any order. */
  ghost predicate ProbesSorted(ps: seq<Probe>, qs: seq<Probe>) {
    multiset(qs) == multiset(NormalProbes(ps)) && Sorted(ProbeNames(qs))
  }

  ghost predicate NormalForm(r: SandboxRequirements, n: SandboxRequirements) {
    && n.languages == Listing(Tokens(r.languages))
    && n.tools == Listing(Tokens(r.tools))
    && n.services == Listing(Tokens(r.services))
    && n.network == (if r.network == "" then "restricted" else r.network)
    && n.secrets == Listing(Tokens(r.secrets))
    && n.mounts == Listing(Elements(r.mounts))
    && n.privileges == Listing(Elements(r.privileges))
    && ProbesSorted(r.verification, n.verification)
  }

  /** The list is what the other one comes to: every item trimmed and lowered, without empty ones. */
  ghost predicate Lowered(xs: seq<string>, ys: seq<string>) {
    forall y :: y in ys <==> y != "" && exists x :: x in xs && y == Lower(TrimSpace(x))
  }

  lemma ListingLowers(xs: seq<string>)
    ensures Lowered(xs, Listing(Tokens(xs)))
  {
    hide Lower, TrimSpace, Listing;
    forall y ensures y in Tokens(xs) <==> y != "" && exists x :: x in xs && y == Lower(TrimSpace(x)) {
      if x :| x in xs && y == Lower(TrimSpace(x)) { assert Token(x) == y; }
      if y in Tokens(xs) { var x :| x in xs && Token(x) == y; }
    }
  }

  lemma {:induction false} NormalMembers(ps: seq<Probe>, p: Probe)
    ensures p in NormalProbes(ps) <==> exists q :: q in ps && p == Probe(Lower(TrimSpace(q.name)), TrimSpace(q.command), q.expectExit)
  {
    hide Lower, TrimSpace;
    var qs := NormalProbes(ps);
    if p in qs { var i :| 0 <= i < |qs| && qs[i] == p; assert ps[i] in ps; }
    if q :| q in ps && p == Probe(Lower(TrimSpace(q.name)), TrimSpace(q.command), q.expectExit) {
      var i :| 0 <= i < |ps| && ps[i] == q;
      assert qs[i] == p;
    }
  }

  /** What is in a normal form: lists trimmed, lowered and in order, probes with trimmed commands, and a network in any case. */
  lemma NormalFormHolds(r: SandboxRequirements, n: SandboxRequirements)
    requires NormalForm(r, n)
    ensures Lowered(r.languages, n.languages) && Lowered(r.tools, n.tools) && Lowered(r.services, n.services) && Lowered(r.secrets, n.secrets)
    ensures Strict(n.languages) && Strict(n.tools) && Strict(n.services) && Strict(n.secrets) && Strict(n.mounts) && Strict(n.privileges)
    ensures forall m :: m in n.mounts <==> m in r.mounts
    ensures forall p :: p in n.privileges <==> p in r.privileges
    ensures r.network == "" ==> n.network == "restricted"
    ensures r.network != "" ==> n.network == r.network
    ensures |n.verification| == |r.verification|
    ensures forall p :: p in n.verification <==>
              exists q :: q in r.verification && p == Probe(Lower(TrimSpace(q.name)), TrimSpace(q.command), q.expectExit)
  {
    hide Lower, TrimSpace, Listing, Lowered, NormalProbes, Strict, Tokens;
    ListingLowers(r.languages);
    ListingLowers(r.tools);
    ListingLowers(r.services);
    ListingLowers(r.secrets);
    var qs := NormalProbes(r.verification);
    assert |qs| == |r.verification| by { NormalCount(r.verification); }
    assert |n.verification| == |multiset(n.verification)| == |multiset(qs)| == |qs|;
    forall p ensures p in n.verification <==>
              exists q :: q in r.verification && p == Probe(Lower(TrimSpace(q.name)), TrimSpace(q.command), q.expectExit) {
      NormalMembers(r.verification, p);
      assert p in n.verification <==> p in multiset(n.verification);
      assert p in qs <==> p in multiset(qs);
    }
  }

  lemma NormalCount(ps: seq<Probe>)
    ensures |NormalProbes(ps)| == |ps|
  {
  }

  function ProbeSet(ps: seq<Probe>): set<Probe> {
    set p | p in ps :: NormalProbe(p)
  }

  /** The same tokens, mounts, privileges and probes, whatever the order, case, blanks and repetition. */
  ghost predicate SameContent(r: SandboxRequirements, s: SandboxRequirements) {
    && Tokens(r.languages) == Tokens(s.languages) && Tokens(r.tools) == Tokens(s.tools)
    && Tokens(r.services) == Tokens(s.services) && Tokens(r.secrets) == Tokens(s.secrets)
    && (if r.network == "" then "restricted" else r.network) == (if s.network == "" then "restricted" else s.network)
    && Elements(r.mounts) == Elements(s.mounts) && Elements(r.privileges) == Elements(s.privileges)
    && ProbeSet(r.verification) == ProbeSet(s.verification)
  }

  // ---------------------------------------------------------------------------------------
  // The normal form is canonical
  // ---------------------------------------------------------------------------------------

  lemma ListingInjective(s: set<string>, t: set<string>)
    ensures Listing(s) == Listing(t) <==> s == t
  {
    hide Listing;
    if Listing(s) == Listing(t) {
      forall x ensures x in s <==> x in t { assert x in s <==> x in Listing(s); }
    }
  }

  lemma KebabOfToken(name: string)
    ensures Kebab(Token(name)) == Kebab(TrimSpace(name)) && Kebab(TrimSpace(Token(name))) == Kebab(TrimSpace(name))
  {
    hide Lower, TrimSpace, RequirementIds.Collapse, RequirementIds.CutEnd;
    LowerTwice(TrimSpace(name));
    TokenIdempotent(name);
    TokenTrimmed(name);
  }

  lemma TokenTrimmed(name: string)
    ensures TrimSpace(Token(name)) == Token(name)
  {
    hide Lower, TrimSpace, IsSpace, LowerChar;
    var t := TrimSpace(name);
    TrimSpaceTrims(name);
    if t != "" {
      LowerKeepsSpace(t[0]);
      LowerKeepsSpace(t[|t| - 1]);
    }
    TrimmedStays(Lower(t));
  }

  ghost predicate NamesDiffer(ps: seq<Probe>) {
    forall i, j | 0 <= i < j < |ps| :: ps[i].name != ps[j].name
  }

  lemma SegmentsGiveNames(ps: seq<Probe>)
    requires SegmentsDiffer(ps)
    ensures NamesDiffer(NormalProbes(ps))
  {
    hide Kebab, Token;
    forall i, j | 0 <= i < j < |ps| ensures NormalProbes(ps)[i].name != NormalProbes(ps)[j].name {
      KebabOfToken(ps[i].name);
      KebabOfToken(ps[j].name);
    }
  }

  lemma NamesAppend(a: seq<Probe>, b: seq<Probe>)
    ensures ProbeNames(a + b) == ProbeNames(a) + ProbeNames(b)
  {
  }

  lemma NamesOne(x: Probe)
    ensures ProbeNames([x]) == [x.name] && ProbeNames([]) == []
  {
  }

  lemma Without(b: seq<Probe>, k: nat)
    requires k < |b|
    ensures b == b[..k] + ([b[k]] + b[k + 1..])
    ensures multiset(b) == multiset(b[..k] + b[k + 1..]) + multiset{b[k]}
  {
    assert b == b[..k] + ([b[k]] + b[k + 1..]);
  }

  lemma TakeOut(b: seq<Probe>, k: nat)
    requires k < |b|
    ensures multiset(ProbeNames(b)) == multiset(ProbeNames(b[..k] + b[k + 1..])) + multiset{b[k].name}
  {
    hide ProbeNames;
    var c, x, d := b[..k], b[k], b[k + 1..];
    assert b == c + ([x] + d);
    NamesOne(x);
    NamesAppend(c, [x] + d);
    NamesAppend([x], d);
    NamesAppend(c, d);
  }

  lemma RestsEqual(a: seq<Probe>, b: seq<Probe>, k: nat)
    requires multiset(a) == multiset(b) && a != [] && k < |b| && b[k] == a[0]
    ensures multiset(a[1..]) == multiset(b[..k] + b[k + 1..])
  {
    var rest, less := a[1..], b[..k] + b[k + 1..];
    assert a[..0] + a[1..] == rest;
    assert multiset(a) == multiset(rest) + multiset{a[0]} by { Without(a, 0); }
    assert multiset(b) == multiset(less) + multiset{a[0]} by { Without(b, k); }
    Cancel(multiset(rest), multiset(less), a[0]);
  }

  lemma Cancel(m: multiset<Probe>, n: multiset<Probe>, x: Probe)
    requires m + multiset{x} == n + multiset{x}
    ensures m == n
  {
    assert m == (m + multiset{x}) - multiset{x};
    assert n == (n + multiset{x}) - multiset{x};
  }

  lemma {:induction false} NamesMultiset(a: seq<Probe>, b: seq<Probe>)
    requires multiset(a) == multiset(b)
    ensures multiset(ProbeNames(a)) == multiset(ProbeNames(b))
  {
    hide ProbeNames;
    if a == [] {
      assert |b| == |multiset(b)| == 0;
      assert a == b;
    } else {
      assert a[0] in multiset(b);
      var k :| 0 <= k < |b| && b[k] == a[0];
      RestsEqual(a, b, k);
      NamesMultiset(a[1..], b[..k] + b[k + 1..]);
      TakeOut(a, 0);
      assert a[..0] + a[1..] == a[1..];
      TakeOut(b, k);
    }
  }

  lemma SortedNamesStrict(ps: seq<Probe>, qs: seq<Probe>)
    requires ProbesSorted(ps, qs) && NamesDiffer(NormalProbes(ps))
    ensures Strict(ProbeNames(qs)) && NamesDiffer(qs)
    ensures forall q :: q in qs <==> q in NormalProbes(ps)
  {
    hide Sorted, Distinct, NormalProbe;
    var ns, ms := ProbeNames(NormalProbes(ps)), ProbeNames(qs);
    PairwiseDistinct(ns);
    NamesMultiset(qs, NormalProbes(ps));
    forall x ensures multiset(ms)[x] <= 1 { DistinctCount(ns, x); }
    CountDistinct(ms);
    PairwiseDistinct(ms);
    forall i, j | 0 <= i < j < |qs| ensures qs[i].name != qs[j].name { assert ms[i] != ms[j]; }
    forall q ensures q in qs <==> q in NormalProbes(ps) {
      assert q in multiset(qs) <==> q in multiset(NormalProbes(ps));
    }
  }

  lemma ProbeSetIs(ps: seq<Probe>, q: Probe)
    ensures q in ProbeSet(ps) <==> q in NormalProbes(ps)
  {
    hide NormalProbe;
    if q in ProbeSet(ps) {
      var p :| p in ps && NormalProbe(p) == q;
      var i :| 0 <= i < |ps| && ps[i] == p;
      assert NormalProbes(ps)[i] == q;
    }
    if q in NormalProbes(ps) {
      var i :| 0 <= i < |ps| && NormalProbes(ps)[i] == q;
      assert ps[i] in ps;
    }
  }

  lemma SameName(ps: seq<Probe>, x: Probe, y: Probe)
    requires NamesDiffer(ps) && x in ps && y in ps && x.name == y.name
    ensures x == y
  {
    var i :| 0 <= i < |ps| && ps[i] == x;
    var j :| 0 <= j < |ps| && ps[j] == y;
  }

  lemma ProbesCanonical(ps: seq<Probe>, qs: seq<Probe>, ps': seq<Probe>, qs': seq<Probe>)
    requires ProbesSorted(ps, qs) && ProbesSorted(ps', qs') && NamesDiffer(NormalProbes(ps)) && NamesDiffer(NormalProbes(ps'))
    ensures qs == qs' <==> ProbeSet(ps) == ProbeSet(ps')
  {
    hide Strict, NormalProbe, NormalProbes, ProbeSet, Sorted;
    SortedNamesStrict(ps, qs);
    SortedNamesStrict(ps', qs');
    forall q ensures (q in ProbeSet(ps) <==> q in qs) && (q in ProbeSet(ps') <==> q in qs') {
      ProbeSetIs(ps, q);
      ProbeSetIs(ps', q);
    }
    if ProbeSet(ps) == ProbeSet(ps') {
      forall x ensures x in ProbeNames(qs) <==> x in ProbeNames(qs') {
        NameListed(qs, qs', x);
        NameListed(qs', qs, x);
      }
      StrictUnique(ProbeNames(qs), ProbeNames(qs'));
      assert |qs| == |ProbeNames(qs)| == |qs'|;
      forall i | 0 <= i < |qs| ensures qs[i] == qs'[i] {
        assert ProbeNames(qs)[i] == ProbeNames(qs')[i];
        assert qs'[i] in qs;
        SameName(qs, qs[i], qs'[i]);
      }
    }
  }

  lemma NameListed(qs: seq<Probe>, qs': seq<Probe>, x: string)
    requires forall q | q in qs :: q in qs'
    ensures x in ProbeNames(qs) ==> x in ProbeNames(qs')
  {
    if x in ProbeNames(qs) {
      var i :| 0 <= i < |qs| && qs[i].name == x;
      assert qs[i] in qs';
      var j :| 0 <= j < |qs'| && qs'[j] == qs[i];
      assert ProbeNames(qs')[j] == x;
    }
  }

  /** Two validated requirements have the same normal form exactly when they have the same content. */
  lemma NormalFormsEqualIffSameContent(r: SandboxRequirements, n: SandboxRequirements, s: SandboxRequirements, m: SandboxRequirements)
    requires SegmentsDiffer(r.verification) && SegmentsDiffer(s.verification) && NormalForm(r, n) && NormalForm(s, m)
    ensures n == m <==> SameContent(r, s)
  {
    hide Listing, Tokens, Elements, ProbeSet, ProbesSorted, SegmentsDiffer, NormalProbes;
    ListingInjective(Tokens(r.languages), Tokens(s.languages));
    ListingInjective(Tokens(r.tools), Tokens(s.tools));
    ListingInjective(Tokens(r.services), Tokens(s.services));
    ListingInjective(Tokens(r.secrets), Tokens(s.secrets));
    ListingInjective(Elements(r.mounts), Elements(s.mounts));
    ListingInjective(Elements(r.privileges), Elements(s.privileges));
    SegmentsGiveNames(r.verification);
    SegmentsGiveNames(s.verification);
    ProbesCanonical(r.verification, n.verification, s.verification, m.verification);
  }

  lemma NormalProbeTwice(p: Probe)
    ensures NormalProbe(NormalProbe(p)) == NormalProbe(p)
  {
    hide Token, TrimSpace;
    TokenIdempotent(p.name);
    TrimSpaceTrims(p.command);
    TrimmedStays(TrimSpace(p.command));
  }

  lemma NormalProbesStay(ps: seq<Probe>, qs: seq<Probe>)
    requires ProbesSorted(ps, qs)
    ensures NormalProbes(qs) == qs && ProbeSet(qs) == ProbeSet(ps)
  {
    hide NormalProbe, Sorted;
    forall q ensures q in qs <==> q in NormalProbes(ps) {
      assert q in multiset(qs) <==> q in multiset(NormalProbes(ps));
    }
    forall i | 0 <= i < |qs| ensures NormalProbe(qs[i]) == qs[i] {
      assert qs[i] in NormalProbes(ps);
      var k :| 0 <= k < |ps| && NormalProbes(ps)[k] == qs[i];
      NormalProbeTwice(ps[k]);
    }
    assert NormalProbes(qs) == qs;
    forall q ensures q in ProbeSet(qs) <==> q in ProbeSet(ps) {
      ProbeSetIs(qs, q);
      ProbeSetIs(ps, q);
    }
  }

  lemma ElementsOfListing(s: set<string>)
    ensures Elements(Listing(s)) == s
  {
    hide Listing;
  }

  /** Stamped under their segments, the normalized probes of a validated requirement never share a predicate. */
  lemma StampedSegmentsDiffer(r: SandboxRequirements, n: SandboxRequirements)
    requires SegmentsDiffer(r.verification) && NormalForm(r, n)
    ensures forall i, j | 0 <= i < j < |n.verification| :: Kebab(n.verification[i].name) != Kebab(n.verification[j].name)
    ensures SegmentsDiffer(n.verification)
  {
    hide Listing, Kebab, Token, ProbesSorted, TrimSpace;
    var ps, qs := r.verification, n.verification;
    SegmentsGiveNames(ps);
    SortedNamesStrict(ps, qs);
    forall i, j | 0 <= i < j < |qs|
      ensures Kebab(qs[i].name) != Kebab(qs[j].name) && Kebab(TrimSpace(qs[i].name)) != Kebab(TrimSpace(qs[j].name))
    {
      assert qs[i] in NormalProbes(ps) && qs[j] in NormalProbes(ps);
      var a :| 0 <= a < |ps| && NormalProbes(ps)[a] == qs[i];
      var b :| 0 <= b < |ps| && NormalProbes(ps)[b] == qs[j];
      KebabOfToken(ps[a].name);
      KebabOfToken(ps[b].name);
      assert a != b;
    }
  }

  /** Normalizing a normal form changes nothing. */
  lemma NormalizeIdempotent(r: SandboxRequirements, n: SandboxRequirements, m: SandboxRequirements)
    requires SegmentsDiffer(r.verification) && NormalForm(r, n) && NormalForm(n, m)
    ensures m == n
  {
    hide Listing, Tokens, Elements, ProbesSorted, ProbeSet, SegmentsDiffer, NormalProbes;
    TokensOfListing(Tokens(r.languages), r.languages);
    TokensOfListing(Tokens(r.tools), r.tools);
    TokensOfListing(Tokens(r.services), r.services);
    TokensOfListing(Tokens(r.secrets), r.secrets);
    ElementsOfListing(Elements(r.mounts));
    ElementsOfListing(Elements(r.privileges));
    NormalProbesStay(r.verification, n.verification);
    StampedSegmentsDiffer(r, n);
    NormalFormsEqualIffSameContent(r, n, n, m);
  }

  // ---------------------------------------------------------------------------------------
  // Validating a normal form
  // ---------------------------------------------------------------------------------------

  predicate HasLetter(s: string) {
    exists i :: 0 <= i < |s| && 'A' <= s[i] <= 'Z'
  }

  /** A lowered letter never occurs in a name of the validated shape. */
  lemma LoweredIsNoSecret(s: string, t: string)
    requires HasLetter(s) && SecretShape(t)
    ensures Lower(s) != t
  {
    hide Lower;
    var i :| 0 <= i < |s| && 'A' <= s[i] <= 'Z';
    assert Lower(s)[i] == LowerChar(s[i]);
  }

  lemma LetterlessStays(s: string)
    requires SecretShape(s) && !HasLetter(s)
    ensures Lower(s) == s
  {
    hide Lower;
    forall i | 0 <= i < |s| ensures LowerChar(s[i]) == s[i] {
      assert !('A' <= s[i] <= 'Z');
    }
  }

  lemma LowerOfSecret(s: string)
    requires SecretShape(s)
    ensures SecretShape(Lower(s)) <==> !HasLetter(s)
  {
    hide Lower;
    if HasLetter(s) {
      if SecretShape(Lower(s)) { LoweredIsNoSecret(s, Lower(s)); }
    } else {
      LetterlessStays(s);
    }
  }

  lemma SecretsStayValidIff(r: SandboxRequirements, n: SandboxRequirements)
    requires NormalForm(r, n) && forall s | s in r.secrets :: SecretShape(TrimSpace(s))
    ensures (forall x | x in n.secrets :: SecretShape(TrimSpace(x))) <==> forall s | s in r.secrets :: !HasLetter(TrimSpace(s))
  {
    hide Listing, TrimSpace, Lower, SecretShape, HasLetter, ProbesSorted;
    forall s | s in r.secrets ensures Token(s) in n.secrets && (SecretShape(TrimSpace(Token(s))) <==> !HasLetter(TrimSpace(s))) {
      TokenTrimmed(s);
      LowerOfSecret(TrimSpace(s));
      SecretNotEmpty(TrimSpace(s));
      assert Token(s) in Tokens(r.secrets);
    }
    forall x | x in n.secrets ensures exists s :: s in r.secrets && Token(s) == x {
      assert x in Tokens(r.secrets);
    }
  }

  lemma SecretNotEmpty(s: string)
    requires SecretShape(s)
    ensures Lower(s) != ""
  {
  }

  lemma TokensStayValid(xs: seq<string>)
    requires Tokenlike(xs)
    ensures Tokenlike(Listing(Tokens(xs)))
  {
    hide Listing, Token, TokenShape;
    forall t | t in Listing(Tokens(xs)) ensures TokenShape(Token(t)) {
      var x :| x in xs && Token(x) == t;
      TokenIdempotent(x);
    }
  }

  lemma ProbesStayValid(ps: seq<Probe>, qs: seq<Probe>)
    requires ProbesSorted(ps, qs) && forall p | p in ps :: ProbeOk(p)
    ensures forall q | q in qs :: ProbeOk(q)
  {
    hide Sorted, Token, TrimSpace, TokenShape, CommandShape;
    forall q | q in qs ensures ProbeOk(q) {
      assert q in multiset(qs);
      assert q in NormalProbes(ps);
      var k :| 0 <= k < |ps| && NormalProbes(ps)[k] == q;
      assert ps[k] in ps && ProbeOk(ps[k]);
      NormalProbeTwice(ps[k]);
    }
  }

  /**
  Validation may be repeated after normalization exactly when no secret has a letter: everything else stays valid, but a
  lowered name is no longer of the shape that validation asks for.
  */
  lemma NormalFormIsValidIff(r: SandboxRequirements, n: SandboxRequirements)
    requires Valid(r) && NormalForm(r, n)
    ensures Valid(n) <==> forall s | s in r.secrets :: !HasLetter(TrimSpace(s))
  {
    hide Tokenlike, SecretShape, ProbeOk, SegmentsDiffer, Tokens, ProbesSorted, Listing, HasLetter, TrimSpace;
    TokensStayValid(r.languages);
    TokensStayValid(r.tools);
    TokensStayValid(r.services);
    SecretsStayValidIff(r, n);
    assert forall m | m in Listing(Elements(r.mounts)) :: m in r.mounts;
    assert forall p | p in Listing(Elements(r.privileges)) :: p in r.privileges;
    ProbesStayValid(r.verification, n.verification);
    StampedSegmentsDiffer(r, n);
  }

  // ---------------------------------------------------------------------------------------
  // The loops of the code
  // ---------------------------------------------------------------------------------------

  lemma OnceEach(out: seq<string>, s: set<string>)
    requires (forall x :: multiset(out)[x] <= 1) && forall x :: x in out <==> x in s
    ensures Sort(out) == Listing(s)
  {
    hide Sorted, Distinct, Listing, Sort;
    CountDistinct(out);
    SortStrict(out);
    StrictUnique(Sort(out), Listing(s));
  }

  method NormalizeTokens(xs: seq<string>) returns (out: seq<string>)
    ensures out == Listing(Tokens(xs))
  {
    hide Token, Listing, Sort;
    out := [];
    var seen: set<string> := {};
    for i := 0 to |xs|
      invariant seen == Tokens(xs[..i])
      invariant (forall x :: multiset(out)[x] <= 1) && forall x :: x in out <==> x in seen
    {
      var tok := Token(xs[i]);
      assert xs[..i + 1] == xs[..i] + [xs[i]];
      if tok != "" && tok !in seen {
        assert tok !in multiset(out);
        seen := seen + {tok};
        out := out + [tok];
      }
    }
    assert xs[..|xs|] == xs;
    OnceEach(out, seen);
    out := Sort(out);
  }

  method NormalizeClasses(xs: seq<string>) returns (out: seq<string>)
    ensures out == Listing(Elements(xs))
  {
    hide Listing, Sort;
    out := [];
    var seen: set<string> := {};
    for i := 0 to |xs|
      invariant seen == Elements(xs[..i])
      invariant (forall x :: multiset(out)[x] <= 1) && forall x :: x in out <==> x in seen
    {
      assert xs[..i + 1] == xs[..i] + [xs[i]];
      if xs[i] !in seen {
        assert xs[i] !in multiset(out);
        seen := seen + {xs[i]};
        out := out + [xs[i]];
      }
    }
    assert xs[..|xs|] == xs;
    OnceEach(out, seen);
    out := Sort(out);
  }

  function InsertProbe(p: Probe, qs: seq<Probe>): seq<Probe> {
    if qs == [] then [p] else if Leq(p.name, qs[0].name) then [p] + qs else [qs[0]] + InsertProbe(p, qs[1..])
  }

  lemma {:induction false} InsertProbeNames(p: Probe, qs: seq<Probe>)
    ensures ProbeNames(InsertProbe(p, qs)) == Insert(p.name, ProbeNames(qs))
  {
    hide Leq, ProbeNames;
    if qs == [] {
      NamesOne(p);
    } else {
      var head, tail := qs[0], qs[1..];
      assert qs == [head] + tail;
      NamesOne(head);
      NamesOne(p);
      NamesAppend([head], tail);
      assert ProbeNames(qs)[0] == head.name && ProbeNames(qs)[1..] == ProbeNames(tail);
      if Leq(p.name, head.name) {
        NamesAppend([p], qs);
      } else {
        InsertProbeNames(p, tail);
        NamesAppend([head], InsertProbe(p, tail));
      }
    }
  }

  lemma {:induction false} InsertProbeKeeps(p: Probe, qs: seq<Probe>)
    ensures multiset(InsertProbe(p, qs)) == multiset(qs) + multiset{p}
  {
    hide Leq;
    if qs != [] {
      InsertProbeKeeps(p, qs[1..]);
      assert qs == [qs[0]] + qs[1..];
    }
  }

  method NormalizeProbes(ps: seq<Probe>) returns (qs: seq<Probe>)
    ensures ProbesSorted(ps, qs)
  {
    hide NormalProbe, InsertProbe, Insert, Sorted;
    qs := [];
    ghost var ns := NormalProbes(ps);
    assert Sorted(ProbeNames(qs)) by { NothingSorted(); }
    for i := 0 to |ps|
      invariant multiset(qs) == multiset(ns[..i]) && Sorted(ProbeNames(qs))
    {
      var p := NormalProbe(ps[i]);
      assert ns[..i + 1] == ns[..i] + [p];
      InsertProbeNames(p, qs);
      InsertProbeKeeps(p, qs);
      InsertSorts(p.name, ProbeNames(qs));
      qs := InsertProbe(p, qs);
    }
    assert ns[..|ps|] == ns;
  }

  lemma NothingSorted()
    ensures Sorted(ProbeNames([]))
  {
  }

  method Normalize(r: SandboxRequirements) returns (n: SandboxRequirements)
    ensures NormalForm(r, n)
  {
    hide Listing, Tokens, Elements, ProbesSorted;
    var languages := NormalizeTokens(r.languages);
    var tools := NormalizeTokens(r.tools);
    var services := NormalizeTokens(r.services);
    var secrets := NormalizeTokens(r.secrets);
    var mounts := NormalizeClasses(r.mounts);
    var privileges := NormalizeClasses(r.privileges);
    var probes := NormalizeProbes(r.verification);
    n := SandboxRequirements(languages, tools, services, if r.network == "" then "restricted" else r.network,
                             secrets, mounts, privileges, probes);
  }

  /** Letters and digits are appended; anything else appends one hyphen, none in front and none after another. */
  method CollapseRuns(s: string) returns (b: string)
    ensures b == RequirementIds.Collapse(s, true)
  {
    hide RequirementIds.Collapse, RequirementIds.SlugChar;
    b := "";
    for i := 0 to |s|
      invariant RequirementIds.Collapse(s, true) == b + RequirementIds.Collapse(s[i..], b == "" || b[|b| - 1] == '-')
    {
      assert s[i..][1..] == s[i + 1..];
      CollapseStep(s[i..], b == "" || b[|b| - 1] == '-');
      HyphenIsNoSlug(s[i]);
      if RequirementIds.SlugChar(s[i]) {
        b := b + [s[i]];
      } else if b != "" && b[|b| - 1] != '-' {
        b := b + "-";
      }
    }
    assert s[|s|..] == "";
    CollapseNothing();
  }

  method DropHyphens(s: string) returns (b: string)
    ensures b == RequirementIds.CutEnd(s)
  {
    hide RequirementIds.CutEnd;
    b := s;
    while |b| > 0 && b[|b| - 1] == '-'
      invariant RequirementIds.CutEnd(b) == RequirementIds.CutEnd(s)
    {
      CutEndStep(b);
      b := b[..|b| - 1];
    }
    CutEndStep(b);
  }

  /** The byte buffer of the code: append, cut, and drop trailing hyphens. */
  method KebabProbeName(name: string) returns (out: string)
    ensures out == Kebab(name) && SegmentShape(out)
  {
    hide RequirementIds.CutEnd, RequirementIds.Collapse, Lower, SegmentShape;
    KebabShape(name);
    var b := CollapseRuns(Lower(name));
    if |b| > MAX_SEGMENT { b := b[..MAX_SEGMENT]; }
    b := DropHyphens(b);
    out := if b == "" then "probe" else b;
  }

  lemma CollapseStep(s: string, inRun: bool)
    requires s != ""
    ensures RequirementIds.Collapse(s, inRun) ==
            if RequirementIds.SlugChar(s[0]) then [s[0]] + RequirementIds.Collapse(s[1..], false)
            else (if inRun then "" else "-") + RequirementIds.Collapse(s[1..], true)
  {
  }

  lemma CollapseNothing()
    ensures RequirementIds.Collapse("", true) == "" && RequirementIds.Collapse("", false) == ""
  {
  }

  lemma HyphenIsNoSlug(c: char)
    ensures RequirementIds.SlugChar(c) ==> c != '-'
  {
  }

  lemma CutEndStep(s: string)
    ensures RequirementIds.CutEnd(s) == if s != "" && s[|s| - 1] == '-' then RequirementIds.CutEnd(s[..|s| - 1]) else s
  {
  }
}

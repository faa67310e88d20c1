/** Matching requirements to the catalog profile that covers them most tightly. */
module ProfileMatching {
  import opened Ordering
  import opened Requirements
  import opened Admission

  // ---------------------------------------------------------------------------------------
  // What a match is
  // ---------------------------------------------------------------------------------------

  predicate Covers(p: Profile, r: SandboxRequirements) {
    && Tokens(r.languages) <= Tokens(p.languages)
    && Tokens(r.tools) <= Tokens(p.tools)
    && Tokens(r.services) <= Tokens(p.services)
  }

  /** Advertised capabilities nobody asked for. */
  function Surplus(p: Profile, r: SandboxRequirements): nat {
    |Tokens(p.languages) - Tokens(r.languages)| + |Tokens(p.tools) - Tokens(r.tools)| + |Tokens(p.services) - Tokens(r.services)|
  }

  function Missing(p: Profile, r: SandboxRequirements): nat {
    |Tokens(r.languages) - Tokens(p.languages)| + |Tokens(r.tools) - Tokens(p.tools)| + |Tokens(r.services) - Tokens(p.services)|
  }

  ghost predicate IsUnmet(p: Profile, r: SandboxRequirements, x: string) {
    || (exists k :: k in Tokens(r.languages) - Tokens(p.languages) && x == "language:" + k)
    || (exists k :: k in Tokens(r.tools) - Tokens(p.tools) && x == "tool:" + k)
    || (exists k :: k in Tokens(r.services) - Tokens(p.services) && x == "service:" + k)
  }

  datatype Match = Matched(index: nat) | NoMatch(unmet: seq<string>) | EmptyCatalog

  /** The first of the covering profiles with the least surplus. */
  ghost predicate BestFit(ps: seq<Profile>, r: SandboxRequirements, i: nat) {
    && i < |ps| && Covers(ps[i], r)
    && (forall j | 0 <= j < |ps| && Covers(ps[j], r) :: Surplus(ps[i], r) <= Surplus(ps[j], r))
    && (forall j | 0 <= j < i && Covers(ps[j], r) :: Surplus(ps[i], r) < Surplus(ps[j], r))
  }

  /** The first of the profiles that miss the fewest needs. */
  ghost predicate Nearest(ps: seq<Profile>, r: SandboxRequirements, i: nat) {
    && i < |ps|
    && (forall j | 0 <= j < |ps| :: Missing(ps[i], r) <= Missing(ps[j], r))
    && (forall j | 0 <= j < i :: Missing(ps[i], r) < Missing(ps[j], r))
  }

  /** The unmet needs of that profile. */
  ghost predicate LeastUnmet(ps: seq<Profile>, r: SandboxRequirements, unmet: seq<string>) {
    exists i :: 0 <= i < |ps| && Nearest(ps, r, i) && UnmetOf(ps[i], r, unmet)
  }

  /** Every unmet need once. */
  ghost predicate UnmetOf(p: Profile, r: SandboxRequirements, unmet: seq<string>) {
    |unmet| == Missing(p, r) && (forall x :: x in unmet <==> IsUnmet(p, r, x)) && (forall x :: multiset(unmet)[x] <= 1)
  }

  ghost predicate MatchFor(ps: seq<Profile>, r: SandboxRequirements, m: Match) {
    match m
    case EmptyCatalog => ps == []
    case Matched(i) => BestFit(ps, r, i)
    case NoMatch(unmet) =>
      ps != [] && (forall p | p in ps :: !Covers(p, r)) && Sorted(unmet) && unmet != [] && LeastUnmet(ps, r, unmet)
  }

  /** The answer, profile or unmet list, is determined by catalog and requirements. */
  lemma MatchDetermined(ps: seq<Profile>, r: SandboxRequirements, m: Match, m': Match)
    requires MatchFor(ps, r, m) && MatchFor(ps, r, m')
    ensures m == m'
  {
    hide Covers, Surplus, Missing, IsUnmet, Sorted, BestFit, LeastUnmet;
    MatchedIffCovered(ps, r, m);
    MatchedIffCovered(ps, r, m');
    if m.Matched? {
      SameBest(ps, r, m.index, m'.index);
    } else if m.NoMatch? {
      SameLeast(ps, r, m.unmet, m'.unmet);
    }
  }

  lemma SameBest(ps: seq<Profile>, r: SandboxRequirements, i: nat, j: nat)
    requires BestFit(ps, r, i) && BestFit(ps, r, j)
    ensures i == j
  {
    hide Covers, Surplus;
    assert Surplus(ps[i], r) == Surplus(ps[j], r);
  }

  lemma SameNearest(ps: seq<Profile>, r: SandboxRequirements, i: nat, j: nat)
    requires Nearest(ps, r, i) && Nearest(ps, r, j)
    ensures i == j
  {
    hide Missing;
    assert Missing(ps[i], r) == Missing(ps[j], r);
  }

  lemma SameLeast(ps: seq<Profile>, r: SandboxRequirements, u: seq<string>, v: seq<string>)
    requires LeastUnmet(ps, r, u) && LeastUnmet(ps, r, v) && Sorted(u) && Sorted(v)
    ensures u == v
  {
    hide Missing, IsUnmet, Nearest, Sorted;
    var i :| 0 <= i < |ps| && Nearest(ps, r, i) && UnmetOf(ps[i], r, u);
    var j :| 0 <= j < |ps| && Nearest(ps, r, j) && UnmetOf(ps[j], r, v);
    SameNearest(ps, r, i, j);
    CountDistinct(u);
    CountDistinct(v);
    StrictUnique(u, v);
  }

  /** Every requirement has a covering profile exactly when the match succeeds. */
  lemma MatchedIffCovered(ps: seq<Profile>, r: SandboxRequirements, m: Match)
    requires MatchFor(ps, r, m)
    ensures m.Matched? <==> exists p :: p in ps && Covers(p, r)
  {
    hide Covers, Surplus, LeastUnmet, Sorted;
    if m.Matched? {
      assert ps[m.index] in ps;
    }
  }

  // ---------------------------------------------------------------------------------------
  // Scoring
  // ---------------------------------------------------------------------------------------

  lemma Apart(need: set<string>, adv: set<string>)
    ensures |need| == |need * adv| + |need - adv|
  {
    assert need == (need * adv) + (need - adv);
  }

  lemma OneMore(seen: set<string>, k: string, s: set<string>)
    requires k !in seen
    ensures |(seen + {k}) * s| == |seen * s| + if k in s then 1 else 0
    ensures |(seen + {k}) - s| == |seen - s| + if k in s then 0 else 1
  {
    if k in s {
      assert (seen + {k}) * s == seen * s + {k} && (seen + {k}) - s == seen - s;
    } else {
      assert (seen + {k}) * s == seen * s && (seen + {k}) - s == (seen - s) + {k};
    }
  }

  /** `unmet` tags the elements of `s` with `tag`, each once. */
  ghost predicate Tagged(unmet: seq<string>, tag: string, s: set<string>) {
    && |unmet| == |s| && (forall x :: x in unmet <==> exists k :: k in s && x == tag + k)
    && forall x :: multiset(unmet)[x] <= 1
  }

  lemma TagMore(unmet: seq<string>, tag: string, s: set<string>, k: string)
    requires Tagged(unmet, tag, s) && k !in s
    ensures Tagged(unmet + [tag + k], tag, s + {k})
  {
    assert tag + k !in multiset(unmet) by { NewTag(unmet, tag, s, k); }
    forall x ensures x in unmet + [tag + k] <==> exists j :: j in s + {k} && x == tag + j {
      if x in unmet {
        var j :| j in s && x == tag + j;
        assert j in s + {k};
      } else if x == tag + k {
        assert k in s + {k};
      }
    }
  }

  lemma Visited(need: set<string>, rest: set<string>, k: string, adv: set<string>)
    requires k in rest && rest <= need
    ensures var seen, next := need - rest, need - (rest - {k});
            && |next * adv| == |seen * adv| + (if k in adv then 1 else 0)
            && next - adv == if k in adv then seen - adv else (seen - adv) + {k}
  {
    OneMore(need - rest, k, adv);
    assert need - (rest - {k}) == (need - rest) + {k};
  }

  lemma NewTag(unmet: seq<string>, tag: string, s: set<string>, k: string)
    requires Tagged(unmet, tag, s) && k !in s
    ensures tag + k !in unmet
  {
    forall j | tag + j == tag + k ensures j == k {
      assert j == (tag + j)[|tag|..] && k == (tag + k)[|tag|..];
    }
  }

  /** A point for each need met; the others are listed. */
  method CountMet(need: set<string>, adv: set<string>, tag: string) returns (met: int, unmet: seq<string>)
    ensures met == |need * adv| && Tagged(unmet, tag, need - adv)
  {
    hide Tagged;
    met, unmet := 0, [];
    var rest := need;
    assert Tagged(unmet, tag, {}) by { NoneTagged(tag); }
    assert (need - rest) - adv == {};
    while rest != {}
      invariant rest <= need && met == |(need - rest) * adv| && Tagged(unmet, tag, (need - rest) - adv)
      decreases |rest|
    {
      var k :| k in rest;
      Visited(need, rest, k, adv);
      if k in adv {
        met := met + 1;
      } else {
        TagMore(unmet, tag, (need - rest) - adv, k);
        unmet := unmet + [tag + k];
      }
      rest := rest - {k};
    }
    assert need - rest == need;
  }

  lemma NoneTagged(tag: string)
    ensures Tagged([], tag, {})
  {
  }

  /** A point off for each capability not asked for. */
  method CountSurplus(need: set<string>, adv: set<string>) returns (surplus: int)
    ensures surplus == |adv - need|
  {
    surplus := 0;
    var more := adv;
    while more != {}
      invariant more <= adv && surplus == |(adv - more) - need|
      decreases |more|
    {
      var k :| k in more;
      OneMore(adv - more, k, need);
      assert adv - (more - {k}) == (adv - more) + {k};
      if k !in need { surplus := surplus + 1; }
      more := more - {k};
    }
    assert adv - more == adv;
  }

  lemma SubsetIff(a: set<string>, b: set<string>)
    ensures a <= b <==> |a - b| == 0
  {
    assert forall x | x in a && x !in b :: x in a - b;
    if |a - b| == 0 { assert a - b == {}; }
    if a <= b { assert a - b == {}; }
  }

  ghost function Needs(r: SandboxRequirements): nat {
    |Tokens(r.languages)| + |Tokens(r.tools)| + |Tokens(r.services)|
  }

  /** A profile's score is the needs it meets less its surplus; its unmet list names what it misses. */
  method ScoreProfile(p: Profile, r: SandboxRequirements) returns (score: int, unmet: seq<string>)
    ensures score == Needs(r) - Missing(p, r) - Surplus(p, r)
    ensures UnmetOf(p, r, unmet) && (unmet == [] <==> Covers(p, r))
  {
    hide Tokens;
    var m1, u1 := CountMet(Tokens(r.languages), Tokens(p.languages), "language:");
    var m2, u2 := CountMet(Tokens(r.tools), Tokens(p.tools), "tool:");
    var m3, u3 := CountMet(Tokens(r.services), Tokens(p.services), "service:");
    var s1 := CountSurplus(Tokens(r.languages), Tokens(p.languages));
    var s2 := CountSurplus(Tokens(r.tools), Tokens(p.tools));
    var s3 := CountSurplus(Tokens(r.services), Tokens(p.services));
    Apart(Tokens(r.languages), Tokens(p.languages));
    Apart(Tokens(r.tools), Tokens(p.tools));
    Apart(Tokens(r.services), Tokens(p.services));
    score, unmet := m1 + m2 + m3 - s1 - s2 - s3, u1 + u2 + u3;
    SubsetIff(Tokens(r.languages), Tokens(p.languages));
    SubsetIff(Tokens(r.tools), Tokens(p.tools));
    SubsetIff(Tokens(r.services), Tokens(p.services));
    UnmetParts(p, r, u1, u2, u3);
  }

  lemma UnmetParts(p: Profile, r: SandboxRequirements, u1: seq<string>, u2: seq<string>, u3: seq<string>)
    requires Tagged(u1, "language:", Tokens(r.languages) - Tokens(p.languages))
    requires Tagged(u2, "tool:", Tokens(r.tools) - Tokens(p.tools))
    requires Tagged(u3, "service:", Tokens(r.services) - Tokens(p.services))
    ensures UnmetOf(p, r, u1 + u2 + u3)
  {
    hide Tokens;
    forall x ensures x in u1 + u2 + u3 <==> IsUnmet(p, r, x) {
      assert x in u1 + u2 + u3 <==> x in u1 || x in u2 || x in u3;
    }
    forall x ensures multiset(u1 + u2 + u3)[x] <= 1 {
      TagsApart(u1, u2, u3, x, Tokens(r.languages) - Tokens(p.languages), Tokens(r.tools) - Tokens(p.tools),
                Tokens(r.services) - Tokens(p.services));
    }
  }

  lemma TagsApart(u1: seq<string>, u2: seq<string>, u3: seq<string>, x: string, s1: set<string>, s2: set<string>, s3: set<string>)
    requires Tagged(u1, "language:", s1) && Tagged(u2, "tool:", s2) && Tagged(u3, "service:", s3)
    ensures multiset(u1 + u2 + u3)[x] <= 1
  {
    assert multiset(u1 + u2 + u3)[x] == multiset(u1)[x] + multiset(u2)[x] + multiset(u3)[x];
    TagHead(u1, "language:", s1, x);
    TagHead(u2, "tool:", s2, x);
    TagHead(u3, "service:", s3, x);
    assert "language:"[0] == 'l' && "tool:"[0] == 't' && "service:"[0] == 's';
  }

  lemma TagHead(u: seq<string>, tag: string, s: set<string>, x: string)
    requires Tagged(u, tag, s) && tag != ""
    ensures multiset(u)[x] <= 1
    ensures multiset(u)[x] == 1 ==> x != "" && x[0] == tag[0]
  {
    if multiset(u)[x] == 1 {
      assert x in u;
    }
  }

  datatype Scored = Scored(score: int, unmet: seq<string>)

  method MatchProfile(ps: seq<Profile>, r: SandboxRequirements) returns (m: Match)
    ensures MatchFor(ps, r, m)
  {
    hide Covers, Surplus, Missing, IsUnmet, Sorted, Needs, Sort, Tokens;
    if ps == [] { return EmptyCatalog; }
    var all: seq<Scored> := [];
    for i := 0 to |ps|
      invariant |all| == i
      invariant forall j | 0 <= j < i ::
        && all[j].score == Needs(r) - Missing(ps[j], r) - Surplus(ps[j], r)
        && UnmetOf(ps[j], r, all[j].unmet) && (all[j].unmet == [] <==> Covers(ps[j], r))
    {
      var s, u := ScoreProfile(ps[i], r);
      all := all + [Scored(s, u)];
    }
    var best := PickBest(ps, r, all);
    if best >= 0 { return Matched(best); }
    var least := PickLeast(ps, r, all);
    SortSorts(all[least].unmet);
    SameElements(Sort(all[least].unmet), all[least].unmet);
    SortLength(all[least].unmet);
    m := NoMatch(Sort(all[least].unmet));
    assert UnmetOf(ps[least], r, m.unmet);
    assert LeastUnmet(ps, r, m.unmet);
  }

  lemma SortLength(xs: seq<string>)
    ensures |Sort(xs)| == |xs|
  {
    hide Sort, Sorted;
    SortSorts(xs);
    assert |Sort(xs)| == |multiset(Sort(xs))| == |multiset(xs)| == |xs|;
  }

  ghost predicate AllScored(ps: seq<Profile>, r: SandboxRequirements, all: seq<Scored>) {
    && |all| == |ps|
    && forall j | 0 <= j < |ps| ::
         && all[j].score == Needs(r) - Missing(ps[j], r) - Surplus(ps[j], r)
         && UnmetOf(ps[j], r, all[j].unmet) && (all[j].unmet == [] <==> Covers(ps[j], r))
  }

  /** The highest score among the covering profiles, the earliest on a tie. */
  method PickBest(ps: seq<Profile>, r: SandboxRequirements, all: seq<Scored>) returns (best: int)
    requires AllScored(ps, r, all)
    ensures best < 0 ==> forall p | p in ps :: !Covers(p, r)
    ensures best >= 0 ==> BestFit(ps, r, best)
  {
    hide Covers, Surplus, Missing, IsUnmet, Needs;
    forall j | 0 <= j < |ps| && Covers(ps[j], r) ensures all[j].unmet == [] && all[j].score == Needs(r) - Surplus(ps[j], r) {
      assert UnmetOf(ps[j], r, all[j].unmet);
    }
    best := -1;
    for i := 0 to |all|
      invariant best < i
      invariant best < 0 ==> forall j | 0 <= j < i :: !Covers(ps[j], r)
      invariant best >= 0 ==> Covers(ps[best], r)
      invariant best >= 0 ==> forall j | 0 <= j < i && Covers(ps[j], r) :: Surplus(ps[best], r) <= Surplus(ps[j], r)
      invariant best >= 0 ==> forall j | 0 <= j < best && Covers(ps[j], r) :: Surplus(ps[best], r) < Surplus(ps[j], r)
    {
      if |all[i].unmet| > 0 { continue; }
      if best < 0 || all[i].score > all[best].score { best := i; }
    }
  }

  method PickLeast(ps: seq<Profile>, r: SandboxRequirements, all: seq<Scored>) returns (least: nat)
    requires AllScored(ps, r, all) && ps != []
    ensures Nearest(ps, r, least)
  {
    hide Covers, Surplus, Missing, IsUnmet, Needs;
    assert forall j | 0 <= j < |ps| :: |all[j].unmet| == Missing(ps[j], r);
    least := 0;
    for i := 0 to |all|
      invariant least < |all| && (if i == 0 then least == 0 else least < i) && forall j | 0 <= j < i :: |all[least].unmet| <= |all[j].unmet|
      invariant forall j | 0 <= j < least :: |all[least].unmet| < |all[j].unmet|
    {
      if |all[i].unmet| < |all[least].unmet| { least := i; }
    }
  }
}

/** Living specs as facts under "spec.<capability>.", and back. */
module SpecFacts {
  import opened Text
  import opened OpenSpec
  import opened RequirementIds
  import opened Facts
  import opened Markdown
  import opened Ordering

  // ---------------------------------------------------------------------------------------
  // Enumerating children of a prefix
  // ---------------------------------------------------------------------------------------

  /** Children without a position sort after all others. */
  const NO_POSITION := 0x4000_0000

  function ChildOf(rest: string): Option<string> {
    var dot := IndexOf(rest, '.');
    if 0 < dot < |rest| then Some(rest[..dot]) else None
  }

  ghost function Children(idx: FactIndex, prefix: string): set<string> {
    set k | k in idx && prefix <= k && ChildOf(k[|prefix|..]).Some? :: ChildOf(k[|prefix|..]).value
  }

  function PositionAt(idx: FactIndex, prefix: string, name: string): int {
    var k := prefix + name + ".position";
    if k in idx && idx[k].Number? then idx[k].number else NO_POSITION
  }

  predicate Before(p: int, a: string, q: int, b: string) {
    p < q || (p == q && a != b && Leq(a, b))
  }

  /** The children, each once, by position and then by name. */
  ghost predicate InOrder(idx: FactIndex, prefix: string, names: seq<string>) {
    && (forall n :: n in names <==> n in Children(idx, prefix))
    && forall i, j | 0 <= i < j < |names| ::
         Before(PositionAt(idx, prefix, names[i]), names[i], PositionAt(idx, prefix, names[j]), names[j])
  }

  /** A child without a numeric position comes after every child whose position is less than 2 to the 30th. */
  lemma UnplacedLast(idx: FactIndex, prefix: string, names: seq<string>, i: nat, j: nat)
    requires InOrder(idx, prefix, names) && i < |names| && j < |names|
    requires var k := prefix + names[i] + ".position"; k in idx && idx[k].Number? && idx[k].number < 1073741824
    requires var k := prefix + names[j] + ".position"; k !in idx || !idx[k].Number?
    ensures i < j
  {
    hide Children, Leq;
    assert PositionAt(idx, prefix, names[i]) < PositionAt(idx, prefix, names[j]);
    assert i != j;
  }

  lemma ChildReads(prefix: string, seg: string, rest: string)
    requires DotFree(seg) && seg != ""
    ensures prefix <= prefix + seg + "." + rest
    ensures ChildOf((prefix + seg + "." + rest)[|prefix|..]) == Some(seg)
  {
    var k := prefix + seg + "." + rest;
    var t := k[|prefix|..];
    assert t == seg + "." + rest;
    assert t[|seg|] == '.';
    assert forall i | 0 <= i < |seg| :: t[i] == seg[i];
    assert IndexOf(t, '.') == |seg|;
    assert t[..|seg|] == seg;
  }

  // ---------------------------------------------------------------------------------------
  // Facts of a spec
  // ---------------------------------------------------------------------------------------

  function SpecBase(cap: string): string {
    "spec." + cap + "."
  }

  function RequirementBase(cap: string): string {
    SpecBase(cap) + "requirement."
  }

  function Names(rs: seq<Requirement>): seq<string> {
    seq(|rs|, i requires 0 <= i < |rs| => rs[i].name)
  }

  function HeadEntry(s: Spec): Entry {
    var b := SpecBase(s.capability);
    Entry(b, AddText(b + "title", s.title) + AddText(b + "purpose", s.purpose))
  }

  function RequirementPrefix(s: Spec, i: nat): string
    requires i < |s.requirements|
  {
    RequirementBase(s.capability) + Rid(Names(s.requirements), i) + "."
  }

  function RequirementEntry(s: Spec, i: nat): Entry
    requires i < |s.requirements|
  {
    Entry(RequirementPrefix(s, i), RequirementFacts(RequirementPrefix(s, i), s.requirements[i], i))
  }

  function RequirementEntries(s: Spec, n: nat): seq<Entry>
    requires n <= |s.requirements|
  {
    seq(n, i requires 0 <= i < n => RequirementEntry(s, i))
  }

  function Entries(s: Spec): seq<Entry> {
    [HeadEntry(s)] + RequirementEntries(s, |s.requirements|)
  }

  function FactsOf(s: Spec): seq<Fact> {
    Flatten(Entries(s))
  }

  // ---------------------------------------------------------------------------------------
  // The entries are well formed
  // ---------------------------------------------------------------------------------------

  lemma HeadEntryOk(s: Spec)
    ensures EntryOk(HeadEntry(s))
    ensures IsField(HeadEntry(s), "title", s.title) && IsField(HeadEntry(s), "purpose", s.purpose)
  {
    var b := SpecBase(s.capability);
    assert b[|b| - 1] == '.';
    FieldsApart(b, "title", "purpose");
    assert DotFree("title") && DotFree("purpose");
  }

  lemma RequirementPrefixes(s: Spec, i: nat, j: nat)
    requires i < |s.requirements| && j < |s.requirements|
    ensures Dotted(RequirementPrefix(s, i)) && SpecBase(s.capability) <= RequirementPrefix(s, i)
    ensures RequirementPrefix(s, i) != SpecBase(s.capability)
    ensures RequirementPrefix(s, i) == RequirementPrefix(s, j) ==> Rid(Names(s.requirements), i) == Rid(Names(s.requirements), j)
  {
    hide Rid;
    var b, r, q := RequirementBase(s.capability), Rid(Names(s.requirements), i), Rid(Names(s.requirements), j);
    if RequirementPrefix(s, i) == RequirementPrefix(s, j) {
      FieldsApart(b, r + ".", q + ".");
      assert b + r + "." == b + (r + ".") && b + q + "." == b + (q + ".");
      assert r == (r + ".")[..|r|] && q == (q + ".")[..|q|];
    }
  }

  lemma EntriesAreOk(s: Spec)
    requires Apart(Names(s.requirements))
    ensures EntriesOk(Entries(s))
  {
    hide EntryOk, Rid, RequirementFacts;
    var es := Entries(s);
    forall e | e in es ensures EntryOk(e) {
      if e == HeadEntry(s) {
        HeadEntryOk(s);
      } else {
        var i := Which(s, e);
        RequirementPrefixes(s, i, i);
        RequirementEntryOk(RequirementPrefix(s, i), s.requirements[i], i);
      }
    }
    forall e, d | e in es && d in es && e.prefix == d.prefix ensures e == d {
      if e != HeadEntry(s) && d != HeadEntry(s) {
        var i := Which(s, e);
        var j := Which(s, d);
        RequirementPrefixes(s, i, j);
        SameRid(Names(s.requirements), i, j);
      } else if e != HeadEntry(s) {
        var i := Which(s, e);
        RequirementPrefixes(s, i, i);
      } else if d != HeadEntry(s) {
        var j := Which(s, d);
        RequirementPrefixes(s, j, j);
      }
    }
  }

  lemma SameRid(names: seq<string>, i: nat, j: nat)
    requires Apart(names) && i < |names| && j < |names| && Rid(names, i) == Rid(names, j)
    ensures i == j
  {
    hide Rid;
  }

  lemma Which(s: Spec, e: Entry) returns (i: nat)
    requires e in Entries(s) && e != HeadEntry(s)
    ensures i < |s.requirements| && e == RequirementEntry(s, i)
  {
    hide HeadEntry, RequirementEntry;
    var es := Entries(s);
    var j :| 0 <= j < |es| && es[j] == e;
    i := j - 1;
  }

  // ---------------------------------------------------------------------------------------
  // Reading a spec back
  // ---------------------------------------------------------------------------------------

  /** What the reader may return for `cap`, whatever order the index is enumerated in. */
  ghost predicate Reads(idx: FactIndex, cap: string, s: Spec) {
    && s.capability == cap && s.warnings == []
    && s.title == TextAt(idx, SpecBase(cap) + "title")
    && s.purpose == TextAt(idx, SpecBase(cap) + "purpose")
    && exists rids :: InOrder(idx, RequirementBase(cap), rids) && ReadsAt(idx, RequirementBase(cap), rids, s.requirements)
  }

  ghost predicate ReadsAt(idx: FactIndex, base: string, rids: seq<string>, rs: seq<Requirement>) {
    |rs| == |rids| && forall i | 0 <= i < |rs| :: rs[i] == RequirementAt(idx, base + rids[i] + ".")
  }

  /** Every child of the requirement prefix is a minted rid. */
  lemma ChildIsRid(s: Spec, facts: seq<Fact>, n: string) returns (i: nat)
    requires Embeds(facts, SpecBase(s.capability), Entries(s))
    requires n in Children(Index(facts), RequirementBase(s.capability))
    ensures i < |s.requirements| && n == Rid(Names(s.requirements), i)
  {
    hide Index, Rid, RequirementFacts, ChildOf, Flatten;
    var idx, b := Index(facts), RequirementBase(s.capability);
    var k :| k in idx && b <= k && ChildOf(k[|b|..]) == Some(n);
    IndexHolds(facts);
    var f := Fact(k, idx[k]);
    assert SpecBase(s.capability) <= k;
    InFlatten(Entries(s), f);
    var e :| e in Entries(s) && f in e.facts;
    assert e != HeadEntry(s) by {
      if e == HeadEntry(s) { HeadIsNoRequirement(s, f); }
    }
    i := Which(s, e);
    var p := RequirementPrefix(s, i);
    RequirementKeyed(p, s.requirements[i], i, f);
    RidShape(Names(s.requirements), i);
    ChildReads(b, Rid(Names(s.requirements), i), k[|p|..]);
    assert k == b + Rid(Names(s.requirements), i) + "." + k[|p|..];
  }

  lemma HeadIsNoRequirement(s: Spec, f: Fact)
    requires f in HeadEntry(s).facts
    ensures !(RequirementBase(s.capability) <= f.key)
  {
    var b := SpecBase(s.capability);
    assert f.key == b + "title" || f.key == b + "purpose";
    assert f.key[|b|] == 't' || f.key[|b|] == 'p';
    assert RequirementBase(s.capability)[|b|] == 'r';
  }

  lemma RequirementKeyed(p: string, r: Requirement, pos: nat, f: Fact)
    requires f in RequirementFacts(p, r, pos)
    ensures p <= f.key && f.key == p + f.key[|p|..]
  {
    RequirementMembers(p, r, pos);
  }

  lemma RidIsChild(s: Spec, facts: seq<Fact>, i: nat)
    requires Embeds(facts, SpecBase(s.capability), Entries(s)) && i < |s.requirements|
    ensures Rid(Names(s.requirements), i) in Children(Index(facts), RequirementBase(s.capability))
  {
    hide Index, Rid, ChildOf, Flatten, RequirementFacts;
    var idx, b, r := Index(facts), RequirementBase(s.capability), Rid(Names(s.requirements), i);
    var f := Fact(RequirementPrefix(s, i) + "position", Number(i));
    IndexHolds(facts);
    assert Entries(s)[i + 1] == RequirementEntry(s, i);
    assert f in RequirementEntry(s, i).facts by { RequirementMembers(RequirementPrefix(s, i), s.requirements[i], i); }
    InFlatten(Entries(s), f);
    RidShape(Names(s.requirements), i);
    ChildReads(b, r, "position");
    assert f.key == b + r + "." + "position";
  }

  lemma EntryShows(s: Spec, facts: seq<Fact>, i: nat)
    requires Apart(Names(s.requirements)) && Embeds(facts, SpecBase(s.capability), Entries(s)) && i < |s.requirements|
    ensures RequirementAt(Index(facts), RequirementPrefix(s, i)) == s.requirements[i]
    ensures PositionAt(Index(facts), RequirementBase(s.capability), Rid(Names(s.requirements), i)) == i
  {
    hide Index, Rid, RequirementFacts, EntriesOk, RequirementAt, Shows, Embeds;
    EntriesAreOk(s);
    RequirementPrefixes(s, i, i);
    var p := RequirementPrefix(s, i);
    assert Entries(s)[i + 1] == RequirementEntry(s, i);
    EntriesShow(facts, SpecBase(s.capability), Entries(s), RequirementEntry(s, i));
    var fs := RequirementFacts(p, s.requirements[i], i);
    assert [] + fs + [] == fs;
    RequirementShows(Index(facts), p, s.requirements[i], i, [], []);
    assert p + "position" == RequirementBase(s.capability) + Rid(Names(s.requirements), i) + ".position";
  }

  lemma HasElement(ps: seq<int>)
    ensures ps != [] ==> ps[0] in ps
  {
  }

  /** A rising sequence of exactly the numbers below its length counts up from zero. */
  lemma {:induction false} CountsUp(ps: seq<int>, n: nat)
    requires forall i, j | 0 <= i < j < |ps| :: ps[i] < ps[j]
    requires forall x :: x in ps <==> 0 <= x < n
    ensures |ps| == n && forall i | 0 <= i < n :: ps[i] == i
  {
    if n == 0 {
      HasElement(ps);
    } else {
      assert n - 1 in ps;
      var last := ps[|ps| - 1];
      var j :| 0 <= j < |ps| && ps[j] == n - 1;
      assert last in ps;
      assert last == n - 1;
      var init := ps[..|ps| - 1];
      forall x | 0 <= x < n - 1 ensures x in init {
        assert x in ps;
        var i :| 0 <= i < |ps| && ps[i] == x;
        assert init[i] == x;
      }
      forall x | x in init ensures 0 <= x < n - 1 {
        var i :| 0 <= i < |init| && init[i] == x;
        assert ps[i] in ps && ps[i] < last;
      }
      CountsUp(init, n - 1);
    }
  }

  /** The children come back in requirement order. */
  lemma ChildrenInOrder(s: Spec, facts: seq<Fact>, rids: seq<string>)
    requires Apart(Names(s.requirements)) && Embeds(facts, SpecBase(s.capability), Entries(s))
    requires InOrder(Index(facts), RequirementBase(s.capability), rids)
    ensures |rids| == |s.requirements|
    ensures forall i | 0 <= i < |rids| :: rids[i] == Rid(Names(s.requirements), i)
  {
    hide Index, Rid, Embeds, Children, PositionAt;
    var idx, b, names := Index(facts), RequirementBase(s.capability), Names(s.requirements);
    var ps := seq(|rids|, i requires 0 <= i < |rids| => PositionAt(idx, b, rids[i]));
    forall i | 0 <= i < |rids| ensures 0 <= ps[i] < |names| && rids[i] == Rid(names, ps[i]) {
      assert rids[i] in rids;
      var k := ChildIsRid(s, facts, rids[i]);
      EntryShows(s, facts, k);
    }
    forall i, j | 0 <= i < j < |rids| ensures ps[i] < ps[j] {
      assert rids[i] == Rid(names, ps[i]) && rids[j] == Rid(names, ps[j]);
    }
    forall x ensures x in ps <==> 0 <= x < |names| {
      if 0 <= x < |names| {
        RidIsChild(s, facts, x);
        EntryShows(s, facts, x);
        var i :| 0 <= i < |rids| && rids[i] == Rid(names, x);
        assert ps[i] == x;
      }
    }
    CountsUp(ps, |names|);
  }

  lemma HeadShows(s: Spec, facts: seq<Fact>)
    requires Apart(Names(s.requirements)) && Embeds(facts, SpecBase(s.capability), Entries(s))
    ensures TextAt(Index(facts), SpecBase(s.capability) + "title") == s.title
    ensures TextAt(Index(facts), SpecBase(s.capability) + "purpose") == s.purpose
  {
    hide Index, Rid, EntriesOk, Shows, Embeds, IsField, TextAt, RequirementFacts;
    EntriesAreOk(s);
    var e := HeadEntry(s);
    HeadEntryOk(s);
    assert Entries(s)[0] == e;
    EntriesShow(facts, SpecBase(s.capability), Entries(s), e);
    assert DotFree("title") && DotFree("purpose");
    TextShows(Index(facts), e, "title", s.title);
    TextShows(Index(facts), e, "purpose", s.purpose);
  }

  /**
  The facts of a spec, mixed in any order with any facts outside its "spec.<capability>." subtree, read back as that
  spec, whatever order the index is enumerated in, when the minted rids do not clash.
  */
  lemma EmbeddedRoundTrip(s: Spec, facts: seq<Fact>, r: Spec)
    requires NoClash(Names(s.requirements))
    requires Embeds(facts, SpecBase(s.capability), Entries(s))
    requires Reads(Index(facts), s.capability, r)
    ensures r == s.(warnings := [])
  {
    hide Index, Rid, Embeds, TextAt, NoClash, InOrder;
    RidsApartIffNoClash(Names(s.requirements));
    HeadShows(s, facts);
    var b := RequirementBase(s.capability);
    var rids :| InOrder(Index(facts), b, rids) && ReadsAt(Index(facts), b, rids, r.requirements);
    ChildrenInOrder(s, facts, rids);
    forall i | 0 <= i < |rids| ensures r.requirements[i] == s.requirements[i] {
      EntryShows(s, facts, i);
    }
    assert r.requirements == s.requirements;
  }

  // ---------------------------------------------------------------------------------------
  // The condition is exact
  // ---------------------------------------------------------------------------------------

  ghost function Rids(names: seq<string>, n: nat): set<string>
    requires n <= |names|
  {
    set i | 0 <= i < n :: Rid(names, i)
  }

  lemma {:induction false} FewerRids(names: seq<string>, n: nat)
    requires n <= |names|
    ensures |Rids(names, n)| <= n
    ensures (exists i, j :: 0 <= i < j < n && Rid(names, i) == Rid(names, j)) ==> |Rids(names, n)| < n
    decreases n
  {
    hide Rid;
    if n > 0 {
      FewerRids(names, n - 1);
      var a, x := Rids(names, n - 1), Rid(names, n - 1);
      assert Rids(names, n) == a + {x};
      if i, j :| 0 <= i < j < n && Rid(names, i) == Rid(names, j) && j == n - 1 {
        assert x in a;
        assert a + {x} == a;
      }
    }
  }

  lemma {:induction false} DistinctSize(xs: seq<string>, s: set<string>)
    requires (forall i, j | 0 <= i < j < |xs| :: xs[i] != xs[j]) && forall x | x in xs :: x in s
    ensures |xs| <= |s|
  {
    if xs != [] {
      var x := xs[|xs| - 1];
      DistinctSize(xs[..|xs| - 1], s - {x});
      assert x in s;
    }
  }

  /** When minted rids clash, reading the facts back loses a requirement. */
  lemma EmbeddedIffNoClash(s: Spec, facts: seq<Fact>, r: Spec)
    requires Embeds(facts, SpecBase(s.capability), Entries(s)) && Reads(Index(facts), s.capability, r)
    ensures r == s.(warnings := []) <==> NoClash(Names(s.requirements))
  {
    hide Index, Rid, TextAt, NoClash, Children, PositionAt, Flatten, Embeds;
    var names := Names(s.requirements);
    RidsApartIffNoClash(names);
    if NoClash(names) {
      EmbeddedRoundTrip(s, facts, r);
    } else {
      var b := RequirementBase(s.capability);
      var rids :| InOrder(Index(facts), b, rids) && ReadsAt(Index(facts), b, rids, r.requirements);
      forall x | x in rids ensures x in Rids(names, |names|) {
        var i := ChildIsRid(s, facts, x);
      }
      DistinctSize(rids, Rids(names, |names|));
      FewerRids(names, |names|);
    }
  }

  // ---------------------------------------------------------------------------------------
  // Facts that other writers stamp inside the subtree
  // ---------------------------------------------------------------------------------------

  /** A key that the reader may look up. */
  ghost predicate LookedUp(cap: string, k: string) {
    || k == SpecBase(cap) + "title" || k == SpecBase(cap) + "purpose"
    || exists n, f :: f in ["name", "statement", "scenarios", "position"] && k == RequirementBase(cap) + n + "." + f
  }

  /** A key that the reader passes over: it is never looked up, and any child it names has a position among `keys`. */
  ghost predicate Ignorable(keys: set<string>, cap: string, k: string) {
    && !LookedUp(cap, k)
    && var b := RequirementBase(cap);
       b <= k && ChildOf(k[|b|..]).Some? ==> b + ChildOf(k[|b|..]).value + ".position" in keys
  }

  /** `facts` holds the facts of the spec, and otherwise only what the reader passes over. */
  ghost predicate Carries(facts: seq<Fact>, s: Spec) {
    && (forall f | f in FactsOf(s) :: f in facts)
    && (forall f | f in facts :: f in FactsOf(s) || Ignorable(KeysOf(FactsOf(s)), s.capability, f.key))
  }

  lemma SameLookup(small: FactIndex, big: FactIndex, cap: string, k: string)
    requires Grows(small, big) && (forall j | j in big :: j in small || Ignorable(small.Keys, cap, j)) && LookedUp(cap, k)
    ensures (k in big <==> k in small) && (k in big ==> big[k] == small[k])
  {
    hide LookedUp;
  }

  lemma SameRequirement(small: FactIndex, big: FactIndex, cap: string, n: string)
    requires Grows(small, big) && forall j | j in big :: j in small || Ignorable(small.Keys, cap, j)
    ensures RequirementAt(big, RequirementBase(cap) + n + ".") == RequirementAt(small, RequirementBase(cap) + n + ".")
    ensures PositionAt(big, RequirementBase(cap), n) == PositionAt(small, RequirementBase(cap), n)
  {
    hide Ignorable, Grows, LookedUp;
    var p := RequirementBase(cap) + n + ".";
    assert p + "position" == RequirementBase(cap) + n + ".position";
    forall f | f in ["name", "statement", "scenarios", "position"]
      ensures (p + f in big <==> p + f in small) && (p + f in big ==> big[p + f] == small[p + f])
    {
      FieldLookedUp(cap, n, f);
      SameLookup(small, big, cap, p + f);
    }
  }

  lemma FieldLookedUp(cap: string, n: string, f: string)
    requires f in ["name", "statement", "scenarios", "position"]
    ensures LookedUp(cap, RequirementBase(cap) + n + "." + f)
  {
  }

  lemma SameChildren(small: FactIndex, big: FactIndex, cap: string)
    requires Grows(small, big) && forall j | j in big :: j in small || Ignorable(small.Keys, cap, j)
    ensures Children(big, RequirementBase(cap)) == Children(small, RequirementBase(cap))
  {
    hide ChildOf, LookedUp;
    var b := RequirementBase(cap);
    forall n | n in Children(small, b) ensures n in Children(big, b) {
      var k :| k in small && b <= k && ChildOf(k[|b|..]) == Some(n);
      assert k in big;
    }
    forall n | n in Children(big, b) ensures n in Children(small, b) {
      var k :| k in big && b <= k && ChildOf(k[|b|..]) == Some(n);
      if k !in small {
        ChildShape(k[|b|..]);
        ChildReads(b, n, "position");
        assert b + n + "." + "position" == b + n + ".position";
      }
    }
  }

  /** The reader returns the same with and without facts that it passes over. */
  lemma ReadsAlike(small: FactIndex, big: FactIndex, cap: string, r: Spec)
    requires Grows(small, big) && forall j | j in big :: j in small || Ignorable(small.Keys, cap, j)
    ensures Reads(big, cap, r) <==> Reads(small, cap, r)
  {
    hide Ignorable, Grows, LookedUp, Children, PositionAt, RequirementAt, TextAt;
    var b := RequirementBase(cap);
    HeadAlike(small, big, cap);
    SameChildren(small, big, cap);
    forall n ensures RequirementAt(big, b + n + ".") == RequirementAt(small, b + n + ".") && PositionAt(big, b, n) == PositionAt(small, b, n) {
      SameRequirement(small, big, cap, n);
    }
    forall rids ensures InOrder(big, b, rids) <==> InOrder(small, b, rids) {}
    forall rids ensures ReadsAt(big, b, rids, r.requirements) <==> ReadsAt(small, b, rids, r.requirements) {}
  }

  lemma HeadAlike(small: FactIndex, big: FactIndex, cap: string)
    requires Grows(small, big) && forall j | j in big :: j in small || Ignorable(small.Keys, cap, j)
    ensures TextAt(big, SpecBase(cap) + "title") == TextAt(small, SpecBase(cap) + "title")
    ensures TextAt(big, SpecBase(cap) + "purpose") == TextAt(small, SpecBase(cap) + "purpose")
  {
    hide Ignorable, Grows;
    SameLookup(small, big, cap, SpecBase(cap) + "title");
    SameLookup(small, big, cap, SpecBase(cap) + "purpose");
  }

  lemma FactIsLookedUp(s: Spec, f: Fact)
    requires f in FactsOf(s)
    ensures LookedUp(s.capability, f.key)
  {
    hide Flatten, RequirementFacts, Rid, LookedUp;
    InFlatten(Entries(s), f);
    var e :| e in Entries(s) && f in e.facts;
    if e == HeadEntry(s) {
      HeadLookedUp(s, f);
    } else {
      var i := Which(s, e);
      var p := RequirementPrefix(s, i);
      RequirementMembers(p, s.requirements[i], i);
      var n := Rid(Names(s.requirements), i);
      FieldLookedUp(s.capability, n, "name");
      FieldLookedUp(s.capability, n, "statement");
      FieldLookedUp(s.capability, n, "scenarios");
      FieldLookedUp(s.capability, n, "position");
    }
  }

  lemma HeadLookedUp(s: Spec, f: Fact)
    requires f in HeadEntry(s).facts
    ensures LookedUp(s.capability, f.key)
  {
    var b := SpecBase(s.capability);
    assert f.key == b + "title" || f.key == b + "purpose";
  }

  /** Without the others the list is as before. */
  lemma OwnFactsEmbed(s: Spec, facts: seq<Fact>)
    requires forall f | f in FactsOf(s) :: f in facts
    ensures Embeds(OwnFacts(facts, FactsOf(s)), SpecBase(s.capability), Entries(s))
  {
    hide OwnFacts, Flatten, Entries;
    var own := FactsOf(s);
    forall f ensures f in OwnFacts(facts, own) <==> f in own { InOwn(facts, own, f); }
  }

  /**
  The facts of a spec, mixed in any order with facts that the reader passes over, read back as that spec, whatever order
  the index is enumerated in, exactly when the minted rids do not clash.
  */
  lemma SpecFactsRoundTripIffNoClash(s: Spec, facts: seq<Fact>, r: Spec)
    requires Carries(facts, s) && Reads(Index(facts), s.capability, r)
    ensures r == s.(warnings := []) <==> NoClash(Names(s.requirements))
  {
    hide Index, FactsOf, NoClash, Reads, OwnFacts, LookedUp, KeysOf, Embeds;
    var own := FactsOf(s);
    forall f, g | f in facts && g in own && f.key == g.key ensures f in own {
      FactIsLookedUp(s, g);
    }
    OwnIndex(facts, own);
    var small, big := Index(OwnFacts(facts, own)), Index(facts);
    forall j | j in big ensures j in small || Ignorable(small.Keys, s.capability, j) {
      if j !in small { var f :| f in facts && f !in own && f.key == j; }
    }
    ReadsAlike(small, big, s.capability, r);
    OwnFactsEmbed(s, facts);
    EmbeddedIffNoClash(s, OwnFacts(facts, own), r);
  }

  /** Whatever lies outside the subtree is passed over, and so is the status of a stored requirement. */
  lemma StatusIsIgnorable(s: Spec, k: string)
    requires !(SpecBase(s.capability) <= k) ||
             exists i :: 0 <= i < |s.requirements| && k == RequirementPrefix(s, i) + "status"
    ensures Ignorable(KeysOf(FactsOf(s)), s.capability, k)
  {
    hide Rid, FactsOf, ChildOf, KeysOf;
    var b := RequirementBase(s.capability);
    if SpecBase(s.capability) <= k {
      var i :| 0 <= i < |s.requirements| && k == RequirementPrefix(s, i) + "status";
      var n := Rid(Names(s.requirements), i);
      RidShape(Names(s.requirements), i);
      ChildReads(b, n, "status");
      assert k == b + n + "." + "status";
      PositionStored(s, i);
      StatusNotLookedUp(s.capability, n);
    } else {
      forall n, f ensures k != b + n + "." + f { assert SpecBase(s.capability) <= b + n + "." + f; }
    }
  }

  lemma PositionStored(s: Spec, i: nat)
    requires i < |s.requirements|
    ensures RequirementBase(s.capability) + Rid(Names(s.requirements), i) + ".position" in KeysOf(FactsOf(s))
  {
    hide Rid, Flatten, RequirementFacts;
    var f := Fact(RequirementPrefix(s, i) + "position", Number(i));
    assert Entries(s)[i + 1] == RequirementEntry(s, i);
    RequirementMembers(RequirementPrefix(s, i), s.requirements[i], i);
    InFlatten(Entries(s), f);
    assert f.key == RequirementBase(s.capability) + Rid(Names(s.requirements), i) + ".position";
  }

  lemma StatusNotLookedUp(cap: string, n: string)
    requires DotFree(n)
    ensures !LookedUp(cap, RequirementBase(cap) + n + "." + "status")
  {
    var b, k := RequirementBase(cap), RequirementBase(cap) + n + "." + "status";
    assert k[|SpecBase(cap)|] == 'r' && (SpecBase(cap) + "title")[|SpecBase(cap)|] == 't' && (SpecBase(cap) + "purpose")[|SpecBase(cap)|] == 'p';
    forall m, f | f in ["name", "statement", "scenarios", "position"] ensures k != b + m + "." + f {
      StatusDiffers(b, n, m, f);
    }
  }

  lemma StatusDiffers(b: string, n: string, m: string, f: string)
    requires f in ["name", "statement", "scenarios", "position"]
    ensures b + n + "." + "status" != b + m + "." + f
  {
    var k, j := b + n + "." + "status", b + m + "." + f;
    FieldNames();
    StatusWord();
    if k == j { KeyParts(b + n + ".", "status", b + m + ".", f); }
  }

  lemma StatusWord()
    ensures DotFree("status") && "status" != "name" && "status" != "statement" && "status" != "scenarios" && "status" != "position"
  {
    assert |"status"| == 6 && |"name"| == 4 && |"statement"| == 9 && |"scenarios"| == 9 && |"position"| == 8;
  }

  // ---------------------------------------------------------------------------------------
  // The loops of the code
  // ---------------------------------------------------------------------------------------

  predicate Ahead(pos: map<string, int>, a: string, b: string)
    requires a in pos && b in pos
  {
    Before(pos[a], a, pos[b], b)
  }

  ghost predicate AheadOfAll(pos: map<string, int>, a: string, xs: seq<string>)
    requires a in pos && forall x | x in xs :: x in pos
  {
    forall x | x in xs :: Ahead(pos, a, x)
  }

  ghost predicate Ranked(pos: map<string, int>, xs: seq<string>)
    requires forall x | x in xs :: x in pos
  {
    xs == [] || (AheadOfAll(pos, xs[0], xs[1..]) && Ranked(pos, xs[1..]))
  }

  function Place(pos: map<string, int>, n: string, xs: seq<string>): seq<string>
    requires n in pos && forall x | x in xs :: x in pos
  {
    if xs == [] then [n] else if Ahead(pos, n, xs[0]) then [n] + xs else [xs[0]] + Place(pos, n, xs[1..])
  }

  lemma AheadTransitive(pos: map<string, int>, a: string, b: string, c: string)
    requires a in pos && b in pos && c in pos && Ahead(pos, a, b) && Ahead(pos, b, c)
    ensures Ahead(pos, a, c)
  {
    hide Leq;
    if pos[a] == pos[b] == pos[c] {
      LeqTransitive(a, b, c);
      if a == c { LeqAntisymmetric(a, b); }
    }
  }

  lemma AheadTotal(pos: map<string, int>, a: string, b: string)
    requires a in pos && b in pos && a != b
    ensures Ahead(pos, a, b) || Ahead(pos, b, a)
  {
    LeqTotal(a, b);
  }

  lemma {:induction false} PlaceRanks(pos: map<string, int>, n: string, xs: seq<string>)
    requires n in pos && (forall x | x in xs :: x in pos) && n !in xs && Ranked(pos, xs)
    ensures forall x :: x in Place(pos, n, xs) <==> x == n || x in xs
    ensures Ranked(pos, Place(pos, n, xs))
  {
    hide Ahead;
    var r := Place(pos, n, xs);
    if xs == [] {
      assert r[1..] == [];
    } else if Ahead(pos, n, xs[0]) {
      assert r[1..] == xs;
      forall x | x in xs ensures Ahead(pos, n, x) {
        if x != xs[0] {
          assert x in xs[1..];
          AheadTransitive(pos, n, xs[0], x);
        }
      }
    } else {
      AheadTotal(pos, n, xs[0]);
      PlaceRanks(pos, n, xs[1..]);
      assert r[1..] == Place(pos, n, xs[1..]);
      assert forall x :: x in xs <==> x == xs[0] || x in xs[1..];
    }
  }

  lemma {:induction false} RankedPairs(pos: map<string, int>, xs: seq<string>, i: nat, j: nat)
    requires (forall x | x in xs :: x in pos) && Ranked(pos, xs) && i < j < |xs|
    ensures xs[i] in pos && xs[j] in pos && Ahead(pos, xs[i], xs[j])
  {
    hide Ahead;
    assert xs[i] in xs && xs[j] in xs;
    if i == 0 {
      assert xs[j] == xs[1..][j - 1];
    } else {
      RankedPairs(pos, xs[1..], i - 1, j - 1);
    }
  }

  method SortChildren(pos: map<string, int>) returns (out: seq<string>)
    ensures forall n :: n in out <==> n in pos
    ensures forall i, j | 0 <= i < j < |out| :: out[i] in pos && out[j] in pos && Ahead(pos, out[i], out[j])
  {
    hide Ahead;
    out := [];
    var rest := pos.Keys;
    while rest != {}
      invariant rest <= pos.Keys
      invariant forall n :: n in out <==> n in pos && n !in rest
      invariant Ranked(pos, out)
      decreases |rest|
    {
      var n :| n in rest;
      PlaceRanks(pos, n, out);
      out := Place(pos, n, out);
      rest := rest - {n};
    }
    forall i, j | 0 <= i < j < |out| ensures out[i] in pos && out[j] in pos && Ahead(pos, out[i], out[j]) {
      RankedPairs(pos, out, i, j);
    }
  }

  /** One more key adds at most one child, and changes at most that child's position. */
  lemma ChildAdded(done: FactIndex, prefix: string, k: string, v: Object)
    requires k !in done
    ensures var c := if prefix <= k then ChildOf(k[|prefix|..]) else None;
            Children(done[k := v], prefix) == Children(done, prefix) + if c.Some? then {c.value} else {}
  {
    hide ChildOf;
    var big := done[k := v];
    var c := if prefix <= k then ChildOf(k[|prefix|..]) else None;
    forall n ensures n in Children(big, prefix) <==> n in Children(done, prefix) || c == Some(n) {
      if n in Children(done, prefix) {
        var j :| j in done && prefix <= j && ChildOf(j[|prefix|..]) == Some(n);
        assert j in big;
      } else if c == Some(n) {
        assert k in big;
      }
    }
  }

  lemma PositionAdded(done: FactIndex, prefix: string, k: string, v: Object, n: string)
    requires k !in done && DotFree(n) && n != ""
    ensures PositionAt(done[k := v], prefix, n) ==
            if k == prefix + n + ".position" && v.Number? then v.number else PositionAt(done, prefix, n)
  {
  }

  lemma ChildShape(rest: string)
    ensures ChildOf(rest).Some? ==> DotFree(ChildOf(rest).value) && ChildOf(rest).value != ""
    ensures ChildOf(rest).Some? ==> |ChildOf(rest).value| < |rest| && rest == ChildOf(rest).value + "." + rest[|ChildOf(rest).value| + 1..]
  {
  }

  ghost predicate PositionsOf(done: FactIndex, prefix: string, pos: map<string, int>) {
    && pos.Keys == Children(done, prefix)
    && forall n | n in pos :: DotFree(n) && n != "" && pos[n] == PositionAt(done, prefix, n)
  }

  method ReadChild(idx: FactIndex, prefix: string, k: string, pos: map<string, int>, ghost done: FactIndex) returns (out: map<string, int>)
    requires k in idx && k !in done && PositionsOf(done, prefix, pos)
    ensures PositionsOf(done[k := idx[k]], prefix, out)
  {
    hide ChildOf, Children, PositionAt;
    ghost var big := done[k := idx[k]];
    ChildAdded(done, prefix, k, idx[k]);
    forall n | n in pos ensures PositionAt(big, prefix, n) == if k == prefix + n + ".position" && idx[k].Number? then idx[k].number else pos[n] {
      PositionAdded(done, prefix, k, idx[k], n);
    }
    out := pos;
    if prefix <= k {
      var rest := k[|prefix|..];
      var c := ChildOf(rest);
      if c.Some? {
        ChildShape(rest);
        var name := c.value;
        PositionAdded(done, prefix, k, idx[k], name);
        NoPositionYet(done, prefix, name);
        if name !in out {
          out := out[name := NO_POSITION];
        }
        var field := rest[|name| + 1..];
        PositionKey(prefix, k, name, field);
        if field == "position" && idx[k].Number? {
          out := out[name := idx[k].number];
        }
        forall n | n in pos && n != name ensures k != prefix + n + ".position" {
          OtherChild(prefix, n, name, field, k);
        }
      }
    }
    assert forall n | n in pos :: prefix <= k || k != prefix + n + ".position";
    forall n | n in pos && prefix <= k && ChildOf(k[|prefix|..]).None? ensures k != prefix + n + ".position" {
      assert DotFree(n) && n != "";
      NotAPosition(prefix, n, k);
    }
  }

  lemma NoPositionYet(done: FactIndex, prefix: string, name: string)
    requires DotFree(name) && name != ""
    ensures name !in Children(done, prefix) ==> PositionAt(done, prefix, name) == NO_POSITION
  {
    hide ChildOf;
    var k := prefix + name + ".position";
    ChildReads(prefix, name, "position");
    assert prefix + name + "." + "position" == k;
  }

  lemma PositionKey(prefix: string, k: string, name: string, field: string)
    requires prefix <= k && k[|prefix|..] == name + "." + field
    ensures k == prefix + name + ".position" <==> field == "position"
  {
    assert k == prefix + (name + "." + field);
    assert prefix + name + ".position" == prefix + (name + "." + "position");
    FieldsApart(prefix, name + "." + field, name + "." + "position");
    FieldsApart(name + ".", field, "position");
  }

  lemma OtherChild(prefix: string, n: string, name: string, field: string, k: string)
    requires prefix <= k && k[|prefix|..] == name + "." + field && DotFree(name) && DotFree(n) && n != name
    ensures k != prefix + n + ".position"
  {
    assert k == prefix + (name + "." + field);
    assert prefix + n + ".position" == prefix + (n + "." + "position");
    if k == prefix + n + ".position" {
      FieldsApart(prefix, name + "." + field, n + "." + "position");
      SegmentParts(name, field, n, "position");
    }
  }

  lemma NotAPosition(prefix: string, n: string, k: string)
    requires prefix <= k && ChildOf(k[|prefix|..]).None? && DotFree(n) && n != ""
    ensures k != prefix + n + ".position"
  {
    hide ChildOf;
    ChildReads(prefix, n, "position");
    assert prefix + n + "." + "position" == prefix + n + ".position";
  }

  /** Enumerates the index in any order, collects the children with their positions, and sorts them. */
  method ChildKeys(idx: FactIndex, prefix: string) returns (out: seq<string>)
    ensures InOrder(idx, prefix, out)
  {
    hide Children, PositionAt;
    var pos: map<string, int> := map[];
    ghost var done: FactIndex := map[];
    var rest := idx.Keys;
    assert PositionsOf(done, prefix, pos) by { NothingYet(prefix); }
    while rest != {}
      invariant rest <= idx.Keys && done.Keys == idx.Keys - rest
      invariant forall k | k in done :: done[k] == idx[k]
      invariant PositionsOf(done, prefix, pos)
      decreases |rest|
    {
      var k :| k in rest;
      pos := ReadChild(idx, prefix, k, pos, done);
      done := done[k := idx[k]];
      rest := rest - {k};
    }
    assert done == idx;
    out := SortChildren(pos);
    forall i, j | 0 <= i < j < |out|
      ensures Before(PositionAt(idx, prefix, out[i]), out[i], PositionAt(idx, prefix, out[j]), out[j])
    {
      assert Ahead(pos, out[i], out[j]);
    }
  }

  lemma NothingYet(prefix: string)
    ensures PositionsOf(map[], prefix, map[])
  {
  }

  /** Rebuilds the spec of a capability from a fact list. */
  method SpecFromFacts(cap: string, facts: seq<Fact>) returns (s: Spec)
    ensures Reads(Index(facts), cap, s) && FieldsRead(Index(facts), cap, s)
  {
    hide InOrder, TextAt, Index, RequirementAt, FieldsRead;
    var idx := IndexFacts(facts);
    var base := SpecBase(cap);
    var rids := ChildKeys(idx, RequirementBase(cap));
    var rs: seq<Requirement> := [];
    var i := 0;
    while i < |rids|
      invariant 0 <= i <= |rids| && |rs| == i
      invariant forall j | 0 <= j < i :: rs[j] == RequirementAt(idx, RequirementBase(cap) + rids[j] + ".")
    {
      rs := rs + [RequirementAt(idx, RequirementBase(cap) + rids[i] + ".")];
      i := i + 1;
    }
    assert ReadsAt(idx, RequirementBase(cap), rids, rs);
    s := Spec(cap, TextAt(idx, base + "title"), TextAt(idx, base + "purpose"), rs, []);
    FieldsAreRead(idx, cap, s);
  }

  /** Emits the facts in document order, minting one rid per requirement. */
  method FactsFromSpec(s: Spec) returns (facts: seq<Fact>)
    ensures facts == FactsOf(s) && forall f :: f in facts <==> StoredFact(s, f)
  {
    hide StoredFact;
    hide RequirementFacts, Rid, AddText, Flatten;
    facts := AddText(SpecBase(s.capability) + "title", s.title) + AddText(SpecBase(s.capability) + "purpose", s.purpose);
    FlattenOne(HeadEntry(s));
    assert [HeadEntry(s)] + RequirementEntries(s, 0) == [HeadEntry(s)];
    var minter := new Minter();
    var i := 0;
    while i < |s.requirements|
      invariant 0 <= i <= |s.requirements| && minter.Valid() && minter.names == Names(s.requirements)[..i]
      invariant fresh(minter)
      invariant facts == Flatten([HeadEntry(s)] + RequirementEntries(s, i))
    {
      var rid := minter.Mint(s.requirements[i].name);
      assert minter.names == Names(s.requirements)[..i + 1];
      RidOfPrefix(Names(s.requirements), i);
      var prefix := RequirementBase(s.capability) + rid + ".";
      EntryAppended(s, i);
      facts := facts + RequirementFacts(prefix, s.requirements[i], i);
      i := i + 1;
    }
    AllStored(s, facts);
  }

  // ---------------------------------------------------------------------------------------
  // Every fact by its full key
  // ---------------------------------------------------------------------------------------

  /** The key of the `i`th requirement without its field. */
  function RequirementKey(s: Spec, i: nat): string
    requires i < |s.requirements|
  {
    "spec." + s.capability + ".requirement." + Rid(Names(s.requirements), i)
  }

  /** Every fact that a spec is stored as. */
  ghost predicate StoredFact(s: Spec, f: Fact) {
    || (s.title != "" && f == Fact("spec." + s.capability + ".title", Prose(s.title)))
    || (s.purpose != "" && f == Fact("spec." + s.capability + ".purpose", Prose(s.purpose)))
    || (exists i :: 0 <= i < |s.requirements| && RequirementFact(RequirementKey(s, i), s.requirements[i], i, f))
  }

  lemma HeadKeys(cap: string)
    ensures SpecBase(cap) + "title" == "spec." + cap + ".title" && SpecBase(cap) + "purpose" == "spec." + cap + ".purpose"
  {
    DottedField("spec." + cap, "title", ".title");
    DottedField("spec." + cap, "purpose", ".purpose");
  }

  lemma RequirementBaseIs(cap: string)
    ensures RequirementBase(cap) == "spec." + cap + ".requirement."
  {
    DottedField("spec." + cap, "requirement.", ".requirement.");
  }

  lemma HeadWritten(s: Spec, f: Fact)
    ensures f in HeadEntry(s).facts <==>
            || (s.title != "" && f == Fact("spec." + s.capability + ".title", Prose(s.title)))
            || (s.purpose != "" && f == Fact("spec." + s.capability + ".purpose", Prose(s.purpose)))
  {
    hide SpecBase;
    HeadKeys(s.capability);
  }

  lemma OneWritten(s: Spec, i: nat, f: Fact)
    requires i < |s.requirements|
    ensures f in RequirementEntry(s, i).facts <==> RequirementFact(RequirementKey(s, i), s.requirements[i], i, f)
  {
    hide RequirementFacts, RequirementFact, Rid, RequirementBase;
    RequirementBaseIs(s.capability);
    assert RequirementPrefix(s, i) == RequirementKey(s, i) + ".";
    RequirementWritten(RequirementKey(s, i), s.requirements[i], i, f);
  }

  /** A spec is stored as exactly these facts. */
  lemma StoredFacts(s: Spec, f: Fact)
    ensures f in FactsOf(s) <==> StoredFact(s, f)
  {
    hide Flatten, HeadEntry, RequirementEntry, RequirementFact, RequirementKey;
    var es := Entries(s);
    InFlatten(es, f);
    HeadWritten(s, f);
    forall i | 0 <= i < |s.requirements|
      ensures es[i + 1] == RequirementEntry(s, i)
      ensures f in es[i + 1].facts <==> RequirementFact(RequirementKey(s, i), s.requirements[i], i, f) {
      OneWritten(s, i, f);
    }
    assert es[0] == HeadEntry(s);
    if f in FactsOf(s) {
      var e :| e in es && f in e.facts;
      var k :| 0 <= k < |es| && es[k] == e;
      if k > 0 { assert es[(k - 1) + 1] == e; }
    }
  }

  lemma AllStored(s: Spec, facts: seq<Fact>)
    requires facts == FactsOf(s)
    ensures forall f :: f in facts <==> StoredFact(s, f)
  {
    hide StoredFact, FactsOf;
    forall f ensures f in facts <==> StoredFact(s, f) { StoredFacts(s, f); }
  }

  /** What the fields of a spec read from the facts must be. */
  ghost predicate FieldsRead(idx: FactIndex, cap: string, s: Spec) {
    && s.capability == cap && s.title == TextAt(idx, "spec." + cap + ".title") && s.purpose == TextAt(idx, "spec." + cap + ".purpose")
    && exists rids :: InOrder(idx, "spec." + cap + ".requirement.", rids) && |rids| == |s.requirements| &&
         forall i | 0 <= i < |rids| ::
           var q := "spec." + cap + ".requirement." + rids[i];
           s.requirements[i] == Requirement(TextAt(idx, q + ".name"), TextAt(idx, q + ".statement"), ScenariosAt(idx, q + ".scenarios"))
  }

  /** Every field of a spec that is read comes from its own key. */
  lemma FieldsAreRead(idx: FactIndex, cap: string, s: Spec)
    requires Reads(idx, cap, s)
    ensures FieldsRead(idx, cap, s)
  {
    hide InOrder, TextAt, ScenariosAt, SpecBase, RequirementBase;
    HeadKeys(cap);
    RequirementBaseIs(cap);
    var b := RequirementBase(cap);
    var rids :| InOrder(idx, b, rids) && ReadsAt(idx, b, rids, s.requirements);
    forall i | 0 <= i < |rids|
      ensures var q := b + rids[i];
              s.requirements[i] == Requirement(TextAt(idx, q + ".name"), TextAt(idx, q + ".statement"), ScenariosAt(idx, q + ".scenarios"))
    {
      RequirementKeys(b + rids[i]);
    }
  }

  lemma FlattenOne(e: Entry)
    ensures Flatten([e]) == e.facts
  {
    assert [e][1..] == [];
  }

  /** A rid depends only on the names up to its own. */
  lemma RidOfPrefix(names: seq<string>, i: nat)
    requires i < |names|
    ensures Rid(names[..i + 1], i) == Rid(names, i)
  {
    assert names[..i + 1][..i] == names[..i];
  }

  lemma EntryAppended(s: Spec, i: nat)
    requires i < |s.requirements|
    ensures Flatten([HeadEntry(s)] + RequirementEntries(s, i + 1)) ==
            Flatten([HeadEntry(s)] + RequirementEntries(s, i)) + RequirementEntry(s, i).facts
  {
    hide HeadEntry, RequirementEntry, Flatten;
    var a := [HeadEntry(s)] + RequirementEntries(s, i);
    assert [HeadEntry(s)] + RequirementEntries(s, i + 1) == a + [RequirementEntry(s, i)];
    FlattenAppend(a, [RequirementEntry(s, i)]);
    FlattenOne(RequirementEntry(s, i));
  }
}

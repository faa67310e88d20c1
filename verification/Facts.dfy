/**
Graph facts of OpenSpec documents: predicate keys are dotted strings, and every key is read back either exactly or
by enumerating the keys under a prefix. Encoded lists, which are JSON strings in the code, are values here.
*/
module Facts {
  import opened OpenSpec
  import opened RequirementIds

  datatype Object =
    | Prose(text: string)
    | ScenarioList(scenarios: seq<Scenario>)
    | StringList(items: seq<string>)
    | DecisionList(decisions: seq<Decision>)
    | FileChangeList(changes: seq<FileChange>)
    | Number(number: int)
    | Flag(flag: bool)

  datatype Fact = Fact(key: string, value: Object)

  type FactIndex = map<string, Object>

  // ---------------------------------------------------------------------------------------
  // Adding facts: empty values are not stored
  // ---------------------------------------------------------------------------------------

  function AddText(key: string, s: string): seq<Fact> {
    if s == "" then [] else [Fact(key, Prose(s))]
  }

  function AddScenarios(key: string, ss: seq<Scenario>): seq<Fact> {
    if ss == [] then [] else [Fact(key, ScenarioList(ss))]
  }

  // ---------------------------------------------------------------------------------------
  // The index
  // ---------------------------------------------------------------------------------------

  /** The first fact of a key wins. */
  function Index(facts: seq<Fact>): FactIndex {
    if facts == [] then map[]
    else
      var idx, f := Index(facts[..|facts| - 1]), facts[|facts| - 1];
      if f.key in idx then idx else idx[f.key := f.value]
  }

  method IndexFacts(facts: seq<Fact>) returns (idx: FactIndex)
    ensures idx == Index(facts)
  {
    idx := map[];
    var i := 0;
    while i < |facts|
      invariant 0 <= i <= |facts|
      invariant idx == Index(facts[..i])
    {
      assert facts[..i + 1][..i] == facts[..i];
      if facts[i].key !in idx {
        idx := idx[facts[i].key := facts[i].value];
      }
      i := i + 1;
    }
    assert facts[..i] == facts;
  }

  lemma {:induction false} IndexHolds(facts: seq<Fact>)
    ensures forall k | k in Index(facts) :: Fact(k, Index(facts)[k]) in facts
    ensures forall f | f in facts :: f.key in Index(facts)
  {
    if facts != [] {
      var init, f := facts[..|facts| - 1], facts[|facts| - 1];
      IndexHolds(init);
      assert facts == init + [f];
    }
  }

  /** The value of a key is that of its first fact. */
  lemma {:induction false} FirstFactWins(facts: seq<Fact>, i: nat)
    requires i < |facts| && forall j | 0 <= j < i :: facts[j].key != facts[i].key
    ensures facts[i].key in Index(facts) && Index(facts)[facts[i].key] == facts[i].value
    decreases |facts|
  {
    var init := facts[..|facts| - 1];
    if i < |init| {
      FirstFactWins(init, i);
    } else {
      IndexHolds(init);
      forall f | f in init ensures f.key != facts[i].key {
        var j :| 0 <= j < |init| && init[j] == f;
        assert facts[j] == f;
      }
    }
  }

  function TextAt(idx: FactIndex, k: string): string {
    if k in idx && idx[k].Prose? then idx[k].text else ""
  }

  function ScenariosAt(idx: FactIndex, k: string): seq<Scenario> {
    if k in idx && idx[k].ScenarioList? then idx[k].scenarios else []
  }

  // ---------------------------------------------------------------------------------------
  // Keys: a prefix that ends in a dot, and a field without one
  // ---------------------------------------------------------------------------------------

  predicate Dotted(p: string) {
    p != "" && p[|p| - 1] == '.'
  }

  /** A key determines its prefix and its field. */
  lemma KeyParts(p: string, f: string, q: string, g: string)
    requires Dotted(p) && Dotted(q) && DotFree(f) && DotFree(g) && p + f == q + g
    ensures p == q && f == g
  {
    var k := p + f;
    assert k[|p| - 1] == '.' && k[|q| - 1] == '.';
    assert forall i | |p| <= i < |k| :: k[i] == f[i - |p|];
    assert forall i | |q| <= i < |k| :: k[i] == g[i - |q|];
    assert |p| == |q|;
    assert p == k[..|p|] && f == k[|p|..];
  }

  /** The first segment after a prefix is determined too. */
  lemma SegmentParts(a: string, x: string, b: string, y: string)
    requires DotFree(a) && DotFree(b) && a + "." + x == b + "." + y
    ensures a == b && x == y
  {
    var k := a + "." + x;
    assert k[|a|] == '.' && k[|b|] == '.';
    assert forall i | 0 <= i < |a| :: k[i] == a[i];
    assert forall i | 0 <= i < |b| :: k[i] == b[i];
    assert |a| == |b|;
    assert a == k[..|a|] && x == k[|a| + 1..] && y == k[|b| + 1..];
  }

  // ---------------------------------------------------------------------------------------
  // Entries: the facts that share a prefix
  // ---------------------------------------------------------------------------------------

  datatype Entry = Entry(prefix: string, facts: seq<Fact>)

  ghost predicate KeyedBy(f: Fact, p: string) {
    p <= f.key && DotFree(f.key[|p|..])
  }

  ghost predicate EntryOk(e: Entry) {
    && Dotted(e.prefix)
    && (forall f | f in e.facts :: KeyedBy(f, e.prefix))
    && (forall f, g | f in e.facts && g in e.facts && f.key == g.key :: f == g)
  }

  ghost predicate EntriesOk(es: seq<Entry>) {
    && (forall e | e in es :: EntryOk(e))
    && (forall e, d | e in es && d in es && e.prefix == d.prefix :: e == d)
  }

  function Flatten(es: seq<Entry>): seq<Fact> {
    if es == [] then [] else es[0].facts + Flatten(es[1..])
  }

  lemma {:induction false} InFlatten(es: seq<Entry>, f: Fact)
    ensures f in Flatten(es) <==> exists e :: e in es && f in e.facts
  {
    if es != [] {
      InFlatten(es[1..], f);
      assert es == [es[0]] + es[1..];
    }
  }

  lemma {:induction false} FlattenAppend(a: seq<Entry>, b: seq<Entry>)
    ensures Flatten(a + b) == Flatten(a) + Flatten(b)
  {
    if a == [] {
      assert a + b == b;
    } else {
      FlattenAppend(a[1..], b);
      var ab := a + b;
      assert ab[1..] == a[1..] + b && ab[0] == a[0];
      assert Flatten(ab) == a[0].facts + (Flatten(a[1..]) + Flatten(b));
    }
  }

  /** The index says of the prefix exactly what the entry says. */
  ghost predicate Shows(idx: FactIndex, e: Entry) {
    && (forall f | f in e.facts :: f.key in idx && idx[f.key] == f.value)
    && (forall x | DotFree(x) && e.prefix + x in idx :: Fact(e.prefix + x, idx[e.prefix + x]) in e.facts)
  }

  /** Among `facts`, those under `base` are exactly the facts of the entries. */
  ghost predicate Embeds(facts: seq<Fact>, base: string, es: seq<Entry>) {
    && (forall f | f in Flatten(es) :: f in facts)
    && (forall f | f in facts && base <= f.key :: f in Flatten(es))
  }

  lemma OneEntry(es: seq<Entry>, e: Entry, f: Fact)
    requires EntriesOk(es) && e in es && f in Flatten(es) && KeyedBy(f, e.prefix)
    ensures f in e.facts
  {
    InFlatten(es, f);
    var d :| d in es && f in d.facts;
    assert EntryOk(d) && EntryOk(e) && KeyedBy(f, d.prefix);
    assert f.key == e.prefix + f.key[|e.prefix|..] && f.key == d.prefix + f.key[|d.prefix|..];
    KeyParts(e.prefix, f.key[|e.prefix|..], d.prefix, f.key[|d.prefix|..]);
  }

  /** Whatever else the fact list holds and in whatever order, the index shows every entry exactly. */
  lemma EntriesShow(facts: seq<Fact>, base: string, es: seq<Entry>, e: Entry)
    requires EntriesOk(es) && Embeds(facts, base, es) && e in es && base <= e.prefix
    ensures Shows(Index(facts), e)
  {
    hide Index, Flatten, KeyedBy;
    var idx := Index(facts);
    IndexHolds(facts);
    forall f | f in e.facts ensures f.key in idx && idx[f.key] == f.value {
      InFlatten(es, f);
      var g := Fact(f.key, idx[f.key]);
      assert g in facts;
      assert KeyedBy(f, e.prefix);
      KeyedUnder(base, e.prefix, f);
      assert KeyedBy(g, e.prefix) by { SameKey(f, g, e.prefix); }
      OneEntry(es, e, g);
    }
    forall x | DotFree(x) && e.prefix + x in idx ensures Fact(e.prefix + x, idx[e.prefix + x]) in e.facts {
      var g := Fact(e.prefix + x, idx[e.prefix + x]);
      assert g in facts;
      assert KeyedBy(g, e.prefix) by { KeyedField(e.prefix, x, g); }
      KeyedUnder(base, e.prefix, g);
      OneEntry(es, e, g);
    }
  }

  lemma SameKey(f: Fact, g: Fact, p: string)
    requires KeyedBy(f, p) && f.key == g.key
    ensures KeyedBy(g, p)
  {
  }

  lemma KeyedField(p: string, x: string, g: Fact)
    requires g.key == p + x && DotFree(x)
    ensures KeyedBy(g, p)
  {
    assert g.key[|p|..] == x;
  }

  lemma KeyedUnder(base: string, p: string, f: Fact)
    requires base <= p && KeyedBy(f, p)
    ensures base <= f.key
  {
  }

  /** A key under the base belongs to one of the entries. */
  lemma KeyHasEntry(facts: seq<Fact>, base: string, es: seq<Entry>, k: string) returns (e: Entry)
    requires (forall e | e in es :: EntryOk(e)) && Embeds(facts, base, es) && k in Index(facts) && base <= k
    ensures e in es && e.prefix <= k && DotFree(k[|e.prefix|..]) && Fact(k, Index(facts)[k]) in e.facts
  {
    IndexHolds(facts);
    var f := Fact(k, Index(facts)[k]);
    InFlatten(es, f);
    e :| e in es && f in e.facts;
    assert EntryOk(e);
  }

  // ---------------------------------------------------------------------------------------
  // Other facts in the list
  // ---------------------------------------------------------------------------------------

  /** The facts of `facts` that are in `own`. */
  function OwnFacts(facts: seq<Fact>, own: seq<Fact>): seq<Fact> {
    if facts == [] then []
    else
      var f := facts[|facts| - 1];
      OwnFacts(facts[..|facts| - 1], own) + if f in own then [f] else []
  }

  lemma {:induction false} InOwn(facts: seq<Fact>, own: seq<Fact>, f: Fact)
    ensures f in OwnFacts(facts, own) <==> f in facts && f in own
  {
    if facts != [] {
      InOwn(facts[..|facts| - 1], own, f);
      assert facts == facts[..|facts| - 1] + [facts[|facts| - 1]];
    }
  }

  /** A key that only own facts have is looked up alike with and without all the others. */
  lemma {:induction false} IndexIgnoresOthers(facts: seq<Fact>, own: seq<Fact>, k: string)
    requires forall f | f in facts && f.key == k :: f in own
    ensures var idx, small := Index(facts), Index(OwnFacts(facts, own));
            (k in idx <==> k in small) && (k in idx ==> idx[k] == small[k])
  {
    hide Index, OwnFacts;
    if facts == [] {
      NothingOwn(own);
    } else {
      var init, f := facts[..|facts| - 1], facts[|facts| - 1];
      assert forall g | g in init :: g in facts;
      assert f in facts;
      IndexIgnoresOthers(init, own, k);
      var part := OwnFacts(init, own);
      OwnSnoc(init, f, own);
      IndexSnoc(init, f);
      IndexSnoc(part, f);
      assert facts == init + [f];
    }
  }

  lemma NothingOwn(own: seq<Fact>)
    ensures OwnFacts([], own) == []
  {
  }

  lemma OwnSnoc(facts: seq<Fact>, f: Fact, own: seq<Fact>)
    ensures OwnFacts(facts + [f], own) == if f in own then OwnFacts(facts, own) + [f] else OwnFacts(facts, own)
  {
    assert (facts + [f])[..|facts|] == facts;
  }

  lemma IndexSnoc(facts: seq<Fact>, f: Fact)
    ensures Index(facts + [f]) == if f.key in Index(facts) then Index(facts) else Index(facts)[f.key := f.value]
  {
    assert (facts + [f])[..|facts|] == facts;
  }

  ghost function KeysOf(facts: seq<Fact>): set<string> {
    set f | f in facts :: f.key
  }

  /** `big` is `small` with more keys. */
  ghost predicate Grows(small: FactIndex, big: FactIndex) {
    forall k | k in small :: k in big && big[k] == small[k]
  }

  /** When no other fact has the key of an own fact, the index is that of the own facts with more keys. */
  lemma OwnIndex(facts: seq<Fact>, own: seq<Fact>)
    requires forall f | f in own :: f in facts
    requires forall f, g | f in facts && g in own && f.key == g.key :: f in own
    ensures var small, big := Index(OwnFacts(facts, own)), Index(facts);
            && Grows(small, big) && small.Keys == KeysOf(own)
            && forall k | k in big && k !in small :: exists f :: f in facts && f !in own && f.key == k
  {
    hide Index, OwnFacts;
    var mine := OwnFacts(facts, own);
    var small, big := Index(mine), Index(facts);
    IndexHolds(mine);
    IndexHolds(facts);
    forall f ensures f in mine <==> f in own { InOwn(facts, own, f); }
    forall k ensures k in small <==> k in KeysOf(own) {
      if k in small { assert Fact(k, small[k]) in own && Fact(k, small[k]).key == k; }
    }
    forall k | k in small ensures k in big && big[k] == small[k] {
      assert Fact(k, small[k]) in own;
      IndexIgnoresOthers(facts, own, k);
    }
    forall k | k in big && k !in small ensures exists f :: f in facts && f !in own && f.key == k {
      var f := Fact(k, big[k]);
      assert f in facts && f !in own;
    }
  }

  // ---------------------------------------------------------------------------------------
  // The requirement body
  // ---------------------------------------------------------------------------------------

  function RequirementFacts(p: string, r: Requirement, pos: nat): seq<Fact> {
    AddText(p + "name", r.name) + AddText(p + "statement", r.statement) + AddScenarios(p + "scenarios", r.scenarios) +
    [Fact(p + "position", Number(pos))]
  }

  function RequirementAt(idx: FactIndex, p: string): Requirement {
    Requirement(TextAt(idx, p + "name"), TextAt(idx, p + "statement"), ScenariosAt(idx, p + "scenarios"))
  }

  lemma FieldsApart(p: string, f: string, g: string)
    ensures p + f == p + g <==> f == g
    ensures p <= p + f && (p + f)[|p|..] == f
  {
    if p + f == p + g {
      assert f == (p + f)[|p|..] && g == (p + g)[|p|..];
    }
  }

  ghost predicate IsField(e: Entry, field: string, s: string) {
    && (s != "" ==> Fact(e.prefix + field, Prose(s)) in e.facts)
    && (s == "" ==> forall f | f in e.facts :: f.key != e.prefix + field)
  }

  /** A text field comes back, empty if it was not stored. */
  lemma TextShows(idx: FactIndex, e: Entry, field: string, s: string)
    requires Shows(idx, e) && DotFree(field) && IsField(e, field, s)
    ensures TextAt(idx, e.prefix + field) == s
  {
  }

  ghost predicate IsScenarios(e: Entry, field: string, ss: seq<Scenario>) {
    && (ss != [] ==> Fact(e.prefix + field, ScenarioList(ss)) in e.facts)
    && (ss == [] ==> forall f | f in e.facts :: f.key != e.prefix + field)
  }

  lemma ScenariosShow(idx: FactIndex, e: Entry, field: string, ss: seq<Scenario>)
    requires Shows(idx, e) && DotFree(field) && IsScenarios(e, field, ss)
    ensures ScenariosAt(idx, e.prefix + field) == ss
  {
  }

  /** The fields a requirement entry may have besides the requirement body. */
  ghost predicate Aside(p: string, rest: seq<Fact>) {
    forall f | f in rest :: f.key != p + "name" && f.key != p + "statement" && f.key != p + "scenarios" && f.key != p + "position"
  }

  lemma RequirementFields(p: string, r: Requirement, pos: nat, before: seq<Fact>, after: seq<Fact>)
    requires Aside(p, before) && Aside(p, after)
    ensures var e := Entry(p, before + RequirementFacts(p, r, pos) + after);
            && IsField(e, "name", r.name) && IsField(e, "statement", r.statement) && IsScenarios(e, "scenarios", r.scenarios)
            && Fact(p + "position", Number(pos)) in e.facts
  {
    FieldsApart(p, "name", "statement");
    FieldsApart(p, "name", "scenarios");
    FieldsApart(p, "name", "position");
    FieldsApart(p, "statement", "scenarios");
    FieldsApart(p, "statement", "position");
    FieldsApart(p, "scenarios", "position");
    var e := Entry(p, before + RequirementFacts(p, r, pos) + after);
    assert |"statement"| == |"scenarios"| && "statement"[1] != "scenarios"[1];
    forall f | f in e.facts ensures f in before || f in after || f in RequirementFacts(p, r, pos) {}
    RequirementMembers(p, r, pos);
    assert forall f | f in RequirementFacts(p, r, pos) :: f in e.facts;
  }

  lemma RequirementMembers(p: string, r: Requirement, pos: nat)
    ensures forall f :: f in RequirementFacts(p, r, pos) <==>
                        || (r.name != "" && f == Fact(p + "name", Prose(r.name)))
                        || (r.statement != "" && f == Fact(p + "statement", Prose(r.statement)))
                        || (r.scenarios != [] && f == Fact(p + "scenarios", ScenarioList(r.scenarios)))
                        || f == Fact(p + "position", Number(pos))
  {
  }

  /** A requirement is rebuilt from its entry. */
  lemma RequirementShows(idx: FactIndex, p: string, r: Requirement, pos: nat, before: seq<Fact>, after: seq<Fact>)
    requires Aside(p, before) && Aside(p, after)
    requires Shows(idx, Entry(p, before + RequirementFacts(p, r, pos) + after))
    ensures RequirementAt(idx, p) == r
    ensures p + "position" in idx && idx[p + "position"] == Number(pos)
  {
    hide IsField, IsScenarios, RequirementFacts, TextAt, ScenariosAt, Aside;
    var e := Entry(p, before + RequirementFacts(p, r, pos) + after);
    RequirementFields(p, r, pos, before, after);
    FieldNames();
    TextShows(idx, e, "name", r.name);
    TextShows(idx, e, "statement", r.statement);
    ScenariosShow(idx, e, "scenarios", r.scenarios);
  }

  lemma FieldNames()
    ensures DotFree("name") && DotFree("statement") && DotFree("scenarios") && DotFree("position")
  {
  }

  /** Requirement facts have unique keys under their prefix. */
  lemma RequirementEntryOk(p: string, r: Requirement, pos: nat)
    requires Dotted(p)
    ensures EntryOk(Entry(p, RequirementFacts(p, r, pos)))
  {
    RequirementMembers(p, r, pos);
    FieldNames();
    FieldsApart(p, "name", "statement");
    FieldsApart(p, "name", "scenarios");
    FieldsApart(p, "name", "position");
    FieldsApart(p, "statement", "scenarios");
    FieldsApart(p, "statement", "position");
    FieldsApart(p, "scenarios", "position");
    assert |"statement"| == |"scenarios"| && "statement"[1] != "scenarios"[1];
  }

  // ---------------------------------------------------------------------------------------
  // The facts of a requirement body by their full keys
  // ---------------------------------------------------------------------------------------

  ghost predicate RequirementFact(p: string, r: Requirement, pos: nat, f: Fact) {
    || (r.name != "" && f == Fact(p + ".name", Prose(r.name)))
    || (r.statement != "" && f == Fact(p + ".statement", Prose(r.statement)))
    || (r.scenarios != [] && f == Fact(p + ".scenarios", ScenarioList(r.scenarios)))
    || f == Fact(p + ".position", Number(pos))
  }

  lemma DottedField(q: string, field: string, tail: string)
    requires tail == "." + field
    ensures (q + ".") + field == q + tail
  {
  }

  lemma RequirementKeys(q: string)
    ensures var p := q + ".";
            && p + "name" == q + ".name" && p + "statement" == q + ".statement" && p + "scenarios" == q + ".scenarios"
            && p + "position" == q + ".position"
  {
    DottedField(q, "name", ".name");
    DottedField(q, "statement", ".statement");
    DottedField(q, "scenarios", ".scenarios");
    DottedField(q, "position", ".position");
  }

  lemma RequirementWritten(q: string, r: Requirement, pos: nat, f: Fact)
    ensures f in RequirementFacts(q + ".", r, pos) <==> RequirementFact(q, r, pos, f)
  {
    hide RequirementFacts;
    RequirementKeys(q);
    RequirementMembers(q + ".", r, pos);
  }
}

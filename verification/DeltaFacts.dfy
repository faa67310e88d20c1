module DeltaFacts {
  // Deltas as facts: one entry per requirement change under "<capability>.<rid>.", read back by splitting keys from the right.

  import opened Text
  import opened OpenSpec
  import opened RequirementIds
  import opened Facts
  import opened ArtifactFacts
  import Ordering
  import SpecFacts

  // ---------------------------------------------------------------------------------------
  // One requirement change
  // ---------------------------------------------------------------------------------------

  datatype Item = AddItem(requirement: Requirement) | ModifyItem(modified: Modified) | RemoveItem(removed: Removed)
  {
    function Name(): string {
      match this
      case AddItem(r) => r.name
      case ModifyItem(m) => m.requirement.name
      case RemoveItem(r) => r.name
    }
  }

  /** All changes of a delta in position order. */
  function Items(d: Delta): seq<Item> {
    seq(|d.added|, i requires 0 <= i < |d.added| => AddItem(d.added[i])) +
    seq(|d.modified|, i requires 0 <= i < |d.modified| => ModifyItem(d.modified[i])) +
    seq(|d.removed|, i requires 0 <= i < |d.removed| => RemoveItem(d.removed[i]))
  }

  function ItemNames(d: Delta): seq<string> {
    seq(|Items(d)|, i requires 0 <= i < |Items(d)| => Items(d)[i].Name())
  }

  function ItemPrefix(base: string, cap: string, rid: string): string {
    base + cap + "." + rid + "."
  }

  function RemovedEntry(p: string, r: Removed, pos: nat): Entry {
    Four(p, "op", Some(Prose("removed")), "name", OfText(r.name), "position", Some(Number(pos)), "rationale", OfText(r.rationale))
  }

  function ItemFacts(p: string, x: Item, pos: nat): seq<Fact> {
    match x
    case AddItem(r) => [Fact(p + "op", Prose("added"))] + RequirementFacts(p, r, pos) + []
    case ModifyItem(m) =>
      [Fact(p + "op", Prose("modified"))] + RequirementFacts(p, m.requirement, pos) + AddText(p + "previously", m.previously)
    case RemoveItem(r) =>
      RemovedEntry(p, r, pos).facts
  }

  function ItemAt(idx: FactIndex, p: string): Option<Item> {
    var op := TextAt(idx, p + "op");
    if op == "added" then Some(AddItem(RequirementAt(idx, p)))
    else if op == "modified" then Some(ModifyItem(Modified(RequirementAt(idx, p), TextAt(idx, p + "previously"))))
    else if op == "removed" then Some(RemoveItem(Removed(TextAt(idx, p + "name"), TextAt(idx, p + "rationale"))))
    else None
  }

  lemma ItemFieldNames()
    ensures DotFree("op") && DotFree("previously") && DotFree("rationale")
  {
  }

  lemma ItemApart(p: string)
    ensures Aside(p, [Fact(p + "op", Prose("added"))]) && Aside(p, [Fact(p + "op", Prose("modified"))])
    ensures forall s :: Aside(p, AddText(p + "previously", s))
    ensures p + "op" != p + "previously" && p + "op" != p + "rationale" && p + "op" != p + "name" && p + "op" != p + "position"
    ensures p + "name" != p + "position" && p + "name" != p + "rationale" && p + "position" != p + "rationale"
  {
    OpApart(p);
    FieldsApart(p, "previously", "name");
    FieldsApart(p, "previously", "statement");
    FieldsApart(p, "previously", "scenarios");
    FieldsApart(p, "previously", "position");
    FieldsApart(p, "name", "position");
    FieldsApart(p, "name", "rationale");
    FieldsApart(p, "position", "rationale");
  }

  lemma OpApart(p: string)
    ensures p + "op" != p + "name" && p + "op" != p + "statement" && p + "op" != p + "scenarios" && p + "op" != p + "position"
    ensures p + "op" != p + "previously" && p + "op" != p + "rationale"
  {
    FieldsApart(p, "op", "name");
    FieldsApart(p, "op", "statement");
    FieldsApart(p, "op", "scenarios");
    FieldsApart(p, "op", "position");
    FieldsApart(p, "op", "previously");
    FieldsApart(p, "op", "rationale");
  }

  lemma RemovedNames()
    ensures FourNames("op", "name", "position", "rationale")
  {
    assert |"op"| == 2 && |"name"| == 4 && |"position"| == 8 && |"rationale"| == 9;
  }

  lemma RemovedIsFour(p: string, r: Removed, pos: nat)
    ensures Entry(p, ItemFacts(p, RemoveItem(r), pos)) == RemovedEntry(p, r, pos)
  {
  }

  lemma RemoveEntryOk(p: string, r: Removed, pos: nat)
    requires Dotted(p)
    ensures EntryOk(Entry(p, ItemFacts(p, RemoveItem(r), pos)))
  {
    hide EntryOk, Four, FourNames, OfText;
    RemovedNames();
    RemovedIsFour(p, r, pos);
    FourOk(p, "op", Some(Prose("removed")), "name", OfText(r.name), "position", Some(Number(pos)), "rationale", OfText(r.rationale));
  }

  lemma RemoveShows(idx: FactIndex, p: string, r: Removed, pos: nat)
    requires Shows(idx, Entry(p, ItemFacts(p, RemoveItem(r), pos)))
    ensures ItemAt(idx, p) == Some(RemoveItem(r))
    ensures p + "position" in idx && idx[p + "position"] == Number(pos)
  {
    hide Shows, Four, RequirementAt;
    RemovedNames();
    RemovedIsFour(p, r, pos);
    FourShow(idx, p, "op", Some(Prose("removed")), "name", OfText(r.name), "position", Some(Number(pos)), "rationale", OfText(r.rationale));
    OpWords();
  }

  lemma OpWords()
    ensures "removed" != "added" && "removed" != "modified" && "modified" != "added"
  {
    assert |"removed"| == 7 && |"added"| == 5 && |"modified"| == 8;
  }

  /** A requirement body between other fields is still an entry. */
  lemma WrapEntryOk(p: string, before: seq<Fact>, r: Requirement, pos: nat, after: seq<Fact>)
    requires Dotted(p) && Aside(p, before) && Aside(p, after)
    requires forall f | f in before + after :: KeyedBy(f, p)
    requires forall f, g | f in before + after && g in before + after && f.key == g.key :: f == g
    ensures EntryOk(Entry(p, before + RequirementFacts(p, r, pos) + after))
  {
    hide KeyedBy;
    var body := RequirementFacts(p, r, pos);
    var all := before + body + after;
    RequirementEntryOk(p, r, pos);
    RequirementMembers(p, r, pos);
    forall f | f in all ensures f in body || f in before + after {}
    forall f, g | f in all && g in all && f.key == g.key ensures f == g {
      assert EntryOk(Entry(p, body));
    }
  }

  lemma ItemEntryOk(p: string, x: Item, pos: nat)
    requires Dotted(p)
    ensures EntryOk(Entry(p, ItemFacts(p, x, pos)))
  {
    hide EntryOk, RequirementFacts, Aside;
    ItemApart(p);
    ItemFieldNames();
    match x
    case AddItem(r) =>
      FieldsApart(p, "op", "");
      NothingAside(p);
      WrapEntryOk(p, [Fact(p + "op", Prose("added"))], r, pos, []);
    case ModifyItem(m) =>
      FieldsApart(p, "op", "");
      FieldsApart(p, "previously", "");
      WrapEntryOk(p, [Fact(p + "op", Prose("modified"))], m.requirement, pos, AddText(p + "previously", m.previously));
    case RemoveItem(r) =>
      RemoveEntryOk(p, r, pos);
  }

  lemma OpShows(idx: FactIndex, e: Entry, op: string)
    requires Shows(idx, e) && Fact(e.prefix + "op", Prose(op)) in e.facts
    ensures TextAt(idx, e.prefix + "op") == op
  {
  }

  lemma ItemShows(idx: FactIndex, p: string, x: Item, pos: nat)
    requires Shows(idx, Entry(p, ItemFacts(p, x, pos)))
    ensures ItemAt(idx, p) == Some(x)
    ensures p + "position" in idx && idx[p + "position"] == Number(pos)
  {
    hide Shows, RequirementFacts, Aside, RequirementAt, TextAt, IsField;
    ItemApart(p);
    ItemFieldNames();
    var e := Entry(p, ItemFacts(p, x, pos));
    match x
    case AddItem(r) =>
      assert e.facts[0] == Fact(p + "op", Prose("added"));
      OpShows(idx, e, "added");
      assert Aside(p, []) by { NothingAside(p); }
      RequirementShows(idx, p, r, pos, [Fact(p + "op", Prose("added"))], []);
    case ModifyItem(m) =>
      assert e.facts[0] == Fact(p + "op", Prose("modified"));
      OpShows(idx, e, "modified");
      RequirementShows(idx, p, m.requirement, pos, [Fact(p + "op", Prose("modified"))], AddText(p + "previously", m.previously));
      assert IsField(e, "previously", m.previously) by { PreviouslyField(p, m, pos); }
      TextShows(idx, e, "previously", m.previously);
    case RemoveItem(r) =>
      RemoveShows(idx, p, r, pos);
  }

  lemma NothingAside(p: string)
    ensures Aside(p, [])
  {
  }

  lemma PreviouslyField(p: string, m: Modified, pos: nat)
    ensures IsField(Entry(p, ItemFacts(p, ModifyItem(m), pos)), "previously", m.previously)
  {
    OpApart(p);
    FieldsApart(p, "previously", "name");
    FieldsApart(p, "previously", "statement");
    FieldsApart(p, "previously", "scenarios");
    FieldsApart(p, "previously", "position");
    RequirementMembers(p, m.requirement, pos);
    var e := Entry(p, ItemFacts(p, ModifyItem(m), pos));
    forall f | f in e.facts
      ensures f.key == p + "op" || f in RequirementFacts(p, m.requirement, pos) || f in AddText(p + "previously", m.previously) {}
  }
  /** Every key of an item lies strictly below its prefix, in one more segment. */
  lemma ItemKeyed(p: string, x: Item, pos: nat, f: Fact)
    requires f in ItemFacts(p, x, pos)
    ensures p < f.key
  {
    hide Four, RequirementFacts;
    match x
    case AddItem(r) => RequirementMembers(p, r, pos);
    case ModifyItem(m) => RequirementMembers(p, m.requirement, pos);
    case RemoveItem(r) =>
      FourMembers(p, "op", Some(Prose("removed")), "name", OfText(r.name), "position", Some(Number(pos)), "rationale",
                  OfText(r.rationale));
  }

  // ---------------------------------------------------------------------------------------
  // Keys split from the right
  // ---------------------------------------------------------------------------------------

  function LastIndexOf(s: string, c: char): (i: int)
    ensures -1 <= i < |s|
    ensures i >= 0 ==> s[i] == c
    ensures forall j | i < j < |s| :: s[j] != c
  {
    if s == "" then -1 else if s[|s| - 1] == c then |s| - 1 else LastIndexOf(s[..|s| - 1], c)
  }

  datatype Tail = Tail(capability: string, rid: string, field: string)

  function ParseDeltaTail(tail: string): Option<Tail> {
    var i := LastIndexOf(tail, '.');
    if i < 0 then None
    else
      var left := tail[..i];
      var j := LastIndexOf(left, '.');
      if j < 0 then None
      else
        var t := Tail(left[..j], left[j + 1..], tail[i + 1..]);
        if t.capability != "" && t.rid != "" && t.field != "" then Some(t) else None
  }

  function TailKey(t: Tail): string {
    t.capability + "." + t.rid + "." + t.field
  }

  predicate TailOk(t: Tail) {
    t.capability != "" && t.rid != "" && t.field != "" && DotFree(t.rid) && DotFree(t.field)
  }

  lemma DotAt(a: string, b: string)
    ensures |a| < |a + "." + b| && (a + "." + b)[|a|] == '.'
    ensures (a + "." + b)[..|a|] == a && (a + "." + b)[|a| + 1..] == b
  {
  }

  lemma NoDotAfter(s: string, k: nat)
    requires k < |s| && DotFree(s[k + 1..])
    ensures forall j | k < j < |s| :: s[j] != '.'
  {
    forall j | k < j < |s| ensures s[j] != '.' { assert s[j] == s[k + 1..][j - k - 1]; }
  }

  lemma LastDot(a: string, b: string)
    requires DotFree(b)
    ensures LastIndexOf(a + "." + b, '.') == |a|
    ensures (a + "." + b)[..|a|] == a && (a + "." + b)[|a| + 1..] == b
  {
    hide LastIndexOf, DotFree;
    DotAt(a, b);
    NoDotAfter(a + "." + b, |a|);
  }

  /** The split inverts the key exactly: capabilities may contain dots, rids and fields may not. */
  lemma TailIffKey(s: string, t: Tail)
    ensures ParseDeltaTail(s) == Some(t) <==> TailOk(t) && s == TailKey(t)
  {
    hide LastIndexOf;
    if TailOk(t) && s == TailKey(t) {
      var left := t.capability + "." + t.rid;
      assert s == left + "." + t.field;
      LastDot(left, t.field);
      LastDot(t.capability, t.rid);
    }
    if ParseDeltaTail(s) == Some(t) {
      var i := LastIndexOf(s, '.');
      var left := s[..i];
      var j := LastIndexOf(left, '.');
      assert left == left[..j] + "." + left[j + 1..];
      assert s == left + "." + s[i + 1..];
    }
  }

  // ---------------------------------------------------------------------------------------
  // Entries of a list of deltas
  // ---------------------------------------------------------------------------------------

  function ItemRid(d: Delta, j: nat): string
    requires j < |Items(d)|
  {
    Rid(ItemNames(d), j)
  }

  function ItemEntry(base: string, d: Delta, j: nat): Entry
    requires j < |Items(d)|
  {
    var p := ItemPrefix(base, d.capability, ItemRid(d, j));
    Entry(p, ItemFacts(p, Items(d)[j], j))
  }

  function ItemEntries(base: string, d: Delta, n: nat): seq<Entry>
    requires n <= |Items(d)|
  {
    seq(n, j requires 0 <= j < n => ItemEntry(base, d, j))
  }

  function DeltaEntries(base: string, ds: seq<Delta>): seq<Entry> {
    if ds == [] then []
    else
      var d := ds[|ds| - 1];
      DeltaEntries(base, ds[..|ds| - 1]) + ItemEntries(base, d, |Items(d)|)
  }

  lemma {:induction false} EntryIsListed(base: string, ds: seq<Delta>, i: nat, j: nat)
    requires i < |ds| && j < |Items(ds[i])|
    ensures ItemEntry(base, ds[i], j) in DeltaEntries(base, ds)
  {
    hide ItemEntry, Items;
    var d := ds[|ds| - 1];
    if i == |ds| - 1 {
      assert ItemEntries(base, d, |Items(d)|)[j] == ItemEntry(base, ds[i], j);
    } else {
      EntryIsListed(base, ds[..|ds| - 1], i, j);
    }
  }

  lemma {:induction false} ListedEntry(base: string, ds: seq<Delta>, e: Entry) returns (i: nat, j: nat)
    requires e in DeltaEntries(base, ds)
    ensures i < |ds| && j < |Items(ds[i])| && e == ItemEntry(base, ds[i], j)
  {
    hide ItemEntry, Items;
    var d := ds[|ds| - 1];
    var es := ItemEntries(base, d, |Items(d)|);
    if e in es {
      i := |ds| - 1;
      j :| 0 <= j < |es| && es[j] == e;
    } else {
      i, j := ListedEntry(base, ds[..|ds| - 1], e);
    }
  }

  // ---------------------------------------------------------------------------------------
  // Reading deltas back
  // ---------------------------------------------------------------------------------------

  ghost predicate Keyed(idx: FactIndex, base: string, k: string, t: Tail) {
    k in idx && base <= k && ParseDeltaTail(k[|base|..]) == Some(t)
  }

  ghost predicate HasCap(idx: FactIndex, base: string, cap: string) {
    exists k, t :: Keyed(idx, base, k, t) && t.capability == cap
  }

  ghost predicate HasRid(idx: FactIndex, base: string, cap: string, rid: string) {
    exists k, t :: Keyed(idx, base, k, t) && t.capability == cap && t.rid == rid
  }

  /** A missing position counts as zero. */
  function ItemPosition(idx: FactIndex, p: string): int {
    var k := p + "position";
    if k in idx && idx[k].Number? then idx[k].number else 0
  }

  /** The rids of a capability, each once, by position; equal positions in any order. */
  ghost predicate RidsInOrder(idx: FactIndex, base: string, cap: string, rids: seq<string>) {
    && (forall r :: r in rids <==> HasRid(idx, base, cap, r))
    && (forall i, j | 0 <= i < j < |rids| :: rids[i] != rids[j])
    && (forall i, j | 0 <= i < j < |rids| ::
          ItemPosition(idx, ItemPrefix(base, cap, rids[i])) <= ItemPosition(idx, ItemPrefix(base, cap, rids[j])))
  }

  /** An item without a numeric position comes before every item with a positive one and after every one with a negative one. */
  lemma UnplacedIsFirst(idx: FactIndex, base: string, cap: string, rids: seq<string>, i: nat, j: nat)
    requires RidsInOrder(idx, base, cap, rids) && i < |rids| && j < |rids|
    requires var k := ItemPrefix(base, cap, rids[i]) + "position"; k !in idx || !idx[k].Number?
    requires var k := ItemPrefix(base, cap, rids[j]) + "position"; k in idx && idx[k].Number? && idx[k].number != 0
    ensures idx[ItemPrefix(base, cap, rids[j]) + "position"].number > 0 <==> i < j
  {
    hide HasRid, ItemPrefix;
    assert ItemPosition(idx, ItemPrefix(base, cap, rids[i])) == 0;
    assert ItemPosition(idx, ItemPrefix(base, cap, rids[j])) == idx[ItemPrefix(base, cap, rids[j]) + "position"].number;
  }

  function ItemList(idx: FactIndex, base: string, cap: string, rids: seq<string>): seq<Option<Item>> {
    seq(|rids|, i requires 0 <= i < |rids| => ItemAt(idx, ItemPrefix(base, cap, rids[i])))
  }

  function Put(d: Delta, x: Option<Item>): Delta {
    match x
    case None => d
    case Some(AddItem(r)) => d.(added := d.added + [r])
    case Some(ModifyItem(m)) => d.(modified := d.modified + [m])
    case Some(RemoveItem(r)) => d.(removed := d.removed + [r])
  }

  /** Each item goes to the end of its own list. */
  function Gather(cap: string, xs: seq<Option<Item>>): Delta {
    if xs == [] then Delta(cap, "", [], [], [], []) else Put(Gather(cap, xs[..|xs| - 1]), xs[|xs| - 1])
  }

  ghost predicate DeltaReads(idx: FactIndex, base: string, d: Delta) {
    exists rids :: RidsInOrder(idx, base, d.capability, rids) && d == Gather(d.capability, ItemList(idx, base, d.capability, rids))
  }

  function Capabilities(ds: seq<Delta>): seq<string> {
    seq(|ds|, i requires 0 <= i < |ds| => ds[i].capability)
  }

  /** What the reader may return, whatever order the index is enumerated in. */
  ghost predicate DeltasRead(idx: FactIndex, base: string, ds: seq<Delta>) {
    && Ordering.Strict(Capabilities(ds))
    && (forall c :: c in Capabilities(ds) <==> HasCap(idx, base, c))
    && (forall i | 0 <= i < |ds| :: DeltaReads(idx, base, ds[i]))
  }

  // ---------------------------------------------------------------------------------------
  // Gathering
  // ---------------------------------------------------------------------------------------

  function KeptDelta(d: Delta): Delta {
    d.(title := "", warnings := [])
  }

  function Upto<T>(xs: seq<T>, n: int): seq<T> {
    if n <= 0 then [] else if n < |xs| then xs[..n] else xs
  }

  function Somes(xs: seq<Item>): seq<Option<Item>> {
    seq(|xs|, i requires 0 <= i < |xs| => Some(xs[i]))
  }

  lemma UptoNext<T>(xs: seq<T>, n: int)
    ensures Upto(xs, n + 1) == if 0 <= n < |xs| then Upto(xs, n) + [xs[n]] else Upto(xs, n)
  {
  }

  function Partial(d: Delta, n: int): Delta {
    Delta(d.capability, "", Upto(d.added, n), Upto(d.modified, n - |d.added|), Upto(d.removed, n - |d.added| - |d.modified|), [])
  }

  lemma PutNext(d: Delta, n: nat)
    requires n < |Items(d)|
    ensures Put(Partial(d, n), Some(Items(d)[n])) == Partial(d, n + 1)
  {
    hide Upto, Items;
    ItemsAt(d, n);
    UptoNext(d.added, n);
    UptoNext(d.modified, n - |d.added|);
    UptoNext(d.removed, n - |d.added| - |d.modified|);
  }

  lemma {:induction false} GatherUpto(d: Delta, n: nat)
    requires n <= |Items(d)|
    ensures Gather(d.capability, Somes(Items(d)[..n])) == Partial(d, n)
    decreases n
  {
    if n == 0 {
      assert Somes(Items(d)[..0]) == [];
    } else {
      hide Upto, Items, Put, Partial;
      GatherUpto(d, n - 1);
      var xs := Somes(Items(d)[..n]);
      assert xs[..n - 1] == Somes(Items(d)[..n - 1]);
      PutNext(d, n - 1);
    }
  }

  lemma ItemsAt(d: Delta, i: nat)
    requires i < |Items(d)|
    ensures var a, m := |d.added|, |d.modified|;
            && |Items(d)| == a + m + |d.removed|
            && Items(d)[i] == if i < a then AddItem(d.added[i])
                              else if i < a + m then ModifyItem(d.modified[i - a]) else RemoveItem(d.removed[i - a - m])
  {
  }

  lemma GatherItems(d: Delta)
    ensures Gather(d.capability, Somes(Items(d))) == KeptDelta(d)
  {
    GatherUpto(d, |Items(d)|);
    assert Items(d)[..|Items(d)|] == Items(d);
  }

  lemma {:induction false} GatherShrinks(cap: string, xs: seq<Option<Item>>)
    ensures |Items(Gather(cap, xs))| <= |xs|
    ensures Gather(cap, xs).capability == cap
  {
    if xs != [] { GatherShrinks(cap, xs[..|xs| - 1]); }
  }

  // ---------------------------------------------------------------------------------------
  // An index that holds the items of a list of deltas
  // ---------------------------------------------------------------------------------------

  /** Everything under `base` is the content of some item. */
  ghost predicate Within(idx: FactIndex, base: string, ds: seq<Delta>) {
    forall k | k in idx && base <= k :: exists i, j :: InItem(base, ds, i, j, k)
  }

  ghost predicate InItem(base: string, ds: seq<Delta>, i: int, j: int, k: string) {
    && 0 <= i < |ds| && 0 <= j < |Items(ds[i])|
    && ItemPrefix(base, ds[i].capability, ItemRid(ds[i], j)) < k
    && DotFree(k[|ItemPrefix(base, ds[i].capability, ItemRid(ds[i], j))|..])
  }

  /** Every item has its position stored. */
  ghost predicate Reached(idx: FactIndex, base: string, ds: seq<Delta>) {
    forall i, j | 0 <= i < |ds| && 0 <= j < |Items(ds[i])| ::
      ItemPrefix(base, ds[i].capability, ItemRid(ds[i], j)) + "position" in idx
  }

  lemma ItemKeyReads(base: string, cap: string, rid: string, field: string, k: string)
    requires k == ItemPrefix(base, cap, rid) + field && rid != "" && field != "" && DotFree(rid) && DotFree(field)
    ensures base <= k
    ensures ParseDeltaTail(k[|base|..]) == if cap == "" then None else Some(Tail(cap, rid, field))
  {
    hide ParseDeltaTail;
    var t := Tail(cap, rid, field);
    assert k == base + TailKey(t);
    assert k[|base|..] == TailKey(t);
    if cap == "" {
      NoCapability(rid, field);
    } else {
      TailIffKey(k[|base|..], t);
    }
  }

  lemma NoCapability(rid: string, field: string)
    requires DotFree(rid) && DotFree(field)
    ensures ParseDeltaTail(TailKey(Tail("", rid, field))).None?
  {
    hide LastIndexOf;
    var s := TailKey(Tail("", rid, field));
    var left := "." + rid;
    assert s == left + "." + field;
    LastDot(left, field);
    LastDot("", rid);
    assert "" + "." + rid == left;
  }

  /** A key that the reader takes for an item is a key of that item. */
  lemma WhichItem(idx: FactIndex, base: string, ds: seq<Delta>, k: string, t: Tail) returns (i: nat, j: nat)
    requires Within(idx, base, ds) && Keyed(idx, base, k, t)
    ensures i < |ds| && j < |Items(ds[i])| && t.capability == ds[i].capability && t.rid == ItemRid(ds[i], j)
  {
    hide Rid, Items, ParseDeltaTail, ItemPrefix;
    i, j :| InItem(base, ds, i, j, k);
    var p := ItemPrefix(base, ds[i].capability, ItemRid(ds[i], j));
    assert k == p + k[|p|..];
    RidShape(ItemNames(ds[i]), j);
    ItemKeyReads(base, ds[i].capability, ItemRid(ds[i], j), k[|p|..], k);
  }

  lemma ItemIsFound(idx: FactIndex, base: string, ds: seq<Delta>, i: nat, j: nat)
    requires Reached(idx, base, ds) && i < |ds| && j < |Items(ds[i])| && ds[i].capability != ""
    ensures HasRid(idx, base, ds[i].capability, ItemRid(ds[i], j)) && HasCap(idx, base, ds[i].capability)
  {
    hide Rid, Items, ParseDeltaTail, ItemPrefix;
    RidShape(ItemNames(ds[i]), j);
    var cap, rid := ds[i].capability, ItemRid(ds[i], j);
    var k := ItemPrefix(base, cap, rid) + "position";
    assert DotFree("position");
    ItemKeyReads(base, cap, rid, "position", k);
    assert Keyed(idx, base, k, Tail(cap, rid, "position"));
  }

  ghost predicate DistinctCaps(ds: seq<Delta>) {
    forall i, j | 0 <= i < j < |ds| :: ds[i].capability != ds[j].capability
  }

  lemma CapsDistinct(ds: seq<Delta>)
    requires Ordering.Strict(Capabilities(ds))
    ensures DistinctCaps(ds)
  {
    hide Ordering.Distinct, Ordering.Sorted;
    Ordering.PairwiseDistinct(Capabilities(ds));
    forall i, j | 0 <= i < j < |ds| ensures ds[i].capability != ds[j].capability {
      assert Capabilities(ds)[i] == ds[i].capability && Capabilities(ds)[j] == ds[j].capability;
    }
  }

  /** The rids found for a capability are among those minted for its delta. */
  lemma FoundRid(idx: FactIndex, base: string, ds: seq<Delta>, i: nat, rid: string) returns (j: nat)
    requires Within(idx, base, ds) && DistinctCaps(ds) && i < |ds| && HasRid(idx, base, ds[i].capability, rid)
    ensures j < |Items(ds[i])| && rid == ItemRid(ds[i], j)
  {
    hide Within, ItemRid, Keyed, Items;
    var k, t :| Keyed(idx, base, k, t) && t.capability == ds[i].capability && t.rid == rid;
    var i';
    i', j := WhichItem(idx, base, ds, k, t);
    assert i' == i;
  }

  /** The index holds every item's entry. */
  ghost predicate AllShown(idx: FactIndex, base: string, ds: seq<Delta>) {
    forall i, j | 0 <= i < |ds| && 0 <= j < |Items(ds[i])| :: Shows(idx, ItemEntry(base, ds[i], j))
  }

  lemma ItemShown(idx: FactIndex, base: string, ds: seq<Delta>, i: nat, j: nat)
    requires AllShown(idx, base, ds) && i < |ds| && j < |Items(ds[i])|
    ensures var p := ItemPrefix(base, ds[i].capability, ItemRid(ds[i], j));
            ItemAt(idx, p) == Some(Items(ds[i])[j]) && ItemPosition(idx, p) == j && p + "position" in idx
  {
    hide Rid, Items, Shows, ItemFacts, ItemAt, ItemPrefix;
    assert Shows(idx, ItemEntry(base, ds[i], j));
    ItemShows(idx, ItemPrefix(base, ds[i].capability, ItemRid(ds[i], j)), Items(ds[i])[j], j);
  }

  lemma ShownReached(idx: FactIndex, base: string, ds: seq<Delta>)
    requires AllShown(idx, base, ds)
    ensures Reached(idx, base, ds)
  {
    hide AllShown, ItemPrefix, ItemRid, Items, ItemAt, ItemPosition;
    forall i, j | 0 <= i < |ds| && 0 <= j < |Items(ds[i])|
      ensures ItemPrefix(base, ds[i].capability, ItemRid(ds[i], j)) + "position" in idx
    {
      ItemShown(idx, base, ds, i, j);
    }
  }

  lemma ItemOrder(idx: FactIndex, base: string, ds: seq<Delta>, i: nat, rids: seq<string>)
    requires AllShown(idx, base, ds) && Within(idx, base, ds) && DistinctCaps(ds)
    requires i < |ds| && ds[i].capability != "" && RidsInOrder(idx, base, ds[i].capability, rids)
    ensures |rids| == |Items(ds[i])| && forall j | 0 <= j < |rids| :: rids[j] == ItemRid(ds[i], j)
  {
    hide AllShown, Within, ItemRid, ItemPrefix, ItemPosition, ItemAt, Items, HasRid;
    var d := ds[i];
    var ps := seq(|rids|, m requires 0 <= m < |rids| => ItemPosition(idx, ItemPrefix(base, d.capability, rids[m])));
    ShownReached(idx, base, ds);
    forall m | 0 <= m < |rids| ensures 0 <= ps[m] < |Items(d)| && rids[m] == ItemRid(d, ps[m]) {
      assert rids[m] in rids;
      var j := FoundRid(idx, base, ds, i, rids[m]);
      ItemShown(idx, base, ds, i, j);
    }
    forall m, n | 0 <= m < n < |rids| ensures ps[m] < ps[n] {
      assert rids[m] == ItemRid(d, ps[m]) && rids[n] == ItemRid(d, ps[n]);
    }
    forall x | 0 <= x < |Items(d)| ensures x in ps {
      ItemIsFound(idx, base, ds, i, x);
      ItemShown(idx, base, ds, i, x);
      assert ItemRid(d, x) in rids;
      var m :| 0 <= m < |rids| && rids[m] == ItemRid(d, x);
      assert ps[m] == x;
    }
    SpecFacts.CountsUp(ps, |Items(d)|);
  }

  /** One delta comes back. */
  lemma DeltaReadBack(idx: FactIndex, base: string, ds: seq<Delta>, i: nat, r: Delta)
    requires AllShown(idx, base, ds) && Within(idx, base, ds) && DistinctCaps(ds)
    requires i < |ds| && ds[i].capability != "" && r.capability == ds[i].capability && DeltaReads(idx, base, r)
    ensures r == KeptDelta(ds[i])
  {
    hide AllShown, Within, ItemRid, ItemPrefix, ItemAt, Items, RidsInOrder, Gather, KeptDelta;
    var cap := r.capability;
    var rids :| RidsInOrder(idx, base, cap, rids) && r == Gather(cap, ItemList(idx, base, cap, rids));
    ItemOrder(idx, base, ds, i, rids);
    forall j | 0 <= j < |rids| ensures ItemList(idx, base, cap, rids)[j] == Somes(Items(ds[i]))[j] {
      ItemShown(idx, base, ds, i, j);
    }
    assert ItemList(idx, base, cap, rids) == Somes(Items(ds[i]));
    GatherItems(ds[i]);
  }

  /** Deltas that facts can carry: sorted by capability, none empty or unnamed, rids without clash. */
  ghost predicate DeltasStorable(ds: seq<Delta>) {
    && Ordering.Strict(Capabilities(ds))
    && (forall i | 0 <= i < |ds| :: ds[i].capability != "" && Items(ds[i]) != [] && NoClash(ItemNames(ds[i])))
  }

  function KeptDeltas(ds: seq<Delta>): seq<Delta> {
    seq(|ds|, i requires 0 <= i < |ds| => KeptDelta(ds[i]))
  }

  lemma FoundCaps(idx: FactIndex, base: string, ds: seq<Delta>, c: string)
    requires Within(idx, base, ds) && Reached(idx, base, ds) && DeltasStorable(ds)
    ensures HasCap(idx, base, c) <==> c in Capabilities(ds)
  {
    hide Within, Reached, ItemRid, Items, Keyed, Ordering.Strict, NoClash;
    var caps := Capabilities(ds);
    if HasCap(idx, base, c) {
      var k, t :| Keyed(idx, base, k, t) && t.capability == c;
      var i, j := WhichItem(idx, base, ds, k, t);
      assert caps[i] == c;
    }
    if c in caps {
      var i :| 0 <= i < |caps| && caps[i] == c;
      ItemIsFound(idx, base, ds, i, 0);
    }
  }

  /** All deltas come back, in order. */
  lemma DeltasReadBack(idx: FactIndex, base: string, ds: seq<Delta>, r: seq<Delta>)
    requires AllShown(idx, base, ds) && Within(idx, base, ds) && DeltasStorable(ds) && DeltasRead(idx, base, r)
    ensures r == KeptDeltas(ds)
  {
    hide AllShown, Within, Items, NoClash, HasCap, DeltaReads, Ordering.Strict, KeptDelta;
    ShownReached(idx, base, ds);
    forall c ensures c in Capabilities(r) <==> c in Capabilities(ds) {
      FoundCaps(idx, base, ds, c);
    }
    Ordering.StrictUnique(Capabilities(r), Capabilities(ds));
    CapsDistinct(ds);
    forall i | 0 <= i < |ds| ensures |r| == |ds| && r[i] == KeptDelta(ds[i]) {
      assert Capabilities(r)[i] == Capabilities(ds)[i];
      DeltaReadBack(idx, base, ds, i, r[i]);
    }
  }

  // ---------------------------------------------------------------------------------------
  // The conditions are exact
  // ---------------------------------------------------------------------------------------

  lemma KeptItems(d: Delta)
    ensures Items(KeptDelta(d)) == Items(d) && KeptDelta(d).capability == d.capability
  {
  }

  lemma NoLoss(idx: FactIndex, base: string, ds: seq<Delta>, i: nat)
    requires Within(idx, base, ds) && DistinctCaps(ds) && i < |ds| && DeltaReads(idx, base, KeptDelta(ds[i]))
    ensures NoClash(ItemNames(ds[i]))
  {
    hide Within, Items, Keyed, Rid, ItemAt, HasRid, Gather, KeptDelta, NoClash;
    var d, names := ds[i], ItemNames(ds[i]);
    KeptItems(d);
    var cap := d.capability;
    var rids :| RidsInOrder(idx, base, cap, rids) && KeptDelta(d) == Gather(cap, ItemList(idx, base, cap, rids));
    GatherShrinks(cap, ItemList(idx, base, cap, rids));
    forall x | x in rids ensures x in SpecFacts.Rids(names, |names|) {
      var j := FoundRid(idx, base, ds, i, x);
    }
    SpecFacts.DistinctSize(rids, SpecFacts.Rids(names, |names|));
    SpecFacts.FewerRids(names, |names|);
    RidsApartIffNoClash(names);
  }

  /** Deltas that come back were storable. */
  lemma OnlyStorable(idx: FactIndex, base: string, ds: seq<Delta>)
    requires Within(idx, base, ds) && DeltasRead(idx, base, KeptDeltas(ds))
    ensures DeltasStorable(ds)
  {
    hide Within, Items, Keyed, Ordering.Strict, DeltaReads, NoClash, KeptDelta;
    var r := KeptDeltas(ds);
    forall i | 0 <= i < |ds| ensures Capabilities(r)[i] == ds[i].capability { KeptItems(ds[i]); }
    assert Capabilities(r) == Capabilities(ds);
    CapsDistinct(ds);
    forall i | 0 <= i < |ds| ensures ds[i].capability != "" && Items(ds[i]) != [] && NoClash(ItemNames(ds[i])) {
      assert r[i] == KeptDelta(ds[i]);
      NoLoss(idx, base, ds, i);
      assert Capabilities(ds)[i] in Capabilities(r);
      var k, t :| Keyed(idx, base, k, t) && t.capability == ds[i].capability;
      var i', j := WhichItem(idx, base, ds, k, t);
      assert i' == i;
      KeyedCapability(idx, base, k, t);
    }
  }

  lemma KeyedCapability(idx: FactIndex, base: string, k: string, t: Tail)
    requires Keyed(idx, base, k, t)
    ensures t.capability != ""
  {
    hide ParseDeltaTail;
    TailIffKey(k[|base|..], t);
  }

  // ---------------------------------------------------------------------------------------
  // The loops of the code
  // ---------------------------------------------------------------------------------------

  function RidPosition(idx: FactIndex, base: string, cap: string, rid: string): int {
    ItemPosition(idx, ItemPrefix(base, cap, rid))
  }

  ghost predicate Unrepeated(xs: seq<string>) {
    forall i, j | 0 <= i < j < |xs| :: xs[i] != xs[j]
  }

  ghost predicate ByPosition(idx: FactIndex, base: string, cap: string, xs: seq<string>) {
    forall i, j | 0 <= i < j < |xs| :: RidPosition(idx, base, cap, xs[i]) <= RidPosition(idx, base, cap, xs[j])
  }

  /** Placed after everything that is not later: repeated placing is a stable sort. */
  function PlaceRid(idx: FactIndex, base: string, cap: string, rid: string, xs: seq<string>): seq<string> {
    if xs == [] then [rid]
    else
      var last := xs[|xs| - 1];
      if RidPosition(idx, base, cap, last) <= RidPosition(idx, base, cap, rid) then xs + [rid]
      else PlaceRid(idx, base, cap, rid, xs[..|xs| - 1]) + [last]
  }

  lemma {:induction false} PlaceRidOrders(idx: FactIndex, base: string, cap: string, rid: string, xs: seq<string>)
    requires Unrepeated(xs) && ByPosition(idx, base, cap, xs) && rid !in xs
    ensures var out := PlaceRid(idx, base, cap, rid, xs);
            Unrepeated(out) && ByPosition(idx, base, cap, out) && forall x :: x in out <==> x == rid || x in xs
  {
    hide RidPosition;
    if xs != [] {
      var last, init := xs[|xs| - 1], xs[..|xs| - 1];
      assert xs == init + [last];
      if RidPosition(idx, base, cap, rid) < RidPosition(idx, base, cap, last) {
        PlaceRidOrders(idx, base, cap, rid, init);
        LastPlaced(idx, base, cap, rid, last, init, PlaceRid(idx, base, cap, rid, init));
      }
    }
  }

  lemma LastPlaced(idx: FactIndex, base: string, cap: string, rid: string, last: string, init: seq<string>, out: seq<string>)
    requires Unrepeated(out) && ByPosition(idx, base, cap, out) && forall x :: x in out <==> x == rid || x in init
    requires rid != last && last !in init && RidPosition(idx, base, cap, rid) <= RidPosition(idx, base, cap, last)
    requires forall x | x in init :: RidPosition(idx, base, cap, x) <= RidPosition(idx, base, cap, last)
    ensures Unrepeated(out + [last]) && ByPosition(idx, base, cap, out + [last])
  {
    hide RidPosition;
    forall i | 0 <= i < |out| ensures out[i] != last && RidPosition(idx, base, cap, out[i]) <= RidPosition(idx, base, cap, last) {
      assert out[i] in out;
    }
  }

  method SortRids(idx: FactIndex, base: string, cap: string, rids: seq<string>) returns (out: seq<string>)
    requires Unrepeated(rids)
    ensures Unrepeated(out) && ByPosition(idx, base, cap, out) && forall x :: x in out <==> x in rids
  {
    hide RidPosition, PlaceRid;
    out := [];
    var i := 0;
    while i < |rids|
      invariant 0 <= i <= |rids|
      invariant Unrepeated(out) && ByPosition(idx, base, cap, out) && forall x :: x in out <==> x in rids[..i]
    {
      PlaceRidOrders(idx, base, cap, rids[i], out);
      out := PlaceRid(idx, base, cap, rids[i], out);
      assert rids[..i + 1] == rids[..i] + [rids[i]];
      i := i + 1;
    }
    assert rids[..i] == rids;
  }

  /** What the enumeration has found so far. */
  ghost predicate Found(done: FactIndex, base: string, byCap: map<string, seq<string>>) {
    && (forall cap | cap in byCap :: byCap[cap] != [] && Unrepeated(byCap[cap]))
    && (forall cap, rid :: HasRid(done, base, cap, rid) <==> cap in byCap && rid in byCap[cap])
  }

  lemma KeyAdded(done: FactIndex, base: string, k: string, v: Object, cap: string, rid: string)
    ensures HasRid(done[k := v], base, cap, rid) <==>
            || HasRid(done, base, cap, rid)
            || (base <= k && ParseDeltaTail(k[|base|..]).Some? &&
                ParseDeltaTail(k[|base|..]).value.capability == cap && ParseDeltaTail(k[|base|..]).value.rid == rid)
  {
    hide ParseDeltaTail;
    var big := done[k := v];
    if HasRid(done, base, cap, rid) {
      var j, t :| Keyed(done, base, j, t) && t.capability == cap && t.rid == rid;
      assert Keyed(big, base, j, t);
    }
    if base <= k && ParseDeltaTail(k[|base|..]).Some? {
      assert Keyed(big, base, k, ParseDeltaTail(k[|base|..]).value);
    }
    if HasRid(big, base, cap, rid) {
      var j, t :| Keyed(big, base, j, t) && t.capability == cap && t.rid == rid;
      assert j == k || Keyed(done, base, j, t);
    }
  }

  method ReadKey(base: string, k: string, v: Object, byCap: map<string, seq<string>>, ghost done: FactIndex)
    returns (out: map<string, seq<string>>)
    requires Found(done, base, byCap)
    ensures Found(done[k := v], base, out)
  {
    hide ParseDeltaTail, HasRid;
    var t := if base <= k then ParseDeltaTail(k[|base|..]) else None;
    out := byCap;
    if t.Some? {
      var cap, rid := t.value.capability, t.value.rid;
      var rids := if cap in byCap then byCap[cap] else [];
      if rid !in rids {
        var more := rids + [rid];
        assert Unrepeated(more) && forall x :: x in more <==> x == rid || x in rids;
        out := byCap[cap := more];
      }
    }
    ghost var big := done[k := v];
    forall c, r ensures HasRid(big, base, c, r) <==> c in out && r in out[c] {
      KeyAdded(done, base, k, v, c, r);
      assert HasRid(done, base, c, r) <==> c in byCap && r in byCap[c];
    }
    forall c | c in out ensures out[c] != [] && Unrepeated(out[c]) {
      assert c in byCap ==> byCap[c] != [] && Unrepeated(byCap[c]);
    }
    assert Found(big, base, out);
  }

  method FindRids(idx: FactIndex, base: string) returns (byCap: map<string, seq<string>>)
    ensures Found(idx, base, byCap)
  {
    hide HasRid;
    byCap := map[];
    ghost var done: FactIndex := map[];
    var rest := idx.Keys;
    assert Found(done, base, byCap) by { NothingFound(base); }
    while rest != {}
      invariant rest <= idx.Keys && done.Keys == idx.Keys - rest && forall k | k in done :: done[k] == idx[k]
      invariant Found(done, base, byCap)
      decreases |rest|
    {
      var k :| k in rest;
      byCap := ReadKey(base, k, idx[k], byCap, done);
      done := done[k := idx[k]];
      rest := rest - {k};
    }
    assert done == idx;
  }

  lemma NothingFound(base: string)
    ensures Found(map[], base, map[])
  {
  }

  /** Rebuilds one capability's delta from its rids. */
  method DeltaFromRids(idx: FactIndex, base: string, cap: string, rids: seq<string>) returns (d: Delta)
    requires Unrepeated(rids) && forall r :: r in rids <==> HasRid(idx, base, cap, r)
    ensures d.capability == cap && DeltaReads(idx, base, d)
  {
    hide HasRid, Put, ItemAt, ItemPosition, ItemPrefix;
    var sorted := SortRids(idx, base, cap, rids);
    ghost var xs := ItemList(idx, base, cap, sorted);
    d := Delta(cap, "", [], [], [], []);
    var i := 0;
    while i < |sorted|
      invariant 0 <= i <= |sorted| && d == Gather(cap, xs[..i])
    {
      assert xs[..i + 1][..i] == xs[..i];
      d := Put(d, ItemAt(idx, ItemPrefix(base, cap, sorted[i])));
      i := i + 1;
    }
    assert xs[..i] == xs;
    GatherShrinks(cap, xs);
    assert RidsInOrder(idx, base, cap, sorted) by {
      forall i, j | 0 <= i < j < |sorted|
        ensures ItemPosition(idx, ItemPrefix(base, cap, sorted[i])) <= ItemPosition(idx, ItemPrefix(base, cap, sorted[j])) {
        assert RidPosition(idx, base, cap, sorted[i]) <= RidPosition(idx, base, cap, sorted[j]);
      }
    }
  }

  lemma FoundCap(idx: FactIndex, base: string, byCap: map<string, seq<string>>, c: string)
    requires Found(idx, base, byCap)
    ensures HasCap(idx, base, c) <==> c in byCap
  {
    hide Keyed;
    if HasCap(idx, base, c) {
      var k, t :| Keyed(idx, base, k, t) && t.capability == c;
      assert HasRid(idx, base, c, t.rid);
    }
    if c in byCap {
      assert byCap[c][0] in byCap[c];
      assert HasRid(idx, base, c, byCap[c][0]);
    }
  }

  /** Rebuilds all deltas under a prefix. */
  method DeltasFromIndex(idx: FactIndex, base: string) returns (ds: seq<Delta>)
    ensures DeltasRead(idx, base, ds)
  {
    hide HasRid, HasCap, DeltaReads, Ordering.Strict, Ordering.Listing;
    var byCap := FindRids(idx, base);
    var caps := Ordering.SortedList(byCap.Keys);
    ds := [];
    var i := 0;
    while i < |caps|
      invariant 0 <= i <= |caps| && |ds| == i
      invariant forall j | 0 <= j < i :: ds[j].capability == caps[j] && DeltaReads(idx, base, ds[j])
    {
      assert caps[i] in caps;
      var d := DeltaFromRids(idx, base, caps[i], byCap[caps[i]]);
      ds := ds + [d];
      i := i + 1;
    }
    assert Capabilities(ds) == caps;
    forall c ensures c in Capabilities(ds) <==> HasCap(idx, base, c) {
      FoundCap(idx, base, byCap, c);
    }
  }

  lemma ItemAppended(base: string, d: Delta, j: nat)
    requires j < |Items(d)|
    ensures Flatten(ItemEntries(base, d, j + 1)) == Flatten(ItemEntries(base, d, j)) + ItemEntry(base, d, j).facts
  {
    hide ItemEntry, Flatten, Items;
    assert ItemEntries(base, d, j + 1) == ItemEntries(base, d, j) + [ItemEntry(base, d, j)];
    FlattenAppend(ItemEntries(base, d, j), [ItemEntry(base, d, j)]);
    SpecFacts.FlattenOne(ItemEntry(base, d, j));
  }

  /** One more item: mint its rid, then its facts at the next position. */
  method EmitItem(minter: Minter, base: string, d: Delta, x: Item, pos: nat, facts: seq<Fact>) returns (out: seq<Fact>)
    requires pos < |Items(d)| && x == Items(d)[pos] && facts == Flatten(ItemEntries(base, d, pos))
    requires minter.Valid() && minter.names == ItemNames(d)[..pos]
    modifies minter
    ensures minter.Valid() && minter.names == ItemNames(d)[..pos + 1]
    ensures out == Flatten(ItemEntries(base, d, pos + 1))
  {
    hide Items, ItemFacts, Flatten, ItemEntries, Rid;
    ItemAppended(base, d, pos);
    var rid := minter.Mint(x.Name());
    assert minter.names == ItemNames(d)[..pos + 1];
    SpecFacts.RidOfPrefix(ItemNames(d), pos);
    var p := base + d.capability + "." + rid + ".";
    out := facts + ItemFacts(p, x, pos);
  }

  /** Emits the facts of one delta: added, modified, then removed, under one minter and one position count. */
  method FactsFromDelta(base: string, d: Delta) returns (facts: seq<Fact>)
    ensures facts == Flatten(ItemEntries(base, d, |Items(d)|))
  {
    hide Items, ItemEntries, Flatten;
    var minter := new Minter();
    var pos := 0;
    facts := [];
    assert Flatten(ItemEntries(base, d, 0)) == [] by { NoItemEntries(base, d); }
    ItemCount(d);
    for i := 0 to |d.added|
      invariant minter.Valid() && fresh(minter) && pos == i
      invariant minter.names == ItemNames(d)[..pos] && facts == Flatten(ItemEntries(base, d, pos))
    {
      ItemsAt(d, pos);
      facts := EmitItem(minter, base, d, AddItem(d.added[i]), pos, facts);
      pos := pos + 1;
    }
    for i := 0 to |d.modified|
      invariant minter.Valid() && fresh(minter) && pos == |d.added| + i
      invariant minter.names == ItemNames(d)[..pos] && facts == Flatten(ItemEntries(base, d, pos))
    {
      ItemsAt(d, pos);
      facts := EmitItem(minter, base, d, ModifyItem(d.modified[i]), pos, facts);
      pos := pos + 1;
    }
    for i := 0 to |d.removed|
      invariant minter.Valid() && fresh(minter) && pos == |d.added| + |d.modified| + i
      invariant minter.names == ItemNames(d)[..pos] && facts == Flatten(ItemEntries(base, d, pos))
    {
      ItemsAt(d, pos);
      facts := EmitItem(minter, base, d, RemoveItem(d.removed[i]), pos, facts);
      pos := pos + 1;
    }
  }

  lemma NoItemEntries(base: string, d: Delta)
    ensures Flatten(ItemEntries(base, d, 0)) == []
  {
  }

  lemma ItemCount(d: Delta)
    ensures |Items(d)| == |d.added| + |d.modified| + |d.removed|
  {
  }

  /** Emits the facts of all deltas in order. */
  method FactsFromDeltas(base: string, ds: seq<Delta>) returns (facts: seq<Fact>)
    ensures facts == Flatten(DeltaEntries(base, ds))
  {
    hide Items, ItemEntries, Flatten;
    facts := [];
    assert Flatten([]) == [] by { FlattenNone(); }
    for i := 0 to |ds|
      invariant facts == Flatten(DeltaEntries(base, ds[..i]))
    {
      var more := FactsFromDelta(base, ds[i]);
      assert ds[..i + 1][..i] == ds[..i];
      FlattenAppend(DeltaEntries(base, ds[..i]), ItemEntries(base, ds[i], |Items(ds[i])|));
      facts := facts + more;
    }
    assert ds[..|ds|] == ds;
  }

  lemma FlattenNone()
    ensures Flatten([]) == []
  {
  }
}

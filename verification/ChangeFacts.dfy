module ChangeFacts {
  // Changes as facts under "change.<slug>.", and back.

  import opened Text
  import opened OpenSpec
  import opened Numerals
  import opened RequirementIds
  import opened Facts
  import opened ArtifactFacts
  import opened TaskFacts
  import opened DeltaFacts
  import Ordering

  datatype Change = Change(slug: string, proposal: Option<Proposal>, design: Option<Design>, tasks: Option<Tasks>, deltas: seq<Delta>)

  function ChangeBase(slug: string): string {
    "change." + slug + "."
  }

  function Under(base: string, seg: string): string {
    base + seg + "."
  }

  /** A key lies under at most one segment. */
  lemma OneSegment(base: string, a: string, b: string, k: string)
    requires DotFree(a) && DotFree(b) && Under(base, a) <= k && Under(base, b) <= k
    ensures a == b
  {
    var t := k[|base|..];
    assert k == base + t;
    var x, y := k[|Under(base, a)|..], k[|Under(base, b)|..];
    assert k == Under(base, a) + x && k == Under(base, b) + y;
    assert k == base + (a + "." + x) && k == base + (b + "." + y);
    FieldsApart(base, a + "." + x, b + "." + y);
    SegmentParts(a, x, b, y);
  }

  // ---------------------------------------------------------------------------------------
  // The entries of a change
  // ---------------------------------------------------------------------------------------

  function TasksOf(c: Change): seq<Filed> {
    if c.tasks.None? then [] else FlatTasks(c.tasks.value.sections)
  }

  function ProposalPart(c: Change): Entry {
    ProposalEntry(Under(ChangeBase(c.slug), "proposal"), c.proposal)
  }

  function DesignPart(c: Change): Entry {
    DesignEntry(Under(ChangeBase(c.slug), "design"), c.design)
  }

  function TaskPart(c: Change): seq<Entry> {
    TaskEntries(Under(ChangeBase(c.slug), "task"), TasksOf(c), |TasksOf(c)|)
  }

  function DeltaPart(c: Change): seq<Entry> {
    DeltaEntries(Under(ChangeBase(c.slug), "delta"), c.deltas)
  }

  function Entries(c: Change): seq<Entry> {
    [ProposalPart(c), DesignPart(c)] + TaskPart(c) + DeltaPart(c)
  }

  function FactsOf(c: Change): seq<Fact> {
    Flatten(Entries(c))
  }

  lemma SegmentNames()
    ensures DotFree("proposal") && DotFree("design") && DotFree("task") && DotFree("delta")
    ensures "proposal" != "design" && "proposal" != "task" && "proposal" != "delta"
    ensures "design" != "task" && "design" != "delta" && "task" != "delta"
  {
    assert |"proposal"| == 8 && |"design"| == 6 && |"task"| == 4 && |"delta"| == 5;
  }

  ghost predicate OfKind(c: Change, seg: string, e: Entry) {
    || (seg == "proposal" && e == ProposalPart(c))
    || (seg == "design" && e == DesignPart(c))
    || (seg == "task" && e in TaskPart(c))
    || (seg == "delta" && e in DeltaPart(c))
  }

  lemma KindOf(c: Change, e: Entry) returns (seg: string)
    requires e in Entries(c)
    ensures OfKind(c, seg, e)
  {
    hide ProposalPart, DesignPart, TaskPart, DeltaPart;
    seg := if e == ProposalPart(c) then "proposal" else if e == DesignPart(c) then "design"
           else if e in TaskPart(c) then "task" else "delta";
  }

  lemma OneTask(c: Change, e: Entry) returns (i: nat)
    requires e in TaskPart(c)
    ensures i < |TasksOf(c)| && e == TaskEntry(Under(ChangeBase(c.slug), "task"), TasksOf(c), i)
  {
    hide TaskEntry, TasksOf;
    i :| 0 <= i < |TaskPart(c)| && TaskPart(c)[i] == e;
  }

  lemma ItemEntryFits(base: string, d: Delta, j: nat)
    requires j < |Items(d)|
    ensures EntryOk(ItemEntry(base, d, j)) && base <= ItemEntry(base, d, j).prefix
  {
    hide Rid, Items, ItemFacts, EntryOk;
    var p := ItemPrefix(base, d.capability, ItemRid(d, j));
    assert p[|p| - 1] == '.';
    ItemEntryOk(p, Items(d)[j], j);
  }

  lemma BaseDotted(base: string, seg: string)
    ensures Dotted(Under(base, seg)) && base <= Under(base, seg)
  {
  }

  lemma KindFits(c: Change, seg: string, e: Entry)
    requires OfKind(c, seg, e)
    ensures EntryOk(e) && Under(ChangeBase(c.slug), seg) <= e.prefix && ChangeBase(c.slug) <= e.prefix && DotFree(seg)
  {
    hide EntryOk, ProposalEntry, DesignEntry, TaskEntry, ItemEntry, DeltaEntries, Items;
    var base := ChangeBase(c.slug);
    SegmentNames();
    BaseDotted(base, seg);
    if seg == "proposal" {
      ProposalEntryOk(Under(base, seg), c.proposal);
    } else if seg == "design" {
      DesignEntryOk(Under(base, seg), c.design);
    } else if seg == "task" {
      var i := OneTask(c, e);
      TaskEntryOk(Under(base, seg), TasksOf(c), i);
    } else {
      var i, j := ListedEntry(Under(base, seg), c.deltas, e);
      ItemEntryFits(Under(base, seg), c.deltas[i], j);
    }
  }

  lemma EntriesFit(c: Change)
    ensures forall e | e in Entries(c) :: EntryOk(e) && ChangeBase(c.slug) <= e.prefix
  {
    hide Entries, EntryOk, OfKind;
    forall e | e in Entries(c) ensures EntryOk(e) && ChangeBase(c.slug) <= e.prefix {
      var seg := KindOf(c, e);
      KindFits(c, seg, e);
    }
  }

  lemma TaskPrefixesApart(base: string, i: nat, j: nat)
    requires TaskPrefix(base, i) == TaskPrefix(base, j)
    ensures i == j
  {
    hide Itoa;
    assert TaskPrefix(base, i) == base + (Itoa(i) + ".") && TaskPrefix(base, j) == base + (Itoa(j) + ".");
    FieldsApart(base, Itoa(i) + ".", Itoa(j) + ".");
    assert Itoa(i) == (Itoa(i) + ".")[..|Itoa(i)|] && Itoa(j) == (Itoa(j) + ".")[..|Itoa(j)|];
    ItoaInjective(i, j);
  }

  lemma ItemPrefixesApart(base: string, cap: string, rid: string, cap': string, rid': string)
    requires DotFree(rid) && DotFree(rid') && ItemPrefix(base, cap, rid) == ItemPrefix(base, cap', rid')
    ensures cap == cap' && rid == rid'
  {
    var p, q := Under(base, cap), Under(base, cap');
    var k := ItemPrefix(base, cap, rid);
    assert k == p + rid + "." && k == q + rid' + ".";
    assert p + rid == k[..|k| - 1] && q + rid' == k[..|k| - 1];
    KeyParts(p, rid, q, rid');
    assert p == base + (cap + ".") && q == base + (cap' + ".");
    FieldsApart(base, cap + ".", cap' + ".");
    assert cap == (cap + ".")[..|cap|] && cap' == (cap' + ".")[..|cap'|];
  }

  ghost predicate DeltasApart(ds: seq<Delta>) {
    DistinctCaps(ds) && forall i | 0 <= i < |ds| :: NoClash(ItemNames(ds[i]))
  }

  lemma SameItem(base: string, ds: seq<Delta>, i: nat, j: nat, i': nat, j': nat)
    requires DeltasApart(ds) && i < |ds| && j < |Items(ds[i])| && i' < |ds| && j' < |Items(ds[i'])|
    requires ItemEntry(base, ds[i], j).prefix == ItemEntry(base, ds[i'], j').prefix
    ensures i == i' && j == j'
  {
    hide Rid, Items, NoClash, ItemPrefix, ItemFacts;
    RidShape(ItemNames(ds[i]), j);
    RidShape(ItemNames(ds[i']), j');
    ItemPrefixesApart(base, ds[i].capability, ItemRid(ds[i], j), ds[i'].capability, ItemRid(ds[i'], j'));
    assert i == i';
    RidsApartIffNoClash(ItemNames(ds[i]));
  }

  lemma SameKind(c: Change, seg: string, e: Entry, d: Entry)
    requires DeltasApart(c.deltas) && OfKind(c, seg, e) && OfKind(c, seg, d) && e.prefix == d.prefix
    ensures e == d
  {
    hide DeltasApart, ItemEntry, TaskEntry, DeltaEntries, Items, ProposalPart, DesignPart;
    SegmentNames();
    var base := Under(ChangeBase(c.slug), seg);
    if seg == "task" {
      var i := OneTask(c, e);
      var j := OneTask(c, d);
      TaskEntryOk(base, TasksOf(c), i);
      TaskEntryOk(base, TasksOf(c), j);
      TaskPrefixesApart(base, i, j);
    } else if seg == "delta" {
      var i, j := ListedEntry(base, c.deltas, e);
      var i', j' := ListedEntry(base, c.deltas, d);
      SameItem(base, c.deltas, i, j, i', j');
    }
  }

  lemma EntriesAreOk(c: Change)
    requires DeltasApart(c.deltas)
    ensures EntriesOk(Entries(c))
  {
    hide Entries, EntryOk, OfKind, DeltasApart;
    EntriesFit(c);
    forall e, d | e in Entries(c) && d in Entries(c) && e.prefix == d.prefix ensures e == d {
      var s := KindOf(c, e);
      var t := KindOf(c, d);
      KindFits(c, s, e);
      KindFits(c, t, d);
      OneSegment(ChangeBase(c.slug), s, t, e.prefix);
      SameKind(c, s, e, d);
    }
  }

  // ---------------------------------------------------------------------------------------
  // What the index of the facts holds
  // ---------------------------------------------------------------------------------------

  lemma OwnerOf(c: Change, facts: seq<Fact>, seg: string, k: string) returns (e: Entry)
    requires Embeds(facts, ChangeBase(c.slug), Entries(c)) && k in Index(facts)
    requires DotFree(seg) && Under(ChangeBase(c.slug), seg) <= k
    ensures OfKind(c, seg, e) && e.prefix <= k && DotFree(k[|e.prefix|..]) && Fact(k, Index(facts)[k]) in e.facts
  {
    hide Entries, EntryOk, OfKind, Index;
    EntriesFit(c);
    BaseDotted(ChangeBase(c.slug), seg);
    e := KeyHasEntry(facts, ChangeBase(c.slug), Entries(c), k);
    var s := KindOf(c, e);
    KindFits(c, s, e);
    OneSegment(ChangeBase(c.slug), s, seg, k);
  }

  lemma DeltasWithin(c: Change, facts: seq<Fact>)
    requires Embeds(facts, ChangeBase(c.slug), Entries(c))
    ensures Within(Index(facts), Under(ChangeBase(c.slug), "delta"), c.deltas)
  {
    hide Entries, Index, Items, ItemFacts, Embeds, Rid, ItemPrefix, DeltaEntries;
    SegmentNames();
    var idx, b := Index(facts), Under(ChangeBase(c.slug), "delta");
    forall k | k in idx && b <= k ensures exists i, j :: InItem(b, c.deltas, i, j, k) {
      var e := OwnerOf(c, facts, "delta", k);
      var i, j := ListedEntry(b, c.deltas, e);
      ItemKeyed(e.prefix, Items(c.deltas[i])[j], j, Fact(k, idx[k]));
      assert InItem(b, c.deltas, i, j, k);
    }
  }

  lemma TasksHeld(c: Change, facts: seq<Fact>)
    requires Embeds(facts, ChangeBase(c.slug), Entries(c)) && DeltasApart(c.deltas)
    ensures Holds(Index(facts), Under(ChangeBase(c.slug), "task"), TasksOf(c))
  {
    hide Index, Embeds, TaskEntry, DeltasApart, Shows, TaskPrefix, EntriesOk, TasksOf, Entries, FiledAt, NumberOf;
    SegmentNames();
    EntriesAreOk(c);
    var idx, b, xs := Index(facts), Under(ChangeBase(c.slug), "task"), TasksOf(c);
    forall i | 0 <= i < |xs| ensures FiledAt(idx, TaskPrefix(b, i)) == xs[i] && TaskPrefix(b, i) + "done" in idx {
      TaskListed(c, i);
      TaskEntryOk(b, xs, i);
      KindFits(c, "task", TaskEntry(b, xs, i));
      EntriesShow(facts, ChangeBase(c.slug), Entries(c), TaskEntry(b, xs, i));
      TaskShows(idx, b, xs, i);
    }
    forall n | n in Indices(idx, b) ensures 0 <= n < |xs| {
      var k :| k in idx && b <= k && NumberOf(k[|b|..]) == Some(n);
      var e := OwnerOf(c, facts, "task", k);
      var i := OneTask(c, e);
      TaskEntryOk(b, xs, i);
      NumberReads(b, i, k[|TaskPrefix(b, i)|..]);
      assert TaskPrefix(b, i) + k[|TaskPrefix(b, i)|..] == k;
    }
  }

  lemma TaskListed(c: Change, i: nat)
    requires i < |TasksOf(c)|
    ensures var e := TaskEntry(Under(ChangeBase(c.slug), "task"), TasksOf(c), i);
            e in TaskPart(c) && e in Entries(c) && OfKind(c, "task", e)
  {
    hide TasksOf, TaskEntry, DeltaPart, ProposalPart, DesignPart;
    assert TaskPart(c)[i] == TaskEntry(Under(ChangeBase(c.slug), "task"), TasksOf(c), i);
  }

  lemma DeltasShown(c: Change, facts: seq<Fact>)
    requires Embeds(facts, ChangeBase(c.slug), Entries(c)) && DeltasApart(c.deltas)
    ensures AllShown(Index(facts), Under(ChangeBase(c.slug), "delta"), c.deltas)
  {
    hide Index, Embeds, ItemEntry, DeltasApart, Shows, EntriesOk, Entries, Items;
    EntriesAreOk(c);
    var idx, b, ds := Index(facts), Under(ChangeBase(c.slug), "delta"), c.deltas;
    forall i, j | 0 <= i < |ds| && 0 <= j < |Items(ds[i])| ensures Shows(idx, ItemEntry(b, ds[i], j)) {
      ItemListed(c, i, j);
      KindFits(c, "delta", ItemEntry(b, ds[i], j));
      EntriesShow(facts, ChangeBase(c.slug), Entries(c), ItemEntry(b, ds[i], j));
    }
  }

  lemma ItemListed(c: Change, i: nat, j: nat)
    requires i < |c.deltas| && j < |Items(c.deltas[i])|
    ensures var e := ItemEntry(Under(ChangeBase(c.slug), "delta"), c.deltas[i], j);
            e in DeltaPart(c) && e in Entries(c) && OfKind(c, "delta", e)
  {
    hide ItemEntry, Items, DeltaEntries, TaskPart, ProposalPart, DesignPart;
    EntryIsListed(Under(ChangeBase(c.slug), "delta"), c.deltas, i, j);
  }

  lemma HeadListed(c: Change)
    ensures ProposalPart(c) in Entries(c) && DesignPart(c) in Entries(c)
  {
    hide ProposalPart, DesignPart, TaskPart, DeltaPart;
    assert Entries(c)[0] == ProposalPart(c) && Entries(c)[1] == DesignPart(c);
  }

  lemma HeadShown(c: Change, facts: seq<Fact>)
    requires Embeds(facts, ChangeBase(c.slug), Entries(c)) && DeltasApart(c.deltas)
    ensures ProposalAt(Index(facts), Under(ChangeBase(c.slug), "proposal")) == KeptProposal(c.proposal)
    ensures DesignAt(Index(facts), Under(ChangeBase(c.slug), "design")) == KeptDesign(c.design)
  {
    hide Index, Embeds, DeltasApart, Shows, EntriesOk, Entries, ProposalEntry, DesignEntry, ProposalAt, DesignAt, EntryOk;
    EntriesAreOk(c);
    HeadListed(c);
    EntriesFit(c);
    EntriesShow(facts, ChangeBase(c.slug), Entries(c), ProposalPart(c));
    EntriesShow(facts, ChangeBase(c.slug), Entries(c), DesignPart(c));
    ProposalShows(Index(facts), Under(ChangeBase(c.slug), "proposal"), c.proposal);
    DesignShows(Index(facts), Under(ChangeBase(c.slug), "design"), c.design);
  }

  // ---------------------------------------------------------------------------------------
  // The round trip
  // ---------------------------------------------------------------------------------------

  /** What the reader may return for `slug`, whatever order the index is enumerated in. */
  ghost predicate ChangeReads(idx: FactIndex, slug: string, r: Change) {
    var base := ChangeBase(slug);
    && r.slug == slug
    && r.proposal == ProposalAt(idx, Under(base, "proposal"))
    && r.design == DesignAt(idx, Under(base, "design"))
    && TasksRead(idx, Under(base, "task"), r.tasks)
    && DeltasRead(idx, Under(base, "delta"), r.deltas)
  }

  /** A change without what facts never carry: titles, unmodeled sections and warnings. */
  function Modeled(c: Change): Change {
    Change(c.slug,
           if c.proposal.None? then None else Some(c.proposal.value.(title := "", extras := [])),
           if c.design.None? then None else Some(c.design.value.(title := "", extras := [])),
           if c.tasks.None? then None else Some(Tasks("", c.tasks.value.sections)),
           KeptDeltas(c.deltas))
  }

  ghost predicate TasksStorable(t: Option<Tasks>) {
    t.Some? ==> t.value.sections != [] && Groups(t.value.sections)
  }

  /**
  The changes that facts can carry: present artifacts have content, section names are distinct and sections non-empty,
  deltas are non-empty, named and strictly sorted by capability, and the rids minted in a delta do not clash.
  */
  ghost predicate Storable(c: Change) {
    && (c.proposal.Some? ==> ProposalPresent(c.proposal.value))
    && (c.design.Some? ==> DesignPresent(c.design.value))
    && TasksStorable(c.tasks)
    && DeltasStorable(c.deltas)
  }

  lemma StorableApart(ds: seq<Delta>)
    requires DeltasStorable(ds)
    ensures DeltasApart(ds)
  {
    hide NoClash, Items, Ordering.Strict;
    CapsDistinct(ds);
  }

  lemma TasksIff(c: Change)
    ensures Regrouped(TasksOf(c)) == Modeled(c).tasks <==> TasksStorable(c.tasks)
  {
    hide Groups, Regroup, KeptDeltas;
    if c.tasks.Some? {
      var ss := c.tasks.value.sections;
      RegroupIffGroups(ss);
      FlatNothing(ss);
    }
  }

  lemma FlatNothing(ss: seq<TaskSection>)
    ensures ss != [] && Groups(ss) ==> FlatTasks(ss) != []
    ensures ss == [] ==> FlatTasks(ss) == []
  {
  }

  /** The facts of a change, alone in its subtree, read back as that change exactly when the change is storable. */
  lemma EmbeddedIffStorable(c: Change, facts: seq<Fact>, r: Change)
    requires Embeds(facts, ChangeBase(c.slug), Entries(c)) && ChangeReads(Index(facts), c.slug, r)
    ensures r == Modeled(c) <==> Storable(c)
  {
    hide Index, Embeds, Entries, ProposalAt, DesignAt, TasksRead, DeltasRead, TasksStorable, DeltasStorable, TasksOf, KeptDeltas;
    var base := ChangeBase(c.slug);
    DeltasWithin(c, facts);
    if r == Modeled(c) {
      OnlyStorable(Index(facts), Under(base, "delta"), c.deltas);
    }
    if DeltasStorable(c.deltas) {
      StorableApart(c.deltas);
      HeadShown(c, facts);
      TasksHeld(c, facts);
      TasksReadBack(Index(facts), Under(base, "task"), TasksOf(c), r.tasks);
      TasksIff(c);
      DeltasShown(c, facts);
      DeltasReadBack(Index(facts), Under(base, "delta"), c.deltas, r.deltas);
    }
  }

  // ---------------------------------------------------------------------------------------
  // Facts that other writers stamp inside the subtree
  // ---------------------------------------------------------------------------------------

  const PROPOSAL_FIELDS := ["intent", "scope_in", "scope_out", "approach"]
  const DESIGN_FIELDS := ["technical_approach", "decisions", "data_flow", "file_changes"]
  const TASK_FIELDS := ["number", "text", "done", "section"]
  const ITEM_FIELDS := ["op", "name", "statement", "scenarios", "position", "previously", "rationale"]

  /** A key of the proposal or the design that the reader looks up. */
  ghost predicate HeadKey(base: string, k: string) {
    || (exists f :: f in PROPOSAL_FIELDS && k == Under(base, "proposal") + f)
    || (exists f :: f in DESIGN_FIELDS && k == Under(base, "design") + f)
  }

  /** A key that the reader may look up for a task. */
  ghost predicate TaskKey(b: string, k: string) {
    exists n, f :: f in TASK_FIELDS && k == TaskPrefix(b, n) + f
  }

  /** A key below the tasks that the reader passes over: not looked up, and naming at most a task that is stored. */
  ghost predicate TaskIgnorable(keys: set<string>, b: string, k: string) {
    && !TaskKey(b, k)
    && (b <= k && NumberOf(k[|b|..]).Some? ==>
          NumberOf(k[|b|..]).value >= 0 && TaskPrefix(b, NumberOf(k[|b|..]).value) + "done" in keys)
  }

  /** A key below the deltas that the reader passes over: an unknown field, of a requirement change that is stored. */
  ghost predicate ItemIgnorable(keys: set<string>, b: string, k: string) {
    b <= k && ParseDeltaTail(k[|b|..]).Some? ==>
      var t := ParseDeltaTail(k[|b|..]).value;
      t.field !in ITEM_FIELDS && ItemPrefix(b, t.capability, t.rid) + "position" in keys
  }

  /** A key that the reader of a slug passes over. */
  ghost predicate Ignorable(keys: set<string>, slug: string, k: string) {
    var base := ChangeBase(slug);
    k !in keys && !HeadKey(base, k) && TaskIgnorable(keys, Under(base, "task"), k) && ItemIgnorable(keys, Under(base, "delta"), k)
  }

  ghost predicate OnlyIgnorable(small: FactIndex, big: FactIndex, slug: string) {
    Grows(small, big) && forall k | k in big :: k in small || Ignorable(small.Keys, slug, k)
  }

  /** The two indices agree on a key. */
  ghost predicate Agree(small: FactIndex, big: FactIndex, k: string) {
    (k in big <==> k in small) && (k in big ==> big[k] == small[k])
  }

  lemma HeadAgrees(small: FactIndex, big: FactIndex, slug: string, k: string)
    requires OnlyIgnorable(small, big, slug) && HeadKey(ChangeBase(slug), k)
    ensures Agree(small, big, k)
  {
    hide HeadKey, TaskIgnorable, ItemIgnorable;
  }

  lemma ProposalAlike(small: FactIndex, big: FactIndex, slug: string)
    requires OnlyIgnorable(small, big, slug)
    ensures var p := Under(ChangeBase(slug), "proposal"); ProposalAt(big, p) == ProposalAt(small, p)
  {
    hide OnlyIgnorable, HeadKey;
    var p := Under(ChangeBase(slug), "proposal");
    forall f | f in PROPOSAL_FIELDS ensures Agree(small, big, p + f) {
      ProposalKey(ChangeBase(slug), f);
      HeadAgrees(small, big, slug, p + f);
    }
    assert "intent" in PROPOSAL_FIELDS && "scope_in" in PROPOSAL_FIELDS && "scope_out" in PROPOSAL_FIELDS && "approach" in PROPOSAL_FIELDS;
  }

  lemma ProposalKey(base: string, f: string)
    requires f in PROPOSAL_FIELDS
    ensures HeadKey(base, Under(base, "proposal") + f)
  {
  }

  lemma DesignAlike(small: FactIndex, big: FactIndex, slug: string)
    requires OnlyIgnorable(small, big, slug)
    ensures var p := Under(ChangeBase(slug), "design"); DesignAt(big, p) == DesignAt(small, p)
  {
    hide OnlyIgnorable, HeadKey;
    var p := Under(ChangeBase(slug), "design");
    forall f | f in DESIGN_FIELDS ensures Agree(small, big, p + f) {
      DesignKey(ChangeBase(slug), f);
      HeadAgrees(small, big, slug, p + f);
    }
    assert "technical_approach" in DESIGN_FIELDS && "decisions" in DESIGN_FIELDS && "data_flow" in DESIGN_FIELDS && "file_changes" in DESIGN_FIELDS;
  }

  lemma DesignKey(base: string, f: string)
    requires f in DESIGN_FIELDS
    ensures HeadKey(base, Under(base, "design") + f)
  {
  }

  lemma TaskAgrees(small: FactIndex, big: FactIndex, slug: string, n: int, f: string)
    requires OnlyIgnorable(small, big, slug) && f in TASK_FIELDS
    ensures Agree(small, big, TaskPrefix(Under(ChangeBase(slug), "task"), n) + f)
  {
    hide HeadKey, ItemIgnorable, NumberOf, TaskPrefix;
    assert TaskKey(Under(ChangeBase(slug), "task"), TaskPrefix(Under(ChangeBase(slug), "task"), n) + f);
  }

  lemma TaskAlike(small: FactIndex, big: FactIndex, slug: string, n: int)
    requires OnlyIgnorable(small, big, slug)
    ensures var p := TaskPrefix(Under(ChangeBase(slug), "task"), n); FiledAt(big, p) == FiledAt(small, p)
  {
    hide OnlyIgnorable, TaskPrefix;
    assert "number" in TASK_FIELDS && "text" in TASK_FIELDS && "done" in TASK_FIELDS && "section" in TASK_FIELDS;
    TaskAgrees(small, big, slug, n, "number");
    TaskAgrees(small, big, slug, n, "text");
    TaskAgrees(small, big, slug, n, "done");
    TaskAgrees(small, big, slug, n, "section");
  }

  lemma IndicesAlike(small: FactIndex, big: FactIndex, slug: string)
    requires OnlyIgnorable(small, big, slug)
    ensures var b := Under(ChangeBase(slug), "task"); Indices(big, b) == Indices(small, b)
  {
    hide HeadKey, ItemIgnorable, NumberOf, TaskPrefix, TaskKey;
    var b := Under(ChangeBase(slug), "task");
    forall n | n in Indices(small, b) ensures n in Indices(big, b) {
      var k :| k in small && b <= k && NumberOf(k[|b|..]) == Some(n);
      assert k in big;
    }
    forall n | n in Indices(big, b) ensures n in Indices(small, b) {
      var k :| k in big && b <= k && NumberOf(k[|b|..]) == Some(n);
      if k !in small {
        NumberReads(b, n, "done");
      }
    }
  }

  lemma TasksAlike(small: FactIndex, big: FactIndex, slug: string, t: Option<Tasks>)
    requires OnlyIgnorable(small, big, slug)
    ensures var b := Under(ChangeBase(slug), "task"); TasksRead(big, b, t) <==> TasksRead(small, b, t)
  {
    hide OnlyIgnorable, TaskPrefix, FiledAt, Indices, Regrouped;
    var b := Under(ChangeBase(slug), "task");
    IndicesAlike(small, big, slug);
    forall ns: seq<int> ensures FiledList(big, b, ns) == FiledList(small, b, ns) {
      forall i | 0 <= i < |ns| ensures FiledList(big, b, ns)[i] == FiledList(small, b, ns)[i] {
        TaskAlike(small, big, slug, ns[i]);
      }
    }
    forall ns ensures Numbers(big, b, ns) <==> Numbers(small, b, ns) {}
  }

  /** A key of a stored field of a requirement change. */
  lemma ItemAgrees(small: FactIndex, big: FactIndex, slug: string, cap: string, rid: string, f: string)
    requires OnlyIgnorable(small, big, slug) && f in ITEM_FIELDS && cap != "" && rid != "" && DotFree(rid)
    ensures Agree(small, big, ItemPrefix(Under(ChangeBase(slug), "delta"), cap, rid) + f)
  {
    hide HeadKey, TaskIgnorable, ParseDeltaTail, ItemPrefix;
    var b := Under(ChangeBase(slug), "delta");
    ItemFieldShape(f);
    ItemKeyReads(b, cap, rid, f, ItemPrefix(b, cap, rid) + f);
  }

  lemma ItemFieldShape(f: string)
    requires f in ITEM_FIELDS
    ensures f != "" && DotFree(f)
  {
    FieldNames();
    ItemFieldNames();
    assert |"op"| == 2 && |"name"| == 4 && |"statement"| == 9 && |"scenarios"| == 9 && |"position"| == 8 && |"previously"| == 10 && |"rationale"| == 9;
  }

  lemma ItemAlike(small: FactIndex, big: FactIndex, slug: string, cap: string, rid: string)
    requires OnlyIgnorable(small, big, slug) && cap != "" && rid != "" && DotFree(rid)
    ensures var p := ItemPrefix(Under(ChangeBase(slug), "delta"), cap, rid);
            ItemAt(big, p) == ItemAt(small, p) && ItemPosition(big, p) == ItemPosition(small, p)
  {
    hide OnlyIgnorable, ItemPrefix, DotFree;
    var p := ItemPrefix(Under(ChangeBase(slug), "delta"), cap, rid);
    forall f | f in ITEM_FIELDS ensures Agree(small, big, p + f) {
      ItemAgrees(small, big, slug, cap, rid, f);
    }
    AllItemFields();
  }

  lemma AllItemFields()
    ensures "op" in ITEM_FIELDS && "name" in ITEM_FIELDS && "statement" in ITEM_FIELDS && "scenarios" in ITEM_FIELDS
    ensures "position" in ITEM_FIELDS && "previously" in ITEM_FIELDS && "rationale" in ITEM_FIELDS
  {
  }

  lemma RidsAlike(small: FactIndex, big: FactIndex, slug: string, cap: string, rid: string)
    requires OnlyIgnorable(small, big, slug)
    ensures var b := Under(ChangeBase(slug), "delta"); HasRid(big, b, cap, rid) <==> HasRid(small, b, cap, rid)
    ensures HasRid(big, Under(ChangeBase(slug), "delta"), cap, rid) ==> cap != "" && rid != "" && DotFree(rid)
  {
    hide HeadKey, TaskIgnorable, ParseDeltaTail, ItemPrefix;
    var b := Under(ChangeBase(slug), "delta");
    if HasRid(small, b, cap, rid) {
      var k, t :| Keyed(small, b, k, t) && t.capability == cap && t.rid == rid;
      assert Keyed(big, b, k, t);
    }
    if HasRid(big, b, cap, rid) {
      var k, t :| Keyed(big, b, k, t) && t.capability == cap && t.rid == rid;
      TailIffKey(k[|b|..], t);
      if k in small {
        assert Keyed(small, b, k, t);
      } else {
        var j := ItemPrefix(b, cap, rid) + "position";
        FieldNames();
        ItemKeyReads(b, cap, rid, "position", j);
        assert Keyed(small, b, j, Tail(cap, rid, "position"));
      }
    }
  }

  lemma CapsAlike(small: FactIndex, big: FactIndex, slug: string, cap: string)
    requires OnlyIgnorable(small, big, slug)
    ensures var b := Under(ChangeBase(slug), "delta"); HasCap(big, b, cap) <==> HasCap(small, b, cap)
  {
    hide OnlyIgnorable, Keyed;
    var b := Under(ChangeBase(slug), "delta");
    CapHasRid(big, b, cap);
    CapHasRid(small, b, cap);
    forall rid ensures HasRid(big, b, cap, rid) <==> HasRid(small, b, cap, rid) { RidsAlike(small, big, slug, cap, rid); }
  }

  lemma CapHasRid(idx: FactIndex, b: string, cap: string)
    ensures HasCap(idx, b, cap) <==> exists rid :: HasRid(idx, b, cap, rid)
  {
    hide Keyed;
    if HasCap(idx, b, cap) {
      var k, t :| Keyed(idx, b, k, t) && t.capability == cap;
      assert HasRid(idx, b, cap, t.rid);
    }
  }

  lemma OrderAlike(small: FactIndex, big: FactIndex, slug: string, cap: string, rids: seq<string>)
    requires OnlyIgnorable(small, big, slug)
    ensures var b := Under(ChangeBase(slug), "delta");
            && (RidsInOrder(big, b, cap, rids) <==> RidsInOrder(small, b, cap, rids))
            && (RidsInOrder(small, b, cap, rids) ==> ItemList(big, b, cap, rids) == ItemList(small, b, cap, rids))
  {
    hide OnlyIgnorable, HasRid, ItemPrefix, ItemPosition, ItemAt, DotFree;
    var b := Under(ChangeBase(slug), "delta");
    forall rid ensures HasRid(big, b, cap, rid) <==> HasRid(small, b, cap, rid) { RidsAlike(small, big, slug, cap, rid); }
    if forall rid :: rid in rids <==> HasRid(small, b, cap, rid) {
      forall i | 0 <= i < |rids|
        ensures && ItemPosition(big, ItemPrefix(b, cap, rids[i])) == ItemPosition(small, ItemPrefix(b, cap, rids[i]))
                && ItemAt(big, ItemPrefix(b, cap, rids[i])) == ItemAt(small, ItemPrefix(b, cap, rids[i]))
      {
        assert rids[i] in rids;
        RidsAlike(small, big, slug, cap, rids[i]);
        ItemAlike(small, big, slug, cap, rids[i]);
      }
      assert ItemList(big, b, cap, rids) == ItemList(small, b, cap, rids);
    }
  }

  lemma DeltaAlike(small: FactIndex, big: FactIndex, slug: string, d: Delta)
    requires OnlyIgnorable(small, big, slug)
    ensures var b := Under(ChangeBase(slug), "delta"); DeltaReads(big, b, d) <==> DeltaReads(small, b, d)
  {
    hide OnlyIgnorable, RidsInOrder, ItemList, Gather;
    var b := Under(ChangeBase(slug), "delta");
    forall rids ensures && (RidsInOrder(big, b, d.capability, rids) <==> RidsInOrder(small, b, d.capability, rids))
                        && (RidsInOrder(small, b, d.capability, rids) ==>
                              ItemList(big, b, d.capability, rids) == ItemList(small, b, d.capability, rids)) {
      OrderAlike(small, big, slug, d.capability, rids);
    }
  }

  lemma DeltasAlike(small: FactIndex, big: FactIndex, slug: string, ds: seq<Delta>)
    requires OnlyIgnorable(small, big, slug)
    ensures var b := Under(ChangeBase(slug), "delta"); DeltasRead(big, b, ds) <==> DeltasRead(small, b, ds)
  {
    hide OnlyIgnorable, HasCap, DeltaReads, Ordering.Strict;
    var b := Under(ChangeBase(slug), "delta");
    forall c ensures HasCap(big, b, c) <==> HasCap(small, b, c) { CapsAlike(small, big, slug, c); }
    forall i | 0 <= i < |ds| ensures DeltaReads(big, b, ds[i]) <==> DeltaReads(small, b, ds[i]) { DeltaAlike(small, big, slug, ds[i]); }
  }

  /** The reader returns the same with and without facts that it passes over. */
  lemma ReadsAlike(small: FactIndex, big: FactIndex, slug: string, r: Change)
    requires OnlyIgnorable(small, big, slug)
    ensures ChangeReads(big, slug, r) <==> ChangeReads(small, slug, r)
  {
    hide OnlyIgnorable, ProposalAt, DesignAt, TasksRead, DeltasRead;
    ProposalAlike(small, big, slug);
    DesignAlike(small, big, slug);
    TasksAlike(small, big, slug, r.tasks);
    DeltasAlike(small, big, slug, r.deltas);
  }

  /** `facts` holds the facts of the change, and otherwise only what its reader passes over. */
  ghost predicate Carries(facts: seq<Fact>, c: Change) {
    && (forall f | f in FactsOf(c) :: f in facts)
    && (forall f | f in facts :: f in FactsOf(c) || Ignorable(KeysOf(FactsOf(c)), c.slug, f.key))
  }

  lemma TaskFactKey(b: string, xs: seq<Filed>, i: nat, f: Fact)
    requires i < |xs| && f in TaskEntry(b, xs, i).facts
    ensures TaskKey(b, f.key)
  {
    hide TaskPrefix, Four;
    var p, t := TaskPrefix(b, i), xs[i].task;
    FourMembers(p, "number", OfText(t.number), "text", OfText(t.text), "done", Some(Flag(t.done)), "section", OfText(xs[i].section));
    assert "number" in TASK_FIELDS && "text" in TASK_FIELDS && "done" in TASK_FIELDS && "section" in TASK_FIELDS;
  }

  lemma OwnFactsEmbed(c: Change, facts: seq<Fact>)
    requires forall f | f in FactsOf(c) :: f in facts
    ensures Embeds(OwnFacts(facts, FactsOf(c)), ChangeBase(c.slug), Entries(c))
  {
    hide OwnFacts, FactsOf;
    var own := FactsOf(c);
    forall f ensures f in OwnFacts(facts, own) <==> f in own { InOwn(facts, own, f); }
    FactsEmbed(c, OwnFacts(facts, own));
  }

  /**
  The facts of a change, mixed in any order with facts that its reader passes over, read back as that change (titles,
  unmodeled sections and warnings aside) exactly when the change is storable.
  */
  lemma ChangeFactsRoundTripIffStorable(c: Change, facts: seq<Fact>, r: Change)
    requires Carries(facts, c) && ChangeReads(Index(facts), c.slug, r)
    ensures r == Modeled(c) <==> Storable(c)
  {
    hide Index, FactsOf, Storable, Modeled, ChangeReads, OwnFacts, HeadKey, TaskIgnorable, ItemIgnorable, Embeds;
    var own := FactsOf(c);
    forall f, g | f in facts && g in own && f.key == g.key ensures f in own {
      assert g.key in KeysOf(own);
    }
    OwnIndex(facts, own);
    var small, big := Index(OwnFacts(facts, own)), Index(facts);
    forall k | k in big ensures k in small || Ignorable(small.Keys, c.slug, k) {
      if k !in small { var f :| f in facts && f !in own && f.key == k; }
    }
    ReadsAlike(small, big, c.slug, r);
    OwnFactsEmbed(c, facts);
    EmbeddedIffStorable(c, OwnFacts(facts, own), r);
  }

  // ---------------------------------------------------------------------------------------
  // What the reader passes over
  // ---------------------------------------------------------------------------------------

  lemma OwnKey(c: Change, k: string) returns (seg: string, e: Entry, f: Fact)
    requires k in KeysOf(FactsOf(c))
    ensures OfKind(c, seg, e) && f in e.facts && f.key == k && DotFree(seg) && Under(ChangeBase(c.slug), seg) <= k
  {
    hide Flatten, Entries, OfKind, EntryOk;
    f :| f in FactsOf(c) && f.key == k;
    InFlatten(Entries(c), f);
    e :| e in Entries(c) && f in e.facts;
    seg := KindOf(c, e);
    KindFits(c, seg, e);
    assert KeyedBy(f, e.prefix) by { EntryKeyed(e, f); }
  }

  lemma OutsideIsIgnorable(c: Change, k: string)
    requires !(ChangeBase(c.slug) <= k)
    ensures Ignorable(KeysOf(FactsOf(c)), c.slug, k)
  {
    hide FactsOf, NumberOf, ParseDeltaTail, TaskPrefix;
    var base := ChangeBase(c.slug);
    if k in KeysOf(FactsOf(c)) {
      var seg, e, f := OwnKey(c, k);
      BaseDotted(base, seg);
    }
    NotBelow(base, k);
  }

  lemma NotBelow(base: string, k: string)
    requires !(base <= k)
    ensures forall seg, x :: k != Under(base, seg) + x
    ensures forall seg :: !(Under(base, seg) <= k)
    ensures forall seg, n, f :: k != TaskPrefix(Under(base, seg), n) + f
  {
    hide Decimal;
    forall seg, x ensures base <= Under(base, seg) + x {}
    forall seg, n, f ensures base <= TaskPrefix(Under(base, seg), n) + f {}
  }

  /** A field directly below the change, such as its status, is passed over. */
  lemma PlainFieldIsIgnorable(c: Change, f: string)
    requires DotFree(f)
    ensures Ignorable(KeysOf(FactsOf(c)), c.slug, ChangeBase(c.slug) + f)
  {
    hide FactsOf, NumberOf, ParseDeltaTail, TaskPrefix, DotFree;
    var base, k := ChangeBase(c.slug), ChangeBase(c.slug) + f;
    forall seg ensures !(Under(base, seg) <= k) { NoSegment(base, f, seg); }
    if k in KeysOf(FactsOf(c)) {
      var seg, e, g := OwnKey(c, k);
    }
    forall seg, x ensures k != Under(base, seg) + x { assert Under(base, seg) <= Under(base, seg) + x; }
    forall n, g ensures k != TaskPrefix(Under(base, "task"), n) + g { TaskBelow(Under(base, "task"), n, g); }
  }

  lemma NoSegment(base: string, f: string, seg: string)
    requires DotFree(f)
    ensures !(Under(base, seg) <= base + f)
  {
    assert Under(base, seg)[|base| + |seg|] == '.';
    assert |seg| < |f| ==> (base + f)[|base| + |seg|] == f[|seg|];
  }

  lemma TaskBelow(b: string, n: int, f: string)
    ensures b <= TaskPrefix(b, n) + f
  {
    hide Decimal;
  }

  /** A further field of a stored task, such as its goal, is passed over. */
  lemma TaskFieldIsIgnorable(c: Change, i: nat, f: string)
    requires i < |TasksOf(c)| && DotFree(f) && f !in TASK_FIELDS
    ensures Ignorable(KeysOf(FactsOf(c)), c.slug, TaskPrefix(Under(ChangeBase(c.slug), "task"), i) + f)
  {
    hide FactsOf, NumberOf, ParseDeltaTail, TaskPrefix, DotFree, TasksOf, TaskEntry, TaskKey;
    var base := ChangeBase(c.slug);
    var b := Under(base, "task");
    var k := TaskPrefix(b, i) + f;
    TaskBelow(b, i, f);
    SegmentNames();
    NumberReads(b, i, f);
    DoneStored(c, i);
    assert !TaskKey(b, k) by { OtherField(b, i, f); }
    if k in KeysOf(FactsOf(c)) {
      var seg, e, g := OwnKey(c, k);
      OneSegment(base, seg, "task", k);
      var j := OneTask(c, e);
      TaskFactKey(b, TasksOf(c), j, g);
    }
    OnlyTask(base, k);
  }

  lemma OnlyTask(base: string, k: string)
    requires Under(base, "task") <= k
    ensures !HeadKey(base, k) && !(Under(base, "delta") <= k)
  {
    hide Under;
    SegmentNames();
    forall seg | DotFree(seg) && Under(base, seg) <= k ensures seg == "task" { OneSegment(base, seg, "task", k); }
    forall f ensures k != Under(base, "proposal") + f && k != Under(base, "design") + f {
      assert Under(base, "proposal") <= Under(base, "proposal") + f && Under(base, "design") <= Under(base, "design") + f;
    }
  }

  lemma OtherField(b: string, i: nat, f: string)
    requires DotFree(f) && f !in TASK_FIELDS
    ensures !TaskKey(b, TaskPrefix(b, i) + f)
  {
    hide Decimal, DotFree;
    forall n, g | g in TASK_FIELDS ensures TaskPrefix(b, i) + f != TaskPrefix(b, n) + g {
      TaskFieldShape(g);
      if TaskPrefix(b, i) + f == TaskPrefix(b, n) + g {
        KeyParts(TaskPrefix(b, i), f, TaskPrefix(b, n), g);
      }
    }
  }

  lemma TaskFieldShape(g: string)
    requires g in TASK_FIELDS
    ensures DotFree(g)
  {
    TaskNames();
  }

  lemma DoneStored(c: Change, i: nat)
    requires i < |TasksOf(c)|
    ensures TaskPrefix(Under(ChangeBase(c.slug), "task"), i) + "done" in KeysOf(FactsOf(c))
  {
    hide Flatten, Entries, TaskPrefix, TasksOf, Four;
    var b, xs := Under(ChangeBase(c.slug), "task"), TasksOf(c);
    var p, t := TaskPrefix(b, i), xs[i].task;
    FourMembers(p, "number", OfText(t.number), "text", OfText(t.text), "done", Some(Flag(t.done)), "section", OfText(xs[i].section));
    TaskListed(c, i);
    InFlatten(Entries(c), Fact(p + "done", Flag(t.done)));
  }

  /** What the change writer adds: fields of the change and fields of its tasks. */
  const CHANGE_STAMPS := ["status", "generated_at", "acceptance_command"]
  const TASK_STAMPS := ["goal", "target_files", "test_command", "assumptions", "non_goals", "expected_outcome", "requirement_ref"]

  ghost predicate Stamped(c: Change, k: string) {
    || (exists f :: f in CHANGE_STAMPS && k == ChangeBase(c.slug) + f)
    || (exists i, f :: 0 <= i < |TasksOf(c)| && f in TASK_STAMPS && k == TaskPrefix(Under(ChangeBase(c.slug), "task"), i) + f)
  }

  /** Everything that the change writer stamps beside the facts of the change is passed over. */
  lemma StampsAreIgnorable(c: Change, k: string)
    requires Stamped(c, k)
    ensures Ignorable(KeysOf(FactsOf(c)), c.slug, k)
  {
    hide FactsOf, Ignorable, TaskPrefix, TasksOf;
    if f :| f in CHANGE_STAMPS && k == ChangeBase(c.slug) + f {
      ChangeStampShape(f);
      PlainFieldIsIgnorable(c, f);
    } else {
      var i, f :| 0 <= i < |TasksOf(c)| && f in TASK_STAMPS && k == TaskPrefix(Under(ChangeBase(c.slug), "task"), i) + f;
      TaskStampShape(f);
      TaskFieldIsIgnorable(c, i, f);
    }
  }

  lemma ChangeStampShape(f: string)
    requires f in CHANGE_STAMPS
    ensures DotFree(f)
  {
  }

  lemma TaskStampShape(f: string)
    requires f in TASK_STAMPS
    ensures DotFree(f) && f !in TASK_FIELDS
  {
    assert |"number"| == 6 && |"text"| == 4 && |"done"| == 4 && |"section"| == 7;
    assert "goal"[0] == 'g' && "text"[0] == 't' && "done"[0] == 'd';
    assert |"goal"| == 4 && |"target_files"| == 12 && |"test_command"| == 12 && |"assumptions"| == 11 && |"non_goals"| == 9
           && |"expected_outcome"| == 16 && |"requirement_ref"| == 15;
  }

  /** The entity as the change writer leaves it reads back as the change exactly when the change is storable. */
  lemma WrittenChangeRoundTrip(c: Change, stamps: seq<Fact>, r: Change)
    requires forall f | f in stamps :: Stamped(c, f.key)
    requires ChangeReads(Index(FactsOf(c) + stamps), c.slug, r)
    ensures r == Modeled(c) <==> Storable(c)
  {
    hide FactsOf, Ignorable, Stamped, ChangeReads, Modeled, Storable, Index;
    forall f | f in FactsOf(c) + stamps && f !in FactsOf(c) ensures Ignorable(KeysOf(FactsOf(c)), c.slug, f.key) {
      StampsAreIgnorable(c, f.key);
    }
    ChangeFactsRoundTripIffStorable(c, FactsOf(c) + stamps, r);
  }

  /** On the other side: a proposal without modeled content comes back absent. */
  lemma EmptyProposalIsLost(r: Change)
    requires ChangeReads(Index(FactsOf(TITLED)), TITLED.slug, r)
    ensures r != Modeled(TITLED)
  {
    hide FactsOf, ChangeReads, Modeled, Index;
    FactsEmbed(TITLED, FactsOf(TITLED));
    EmbeddedIffStorable(TITLED, FactsOf(TITLED), r);
    assert !ProposalPresent(TITLED.proposal.value);
  }

  const TITLED := Change("s", Some(Proposal("Title", "", [], [], "", [])), None, None, [])

  /** On the other side: three added requirements whose second and third rids are the same. */
  lemma ClashingRidsAreLost(r: Change)
    requires ChangeReads(Index(FactsOf(CLASHING)), CLASHING.slug, r)
    ensures r != Modeled(CLASHING)
  {
    hide FactsOf, ChangeReads, Modeled, Index;
    FactsEmbed(CLASHING, FactsOf(CLASHING));
    EmbeddedIffStorable(CLASHING, FactsOf(CLASHING), r);
    assert !DeltasStorable(CLASHING.deltas) by { DeltasClash(); }
  }

  const FOOS := [Requirement("Foo", "a", []), Requirement("Foo", "b", []), Requirement("Foo 2", "c", [])]
  const CLASHING := Change("s", None, None, None, [Delta("cap", "", FOOS, [], [], [])])

  lemma DeltasClash()
    ensures !DeltasStorable(CLASHING.deltas)
  {
    hide NoClash, Rid, Ordering.Strict;
    var d := CLASHING.deltas[0];
    FooNames();
    MintedRidsCanClash();
    RidsApartIffNoClash(ItemNames(d));
    assert Rid(ItemNames(d), 1) == Rid(ItemNames(d), 2);
  }

  lemma FooNames()
    ensures ItemNames(CLASHING.deltas[0]) == ["Foo", "Foo", "Foo 2"]
  {
  }

  // ---------------------------------------------------------------------------------------
  // Several changes in one fact list
  // ---------------------------------------------------------------------------------------

  /** Subtrees of different dot-free slugs do not meet. */
  lemma OtherSlug(s: string, t: string, k: string)
    requires DotFree(s) && DotFree(t) && ChangeBase(s) <= k && ChangeBase(t) <= k
    ensures s == t
  {
    assert ChangeBase(s) == Under("change.", s) && ChangeBase(t) == Under("change.", t);
    OneSegment("change.", s, t, k);
  }

  lemma FactsBelowBase(c: Change, f: Fact)
    requires f in FactsOf(c)
    ensures ChangeBase(c.slug) <= f.key
  {
    hide Entries, Flatten, EntryOk;
    InFlatten(Entries(c), f);
    var e :| e in Entries(c) && f in e.facts;
    EntriesFit(c);
    assert KeyedBy(f, e.prefix) by { EntryKeyed(e, f); }
  }

  lemma EntryKeyed(e: Entry, f: Fact)
    requires EntryOk(e) && f in e.facts
    ensures KeyedBy(f, e.prefix)
  {
  }

  /** `facts` holds the facts of the changes `cs`, and otherwise only what none of their readers looks at. */
  ghost predicate Mixes(facts: seq<Fact>, cs: seq<Change>) {
    && (forall c | c in cs :: forall f | f in FactsOf(c) :: f in facts)
    && (forall f | f in facts ::
          || (exists c :: c in cs && f in FactsOf(c))
          || (forall c | c in cs :: Ignorable(KeysOf(FactsOf(c)), c.slug, f.key)))
  }

  /** Changes with different dot-free slugs share one fact list without disturbing each other. */
  lemma MixedChanges(cs: seq<Change>, facts: seq<Fact>, i: nat, r: Change)
    requires i < |cs| && Mixes(facts, cs)
    requires forall c | c in cs :: DotFree(c.slug)
    requires forall j | 0 <= j < |cs| && j != i :: cs[j].slug != cs[i].slug
    requires ChangeReads(Index(facts), cs[i].slug, r)
    ensures r == Modeled(cs[i]) <==> Storable(cs[i])
  {
    hide FactsOf, ChangeReads, Modeled, Storable, Index, Ignorable;
    var c := cs[i];
    assert c in cs;
    forall f | f in facts && f !in FactsOf(c) ensures Ignorable(KeysOf(FactsOf(c)), c.slug, f.key) {
      if d :| d in cs && f in FactsOf(d) {
        FactsBelowBase(d, f);
        if ChangeBase(c.slug) <= f.key { OtherSlug(c.slug, d.slug, f.key); }
        OutsideIsIgnorable(c, f.key);
      }
    }
    ChangeFactsRoundTripIffStorable(c, facts, r);
  }

  lemma FactsEmbed(c: Change, facts: seq<Fact>)
    requires forall f | f in FactsOf(c) :: f in facts
    requires forall f | f in facts && ChangeBase(c.slug) <= f.key :: f in FactsOf(c)
    ensures Embeds(facts, ChangeBase(c.slug), Entries(c))
  {
  }
}

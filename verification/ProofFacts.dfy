/** Proof records on a run entity: six kinds of records, each field of each record one predicate. */
module ProofFacts {
  import opened Text
  import opened RequirementIds
  import Facts

  /** A stored value as the readers see it: its text, its list form, and its text read as a timestamp if it is one. */
  datatype Datum = Datum(text: string, items: seq<string>, stamp: Option<int>)

  datatype Kind = Claims | Dependencies | Readiness | Profiles | Evidence | Waivers

  function Segment(k: Kind): string {
    match k
    case Claims => "claim"
    case Dependencies => "dependency"
    case Readiness => "readiness"
    case Profiles => "harness_profile"
    case Evidence => "evidence"
    case Waivers => "waiver"
  }

  function Prefix(k: Kind): string {
    "proof." + Segment(k) + "."
  }

  function Fields(k: Kind): seq<string> {
    match k
    case Claims =>
      ["source_requirement", "source_scenario", "conflicts_with", "task_refs", "statement", "requires", "status"]
    case Dependencies =>
      ["required_for", "profile_ref", "next_route", "description", "kind", "status"]
    case Readiness =>
      ["failure_signature", "attestation_ref", "probe_results", "smoke_command", "smoke_status", "profile_ref", "completed_at",
       "started_at", "expires_at", "evidence", "status"]
    case Profiles =>
      ["claims_supported", "readiness_probes", "rejection_reason", "smoke_command", "ttl_seconds", "dependencies", "artifacts",
       "renderer", "version", "status", "team"]
    case Evidence =>
      ["created_at", "exit_code", "producer", "command", "digest", "covers", "kind", "uri"]
    case Waivers =>
      ["residual_risk", "approved_by", "approved_at", "expires_at", "dependencies", "claims", "reason", "status"]
  }

  datatype Ref = Ref(kind: Kind, id: string)

  /** The record an assignment belongs to, and the field it sets. */
  datatype Slot = Slot(ref: Ref, field: string)

  function Key(s: Slot): string {
    Prefix(s.ref.kind) + s.ref.id + "." + s.field
  }

  predicate SlotOk(s: Slot) {
    s.ref.id != "" && s.field in Fields(s.ref.kind)
  }

  // ---------------------------------------------------------------------------------------
  // Splitting a predicate
  // ---------------------------------------------------------------------------------------

  predicate EndsWith(s: string, t: string) {
    |t| <= |s| && s[|s| - |t|..] == t
  }

  /** The first field that ends the text and leaves a non-empty id. */
  function SplitField(rest: string, fields: seq<string>): Option<(string, string)> {
    if fields == [] then None
    else
      var suffix := "." + fields[0];
      if EndsWith(rest, suffix) && |rest| > |suffix| then Some((rest[..|rest| - |suffix|], fields[0]))
      else SplitField(rest, fields[1..])
  }

  function SplitKind(pred: string, k: Kind): Option<Slot> {
    var p := Prefix(k);
    if p <= pred then
      var s := SplitField(pred[|p|..], Fields(k));
      if s.Some? then Some(Slot(Ref(k, s.value.0), s.value.1)) else None
    else None
  }

  /** The kinds are tried one after another. */
  function Split(pred: string): Option<Slot> {
    if SplitKind(pred, Claims).Some? then SplitKind(pred, Claims)
    else if SplitKind(pred, Dependencies).Some? then SplitKind(pred, Dependencies)
    else if SplitKind(pred, Readiness).Some? then SplitKind(pred, Readiness)
    else if SplitKind(pred, Profiles).Some? then SplitKind(pred, Profiles)
    else if SplitKind(pred, Evidence).Some? then SplitKind(pred, Evidence)
    else SplitKind(pred, Waivers)
  }

  ghost predicate AllDotFree(fields: seq<string>) {
    forall i | 0 <= i < |fields| :: DotFree(fields[i])
  }

  lemma {:induction false} SplitFieldIff(rest: string, fields: seq<string>, id: string, field: string)
    requires AllDotFree(fields)
    ensures SplitField(rest, fields) == Some((id, field)) <==> id != "" && field in fields && rest == id + "." + field
  {
    if fields != [] {
      var f, tail := fields[0], fields[1..];
      SplitFieldIff(rest, tail, id, field);
      assert fields == [f] + tail;
      var suffix := "." + f;
      EndsIn(rest, id, f);
      if EndsWith(rest, suffix) && |rest| > |suffix| {
        var head := rest[..|rest| - |suffix|];
        assert rest == head + suffix && rest == head + "." + f;
        if field in fields && rest == id + "." + field {
          Facts.KeyParts(id + ".", field, head + ".", f);
          assert id == (id + ".")[..|id|] && head == (head + ".")[..|head|];
        }
      }
    }
  }

  lemma EndsIn(rest: string, id: string, f: string)
    ensures id != "" && rest == id + "." + f ==> EndsWith(rest, "." + f) && |rest| > |"." + f|
  {
    if rest == id + "." + f {
      assert rest[|id|..] == "." + f;
    }
  }

  lemma ClaimWords()
    ensures DotFree("source_requirement") && DotFree("source_scenario") && DotFree("conflicts_with") && DotFree("task_refs")
    ensures DotFree("statement") && DotFree("requires") && DotFree("status")
  {
  }

  lemma ClaimFieldsDotFree()
    ensures AllDotFree(Fields(Claims))
  {
    hide DotFree;
    ClaimWords();
  }

  lemma DependencyFieldsDotFree()
    ensures AllDotFree(Fields(Dependencies))
  {
  }

  lemma ReadinessWords()
    ensures DotFree("failure_signature") && DotFree("attestation_ref") && DotFree("probe_results") && DotFree("smoke_command")
    ensures DotFree("smoke_status") && DotFree("profile_ref")
  {
  }

  lemma MoreReadinessWords()
    ensures DotFree("completed_at") && DotFree("started_at") && DotFree("expires_at") && DotFree("evidence") && DotFree("status")
  {
  }

  lemma ReadinessFieldsDotFree()
    ensures AllDotFree(Fields(Readiness))
  {
    hide DotFree;
    ReadinessWords();
    MoreReadinessWords();
  }

  lemma ProfileWords()
    ensures DotFree("claims_supported") && DotFree("readiness_probes") && DotFree("rejection_reason") && DotFree("smoke_command")
    ensures DotFree("ttl_seconds") && DotFree("dependencies")
  {
  }

  lemma MoreProfileWords()
    ensures DotFree("artifacts") && DotFree("renderer") && DotFree("version") && DotFree("status") && DotFree("team")
  {
  }

  lemma ProfileFieldsDotFree()
    ensures AllDotFree(Fields(Profiles))
  {
    hide DotFree;
    ProfileWords();
    MoreProfileWords();
  }

  lemma EvidenceFieldsDotFree()
    ensures AllDotFree(Fields(Evidence))
  {
  }

  lemma WaiverFieldsDotFree()
    ensures AllDotFree(Fields(Waivers))
  {
  }

  lemma FieldsDotFree(k: Kind)
    ensures AllDotFree(Fields(k))
  {
    hide Fields, AllDotFree;
    ClaimFieldsDotFree();
    DependencyFieldsDotFree();
    ReadinessFieldsDotFree();
    ProfileFieldsDotFree();
    EvidenceFieldsDotFree();
    WaiverFieldsDotFree();
  }

  lemma SplitKindIff(pred: string, k: Kind, s: Slot)
    ensures SplitKind(pred, k) == Some(s) <==> s.ref.kind == k && SlotOk(s) && pred == Key(s)
  {
    hide Fields, SplitField, AllDotFree, Prefix;
    FieldsDotFree(k);
    var p := Prefix(k);
    assert s.ref.kind == k ==> p <= Key(s);
    if p <= pred {
      var rest := pred[|p|..];
      assert pred == p + rest;
      SplitFieldIff(rest, Fields(k), s.ref.id, s.field);
      assert p + (s.ref.id + "." + s.field) == p + s.ref.id + "." + s.field;
      Facts.FieldsApart(p, rest, s.ref.id + "." + s.field);
    }
  }

  lemma SegmentShape(k: Kind)
    ensures DotFree(Segment(k))
  {
  }

  lemma SegmentsApart(j: Kind, k: Kind)
    ensures Segment(j) == Segment(k) <==> j == k
  {
    assert |"claim"| == 5 && |"dependency"| == 10 && |"readiness"| == 9 && |"harness_profile"| == 15 && |"evidence"| == 8 && |"waiver"| == 6;
  }

  /** A predicate has the prefix of at most one kind. */
  lemma OneKind(pred: string, j: Kind, k: Kind)
    requires SplitKind(pred, j).Some? && SplitKind(pred, k).Some?
    ensures j == k
  {
    hide Fields, SplitField, Segment;
    var x, y := pred[|Prefix(j)|..], pred[|Prefix(k)|..];
    SegmentShape(j);
    SegmentShape(k);
    assert pred == Prefix(j) + x && pred == Prefix(k) + y;
    assert pred == "proof." + (Segment(j) + "." + x) && pred == "proof." + (Segment(k) + "." + y);
    Facts.FieldsApart("proof.", Segment(j) + "." + x, Segment(k) + "." + y);
    Facts.SegmentParts(Segment(j), x, Segment(k), y);
    SegmentsApart(j, k);
  }

  lemma SplitIsKind(pred: string, k: Kind)
    ensures SplitKind(pred, k).Some? ==> Split(pred) == SplitKind(pred, k)
    ensures Split(pred).Some? ==> exists j :: SplitKind(pred, j) == Split(pred)
  {
    hide SplitKind;
    forall j | SplitKind(pred, k).Some? && SplitKind(pred, j).Some? ensures j == k {
      OneKind(pred, j, k);
    }
    assert SplitKind(pred, Claims).Some? || SplitKind(pred, Claims).None?;
  }

  /** The split inverts the key exactly, so no two predicates name the same field of the same record. */
  lemma SplitIffKey(pred: string, s: Slot)
    ensures Split(pred) == Some(s) <==> SlotOk(s) && pred == Key(s)
  {
    hide SplitKind, Split, SlotOk, Key;
    SplitIsKind(pred, s.ref.kind);
    SplitKindIff(pred, s.ref.kind, s);
    if Split(pred) == Some(s) {
      var j :| SplitKind(pred, j) == Split(pred);
      SplitKindIff(pred, j, s);
    }
  }

  // ---------------------------------------------------------------------------------------
  // Records
  // ---------------------------------------------------------------------------------------

  type Record = map<string, Datum>

  type Table = map<Ref, Record>

  ghost function RecordOf(triples: map<string, Datum>, r: Ref): Record {
    map f | f in Fields(r.kind) && Key(Slot(r, f)) in triples :: triples[Key(Slot(r, f))]
  }

  ghost function Refs(triples: map<string, Datum>): set<Ref> {
    set k | k in triples && Split(k).Some? :: Split(k).value.ref
  }

  /** The records of a run entity: those with some known field, each with the value of every known field. */
  ghost function TableOf(triples: map<string, Datum>): Table {
    map r | r in Refs(triples) :: RecordOf(triples, r)
  }

  /** The field of a record is what the key holds. */
  ghost predicate FieldIs(triples: map<string, Datum>, r: Ref, f: string, key: string) {
    var t := TableOf(triples);
    && (key in triples <==> r in t && f in t[r])
    && (key in triples ==> t[r][f] == triples[key])
  }

  lemma FieldIsKey(triples: map<string, Datum>, r: Ref, f: string)
    requires r.id != "" && f in Fields(r.kind)
    ensures FieldIs(triples, r, f, Key(Slot(r, f)))
  {
    hide Split, Key, Fields;
    SplitIffKey(Key(Slot(r, f)), Slot(r, f));
  }

  lemma FieldAt(triples: map<string, Datum>, k: Kind, id: string, f: string, lead: string)
    requires id != "" && f in Fields(k) && Prefix(k) == lead
    ensures FieldIs(triples, Ref(k, id), f, lead + id + "." + f)
  {
    hide FieldIs, Fields, Prefix;
    FieldIsKey(triples, Ref(k, id), f);
  }

  lemma Leads()
    ensures Prefix(Claims) == "proof.claim." && Prefix(Dependencies) == "proof.dependency." && Prefix(Readiness) == "proof.readiness."
    ensures Prefix(Profiles) == "proof.harness_profile." && Prefix(Evidence) == "proof.evidence." && Prefix(Waivers) == "proof.waiver."
  {
  }

  lemma FieldsThere()
    ensures forall f | f in ["status", "requires", "conflicts_with"] :: f in Fields(Claims)
    ensures forall f | f in ["status", "profile_ref", "next_route"] :: f in Fields(Dependencies)
    ensures forall f | f in ["status", "smoke_status", "expires_at", "profile_ref"] :: f in Fields(Readiness)
    ensures forall f | f in ["status", "rejection_reason"] :: f in Fields(Profiles)
    ensures forall f | f in ["covers"] :: f in Fields(Evidence)
    ensures forall f | f in ["status", "expires_at", "claims", "dependencies"] :: f in Fields(Waivers)
  {
    assert Fields(Claims)[6] == "status" && Fields(Claims)[5] == "requires" && Fields(Claims)[2] == "conflicts_with";
    assert Fields(Dependencies)[5] == "status" && Fields(Dependencies)[1] == "profile_ref" && Fields(Dependencies)[2] == "next_route";
    assert Fields(Readiness)[10] == "status" && Fields(Readiness)[4] == "smoke_status" && Fields(Readiness)[8] == "expires_at" &&
           Fields(Readiness)[5] == "profile_ref";
    assert Fields(Profiles)[9] == "status" && Fields(Profiles)[2] == "rejection_reason" && Fields(Evidence)[5] == "covers";
    assert Fields(Waivers)[7] == "status" && Fields(Waivers)[3] == "expires_at" && Fields(Waivers)[5] == "claims" &&
           Fields(Waivers)[4] == "dependencies";
  }

  /** Where the fields that the analysis looks at are stored. */
  lemma FieldsAreRead(triples: map<string, Datum>, id: string, f: string)
    requires id != ""
    ensures f in ["status", "requires", "conflicts_with"] ==> FieldIs(triples, Ref(Claims, id), f, "proof.claim." + id + "." + f)
    ensures f in ["status", "profile_ref", "next_route"] ==>
              FieldIs(triples, Ref(Dependencies, id), f, "proof.dependency." + id + "." + f)
    ensures f in ["status", "smoke_status", "expires_at", "profile_ref"] ==>
              FieldIs(triples, Ref(Readiness, id), f, "proof.readiness." + id + "." + f)
    ensures f in ["status", "rejection_reason"] ==> FieldIs(triples, Ref(Profiles, id), f, "proof.harness_profile." + id + "." + f)
    ensures f in ["covers"] ==> FieldIs(triples, Ref(Evidence, id), f, "proof.evidence." + id + "." + f)
    ensures f in ["status", "expires_at", "claims", "dependencies"] ==>
              FieldIs(triples, Ref(Waivers, id), f, "proof.waiver." + id + "." + f)
  {
    hide FieldIs, Fields, Prefix;
    FieldsThere();
    Leads();
    if f in Fields(Claims) { FieldAt(triples, Claims, id, f, Prefix(Claims)); }
    if f in Fields(Dependencies) { FieldAt(triples, Dependencies, id, f, Prefix(Dependencies)); }
    if f in Fields(Readiness) { FieldAt(triples, Readiness, id, f, Prefix(Readiness)); }
    if f in Fields(Profiles) { FieldAt(triples, Profiles, id, f, Prefix(Profiles)); }
    if f in Fields(Evidence) { FieldAt(triples, Evidence, id, f, Prefix(Evidence)); }
    if f in Fields(Waivers) { FieldAt(triples, Waivers, id, f, Prefix(Waivers)); }
  }

  lemma RefsAdded(done: map<string, Datum>, k: string, v: Datum)
    ensures Refs(done[k := v]) == Refs(done) + if Split(k).Some? then {Split(k).value.ref} else {}
  {
    hide Split;
    var big := done[k := v];
    forall r ensures r in Refs(big) <==> r in Refs(done) || (Split(k).Some? && Split(k).value.ref == r) {
      if r in Refs(done) {
        var j :| j in done && Split(j).Some? && Split(j).value.ref == r;
        assert j in big;
      } else if Split(k).Some? && Split(k).value.ref == r {
        assert k in big;
      }
    }
  }

  lemma RecordAdded(done: map<string, Datum>, k: string, v: Datum, r: Ref)
    requires r.id != ""
    ensures RecordOf(done[k := v], r) ==
            if Split(k).Some? && Split(k).value.ref == r then RecordOf(done, r)[Split(k).value.field := v] else RecordOf(done, r)
  {
    hide Split, Key, Fields;
    var big := done[k := v];
    forall f | f in Fields(r.kind) ensures Key(Slot(r, f)) == k <==> Split(k) == Some(Slot(r, f)) {
      SplitIffKey(k, Slot(r, f));
    }
    if Split(k).Some? {
      SplitIffKey(k, Split(k).value);
    }
    var small := RecordOf(done, r);
    if Split(k).Some? && Split(k).value.ref == r {
      var g := Split(k).value.field;
      assert Split(k) == Some(Slot(r, g));
      assert RecordOf(big, r).Keys == small.Keys + {g};
      assert RecordOf(big, r) == small[g := v];
    } else {
      assert RecordOf(big, r).Keys == small.Keys;
      assert RecordOf(big, r) == small;
    }
  }

  lemma RefShape(done: map<string, Datum>, r: Ref)
    requires r in Refs(done)
    ensures r.id != ""
  {
    hide Split, Key, Fields;
    var k :| k in done && Split(k).Some? && Split(k).value.ref == r;
    SplitIffKey(k, Split(k).value);
  }

  lemma FreshRecord(done: map<string, Datum>, r: Ref)
    requires r !in Refs(done) && r.id != ""
    ensures RecordOf(done, r) == map[]
  {
    hide Split, Key, Fields;
    forall f | f in Fields(r.kind) ensures Key(Slot(r, f)) !in done {
      SplitIffKey(Key(Slot(r, f)), Slot(r, f));
    }
  }

  lemma TableAdded(done: map<string, Datum>, k: string, v: Datum)
    ensures Split(k).None? ==> TableOf(done[k := v]) == TableOf(done)
    ensures Split(k).Some? ==>
              var s, t := Split(k).value, TableOf(done);
              TableOf(done[k := v]) == t[s.ref := (if s.ref in t then t[s.ref] else map[])[s.field := v]]
  {
    hide Split, Refs, RecordOf;
    RefsAdded(done, k, v);
    var big, t := TableOf(done[k := v]), TableOf(done);
    if Split(k).Some? {
      var s := Split(k).value;
      assert s.ref.id != "" by { SlotNamed(k); }
      if s.ref !in t { FreshRecord(done, s.ref); }
      RecordAdded(done, k, v, s.ref);
    }
    forall r | r in t ensures r in big && big[r] == RecordOf(done[k := v], r) &&
                              (Split(k).None? || Split(k).value.ref != r ==> big[r] == t[r]) {
      RefShape(done, r);
      RecordAdded(done, k, v, r);
    }
  }

  lemma SlotNamed(k: string)
    requires Split(k).Some?
    ensures Split(k).value.ref.id != ""
  {
    hide Split, Key, Fields;
    SplitIffKey(k, Split(k).value);
  }

  /** Fills the records from the triples, enumerated in any order. */
  method ParseProofFacts(triples: map<string, Datum>) returns (table: Table)
    ensures table == TableOf(triples)
  {
    hide Split, TableOf;
    table := map[];
    ghost var done: map<string, Datum> := map[];
    var rest := triples.Keys;
    assert TableOf(done) == map[] by { NoRecords(); }
    while rest != {}
      invariant rest <= triples.Keys && done.Keys == triples.Keys - rest && forall k | k in done :: done[k] == triples[k]
      invariant table == TableOf(done)
      decreases |rest|
    {
      var k :| k in rest;
      TableAdded(done, k, triples[k]);
      var s := Split(k);
      if s.Some? {
        var record := if s.value.ref in table then table[s.value.ref] else map[];
        table := table[s.value.ref := record[s.value.field := triples[k]]];
      }
      done := done[k := triples[k]];
      rest := rest - {k};
    }
    assert done == triples;
  }

  lemma NoRecords()
    ensures TableOf(map[]) == map[]
  {
  }
}

/** The proof-readiness analyzer: findings over the proof records, and the rule they decide. */
module ProofReadiness {
  import opened Text
  import opened Ordering
  import opened ProofFacts

  // ---------------------------------------------------------------------------------------
  // Fields of records
  // ---------------------------------------------------------------------------------------

  function TextOf(r: Record, f: string): string {
    if f in r then TrimSpace(r[f].text) else ""
  }

  function StatusOf(r: Record, f: string): string {
    Lower(TextOf(r, f))
  }

  function Clean(xs: seq<string>): seq<string> {
    if xs == [] then []
    else (if TrimSpace(xs[0]) == "" then [] else [TrimSpace(xs[0])]) + Clean(xs[1..])
  }

  function ListOf(r: Record, f: string): seq<string> {
    if f in r then Clean(r[f].items) else []
  }

  function Get(t: Table, k: Kind, id: string): Record {
    if Ref(k, id) in t then t[Ref(k, id)] else map[]
  }

  datatype Expiry = Fresh | Expired | Unreadable

  /** No expiry never expires; one that is not a timestamp is unreadable. */
  function ExpiredAt(r: Record, now: int): Expiry {
    if TextOf(r, "expires_at") == "" then Fresh
    else if r["expires_at"].stamp.None? then Unreadable
    else if now > r["expires_at"].stamp.value then Expired
    else Fresh
  }

  predicate Accepted(t: Table, c: string) {
    Ref(Claims, c) in t && StatusOf(t[Ref(Claims, c)], "status") == "accepted"
  }

  function Requires(t: Table, c: string): seq<string> {
    ListOf(Get(t, Claims, c), "requires")
  }

  predicate Covers(w: Record, c: string, d: string) {
    (c != "" && c in ListOf(w, "claims")) || (d != "" && d in ListOf(w, "dependencies"))
  }

  predicate Active(w: Record, now: int) {
    StatusOf(w, "status") == "active" && ExpiredAt(w, now).Fresh?
  }

  // ---------------------------------------------------------------------------------------
  // The rule
  // ---------------------------------------------------------------------------------------

  /** Some waiver covers the pair. */
  ghost predicate Waivable(t: Table, c: string, d: string) {
    exists w :: Ref(Waivers, w) in t && Covers(t[Ref(Waivers, w)], c, d)
  }

  ghost predicate Waived(t: Table, c: string, d: string, now: int) {
    exists w :: Ref(Waivers, w) in t && Covers(t[Ref(Waivers, w)], c, d) && Active(t[Ref(Waivers, w)], now)
  }

  ghost predicate Evidenced(t: Table, c: string) {
    exists e :: Ref(Evidence, e) in t && c in ListOf(t[Ref(Evidence, e)], "covers")
  }

  predicate Acceptable(status: string) {
    status == "" || status == "ready" || status == "passed" || status == "accepted" || status == "active"
  }

  predicate Passing(r: Record, now: int) {
    StatusOf(r, "status") == "passed" && StatusOf(r, "smoke_status") != "failed" && ExpiredAt(r, now).Fresh?
  }

  ghost predicate FreshlyReady(t: Table, profile: string, now: int) {
    exists r :: Ref(Readiness, r) in t && TextOf(t[Ref(Readiness, r)], "profile_ref") == profile && Passing(t[Ref(Readiness, r)], now)
  }

  /** A dependency record that carries the claim by itself. */
  ghost predicate Ready(t: Table, d: string, now: int) {
    && Ref(Dependencies, d) in t
    && StatusOf(t[Ref(Dependencies, d)], "status") == "ready"
    && var p := TextOf(t[Ref(Dependencies, d)], "profile_ref");
       p != "" ==>
         && Ref(Profiles, p) in t
         && Acceptable(StatusOf(t[Ref(Profiles, p)], "status"))
         && FreshlyReady(t, p, now)
  }

  /** An active waiver carries the dependency; a waiver that is not active keeps even a ready one from carrying. */
  ghost predicate Carried(t: Table, c: string, d: string, now: int) {
    Waived(t, c, d, now) || (!Waivable(t, c, d) && Ready(t, d, now))
  }

  ghost predicate Discharged(t: Table, c: string, now: int) {
    if Requires(t, c) == [] then Evidenced(t, c) || Waived(t, c, "", now)
    else forall d | d in Requires(t, c) :: Carried(t, c, d, now)
  }

  ghost predicate Unopposed(t: Table, c: string) {
    forall o | o in ListOf(Get(t, Claims, c), "conflicts_with") :: !Accepted(t, o)
  }

  /** Some claim is accepted, no two accepted claims conflict, and every accepted claim is discharged. */
  ghost predicate Proved(t: Table, now: int) {
    && (exists c :: Accepted(t, c))
    && (forall c | Accepted(t, c) :: Unopposed(t, c) && Discharged(t, c, now))
  }

  // ---------------------------------------------------------------------------------------
  // Findings
  // ---------------------------------------------------------------------------------------

  datatype Severity = Blocker | Caution

  /** What is wrong: it fixes the kind and the reason of a finding. */
  datatype Defect =
    | NoneAccepted | ClaimUnproved | ClaimConflicts(other: string)
    | DependencyUnrecorded | DependencyNotReady | DependencyFailed | DependencyUnknown(status: string)
    | WaiverMissing | WaiverInactive | WaiverExpired | WaiverRevoked | WaiverUnreadable
    | ProfileMissing | ProfileRejected(reason: string) | ProfileIncomplete(status: string)
    | ReadinessMissing | ReadinessFailed | ReadinessUnreadable | ReadinessStale | ReadinessBlocked | ReadinessUnknown

  function KindText(d: Defect): string {
    match d
    case NoneAccepted => "no_accepted_claims"
    case ClaimUnproved => "unproved_claim"
    case ClaimConflicts(_) => "conflicting_accepted_claim"
    case DependencyUnrecorded => "missing_proof_dependency"
    case DependencyNotReady => "missing_proof_dependency"
    case DependencyFailed => "failed_proof_dependency"
    case DependencyUnknown(_) => "unknown_proof_dependency_status"
    case WaiverMissing => "missing_waiver"
    case WaiverInactive => "inactive_waiver"
    case WaiverExpired => "expired_waiver"
    case WaiverRevoked => "revoked_waiver"
    case WaiverUnreadable => "invalid_waiver_expiry"
    case ProfileMissing => "missing_harness_profile"
    case ProfileRejected(_) => "rejected_harness_profile"
    case ProfileIncomplete(_) => "incomplete_harness_profile"
    case ReadinessMissing => "missing_readiness_record"
    case ReadinessFailed => "failed_readiness_record"
    case ReadinessUnreadable => "invalid_readiness_expiry"
    case ReadinessStale => "stale_readiness_record"
    case ReadinessBlocked => "blocked_readiness_record"
    case ReadinessUnknown => "unknown_readiness_status"
  }

  function ReasonText(d: Defect): string {
    match d
    case NoneAccepted => "no proof.claim records with status accepted were found on the run entity"
    case ClaimUnproved => "accepted claim has no proof dependencies, covering evidence, or active waiver"
    case ClaimConflicts(other) => "accepted claim conflicts with accepted claim " + Quoted(other)
    case DependencyUnrecorded => "accepted claim requires a dependency that has no proof.dependency record"
    case DependencyNotReady => "required proof dependency is not ready"
    case DependencyFailed => "required proof dependency is marked failed"
    case DependencyUnknown(status) => "dependency has unsupported status " + Quoted(status)
    case WaiverMissing => "dependency is marked waived but no active proof.waiver covers it"
    case WaiverInactive => "matching waiver exists but is not active for this run"
    case WaiverExpired => "matching waiver exists but is not active for this run"
    case WaiverRevoked => "matching waiver exists but is not active for this run"
    case WaiverUnreadable => "matching waiver exists but is not active for this run"
    case ProfileMissing => "dependency references a harness profile that has not been produced or rejected"
    case ProfileRejected(reason) => if reason != "" then reason else "harness profile was rejected"
    case ProfileIncomplete(status) => "harness profile has unsupported status " + Quoted(status)
    case ReadinessMissing => "dependency references a harness profile with no readiness record"
    case ReadinessFailed => "matching readiness evidence failed"
    case ReadinessUnreadable => "readiness record has an invalid expires_at timestamp"
    case ReadinessStale => "readiness record is stale or expired"
    case ReadinessBlocked => "readiness record is blocked"
    case ReadinessUnknown => "no matching readiness record is passed and fresh"
  }

  // The kinds by which findings are told apart, and the reasons that name something.

  lemma ClaimKinds(other: string)
    ensures KindText(NoneAccepted) == "no_accepted_claims" && KindText(ClaimUnproved) == "unproved_claim"
    ensures KindText(ClaimConflicts(other)) == "conflicting_accepted_claim"
    ensures ReasonText(ClaimConflicts(other)) == "accepted claim conflicts with accepted claim " + Quoted(other)
  {
  }

  lemma DependencyKinds(status: string)
    ensures KindText(DependencyUnrecorded) == "missing_proof_dependency" && KindText(DependencyNotReady) == "missing_proof_dependency"
    ensures KindText(DependencyFailed) == "failed_proof_dependency" && KindText(DependencyUnknown(status)) == "unknown_proof_dependency_status"
    ensures ReasonText(DependencyUnknown(status)) == "dependency has unsupported status " + Quoted(status)
  {
  }

  lemma WaiverKinds()
    ensures KindText(WaiverMissing) == "missing_waiver" && KindText(WaiverInactive) == "inactive_waiver"
    ensures KindText(WaiverExpired) == "expired_waiver" && KindText(WaiverRevoked) == "revoked_waiver"
    ensures KindText(WaiverUnreadable) == "invalid_waiver_expiry"
  {
  }

  lemma ProfileKinds(s: string)
    ensures KindText(ProfileMissing) == "missing_harness_profile" && KindText(ProfileRejected(s)) == "rejected_harness_profile"
    ensures KindText(ProfileIncomplete(s)) == "incomplete_harness_profile"
    ensures ReasonText(ProfileRejected(s)) == if s == "" then "harness profile was rejected" else s
    ensures ReasonText(ProfileIncomplete(s)) == "harness profile has unsupported status " + Quoted(s)
  {
  }

  lemma ReadinessKinds()
    ensures KindText(ReadinessMissing) == "missing_readiness_record" && KindText(ReadinessFailed) == "failed_readiness_record"
    ensures KindText(ReadinessUnreadable) == "invalid_readiness_expiry" && KindText(ReadinessStale) == "stale_readiness_record"
    ensures KindText(ReadinessBlocked) == "blocked_readiness_record" && KindText(ReadinessUnknown) == "unknown_readiness_status"
  {
  }

  datatype Finding = Finding(defect: Defect, severity: Severity, route: string, claim: string, dependency: string,
                             profile: string, readiness: string, waiver: string)

  datatype Status = Passed | Failed | Ambiguous

  datatype Analysis = Analysis(status: Status, findings: seq<Finding>)

  function Coordinator(defect: Defect, c: string, d: string): Finding {
    Finding(defect, Blocker, "coordinator", c, d, "", "", "")
  }

  function Harness(defect: Defect, c: string, d: string): Finding {
    Finding(defect, Blocker, "test_harness", c, d, "", "", "")
  }

  datatype WaiverScan = ActiveWaiver | InactiveWaiver(id: string, status: string) | NoWaiver

  function InactiveStatus(w: Record, now: int): string {
    match ExpiredAt(w, now)
    case Unreadable => "invalid_expiry"
    case Expired => "expired"
    case Fresh => StatusOf(w, "status")
  }

  /** An active waiver wins over an earlier inactive one; the first inactive one is reported. */
  function ScanWaivers(t: Table, ids: seq<string>, c: string, d: string, now: int): WaiverScan {
    if ids == [] then NoWaiver
    else
      var w, rest := Get(t, Waivers, ids[0]), ScanWaivers(t, ids[1..], c, d, now);
      if !Covers(w, c, d) then rest
      else if Active(w, now) || rest.ActiveWaiver? then ActiveWaiver
      else InactiveWaiver(ids[0], InactiveStatus(w, now))
  }

  function InactiveFinding(c: string, d: string, s: WaiverScan): Finding
    requires s.InactiveWaiver?
  {
    var defect := if s.status == "expired" then WaiverExpired else if s.status == "revoked" then WaiverRevoked
                  else if s.status == "invalid_expiry" then WaiverUnreadable else WaiverInactive;
    Coordinator(defect, c, d).(waiver := s.id)
  }

  /** What the readiness records of a profile have shown: the last of each sort. */
  datatype Shown = Passes | Shown(failed: Option<string>, unreadable: Option<string>, stale: Option<string>, blocked: Option<string>)

  function ShowRecord(t: Table, id: string, now: int, seen: Shown): Shown
    requires seen.Shown?
  {
    var r := Get(t, Readiness, id);
    if ExpiredAt(r, now).Unreadable? then seen.(unreadable := Some(id))
    else if Passing(r, now) then Passes
    else if StatusOf(r, "status") == "failed" || StatusOf(r, "smoke_status") == "failed" then seen.(failed := Some(id))
    else if ExpiredAt(r, now).Expired? || StatusOf(r, "status") == "stale" then seen.(stale := Some(id))
    else if StatusOf(r, "status") == "blocked" then seen.(blocked := Some(id))
    else seen
  }

  function ShowAll(t: Table, ids: seq<string>, now: int, seen: Shown): Shown
    decreases |ids|
  {
    if ids == [] || seen.Passes? then seen else ShowAll(t, ids[1..], now, ShowRecord(t, ids[0], now, seen))
  }

  const UNSEEN := Shown(None, None, None, None)

  function ReadinessFinding(t: Table, ids: seq<string>, c: string, d: string, p: string, now: int): seq<Finding> {
    if ids == [] then [Harness(ReadinessMissing, c, d).(profile := p)]
    else
      var s := ShowAll(t, ids, now, UNSEEN);
      if s.Passes? then []
      else if s.failed.Some? then [Harness(ReadinessFailed, c, d).(profile := p, readiness := s.failed.value)]
      else if s.unreadable.Some? then [Harness(ReadinessUnreadable, c, d).(profile := p, readiness := s.unreadable.value)]
      else if s.stale.Some? then [Harness(ReadinessStale, c, d).(profile := p, readiness := s.stale.value)]
      else if s.blocked.Some? then [Harness(ReadinessBlocked, c, d).(profile := p, readiness := s.blocked.value)]
      else [Harness(ReadinessUnknown, c, d).(profile := p)]
  }

  function ProfileFinding(t: Table, c: string, d: string, p: string): seq<Finding> {
    if Ref(Profiles, p) !in t then [Harness(ProfileMissing, c, d).(profile := p)]
    else
      var s := StatusOf(t[Ref(Profiles, p)], "status");
      if Acceptable(s) then []
      else if s == "rejected" || s == "revoked" || s == "failed" then [Coordinator(ProfileRejected(TextOf(t[Ref(Profiles, p)], "rejection_reason")), c, d).(profile := p)]
      else [Harness(ProfileIncomplete(s), c, d).(profile := p)]
  }

  /** `ws` lists the waivers; `rs` lists the readiness records of the dependency's profile. */
  function DependencyFinding(t: Table, ws: seq<string>, rs: seq<string>, c: string, d: string, now: int): seq<Finding> {
    var scan := ScanWaivers(t, ws, c, d, now);
    if scan.ActiveWaiver? then []
    else if scan.InactiveWaiver? then [InactiveFinding(c, d, scan)]
    else if Ref(Dependencies, d) !in t then [Harness(DependencyUnrecorded, c, d)]
    else
      var dep := t[Ref(Dependencies, d)];
      var status, p, next := StatusOf(dep, "status"), TextOf(dep, "profile_ref"), Lower(TextOf(dep, "next_route"));
      var route := if next == "" then "test_harness" else next;
      if status == "waived" then [Coordinator(WaiverMissing, c, d)]
      else if status == "ready" then
        if p == "" then []
        else if ProfileFinding(t, c, d, p) != [] then ProfileFinding(t, c, d, p)
        else ReadinessFinding(t, rs, c, d, p, now)
      else if status == "missing" || status == "unknown" || status == "" then
        [Harness(DependencyNotReady, c, d).(route := route)]
      else if status == "failed" then [Harness(DependencyFailed, c, d).(route := route)]
      else [Coordinator(DependencyUnknown(status), c, d)]
  }

  // ---------------------------------------------------------------------------------------
  // The ids that are listed
  // ---------------------------------------------------------------------------------------

  function IdsOf(t: Table, k: Kind): set<string> {
    set r | r in t && r.kind == k :: r.id
  }

  function ReadinessOf(t: Table, p: string): set<string> {
    set r | r in t && r.kind == Readiness && TextOf(t[r], "profile_ref") == p :: r.id
  }

  function AcceptedIds(t: Table): set<string> {
    set r | r in t && r.kind == Claims && Accepted(t, r.id) :: r.id
  }

  lemma IdsMembers(t: Table, k: Kind, x: string)
    ensures x in IdsOf(t, k) <==> Ref(k, x) in t
  {
    if Ref(k, x) in t { assert Ref(k, x).id == x; }
  }

  lemma ReadinessMembers(t: Table, p: string, x: string)
    ensures x in ReadinessOf(t, p) <==> Ref(Readiness, x) in t && TextOf(t[Ref(Readiness, x)], "profile_ref") == p
  {
    hide TextOf;
    if Ref(Readiness, x) in t { assert Ref(Readiness, x).id == x; }
  }

  lemma AcceptedMembers(t: Table, x: string)
    ensures x in AcceptedIds(t) <==> Accepted(t, x)
  {
    hide StatusOf;
    if Ref(Claims, x) in t { assert Ref(Claims, x).id == x; }
  }

  // ---------------------------------------------------------------------------------------
  // The whole analysis as a function of the records
  // ---------------------------------------------------------------------------------------

  ghost function FindingOf(t: Table, c: string, d: string, now: int): seq<Finding> {
    var p := TextOf(Get(t, Dependencies, d), "profile_ref");
    DependencyFinding(t, Listing(IdsOf(t, Waivers)), Listing(ReadinessOf(t, p)), c, d, now)
  }

  ghost function DependencyFindings(t: Table, c: string, ds: seq<string>, now: int): seq<Finding> {
    if ds == [] then [] else DependencyFindings(t, c, ds[..|ds| - 1], now) + FindingOf(t, c, ds[|ds| - 1], now)
  }

  ghost function ConflictFindings(t: Table, c: string, os: seq<string>): seq<Finding> {
    if os == [] then []
    else ConflictFindings(t, c, os[..|os| - 1]) +
         if Accepted(t, os[|os| - 1]) then [Coordinator(ClaimConflicts(os[|os| - 1]), c, "")] else []
  }

  function UnprovedFinding(c: string, scan: WaiverScan): seq<Finding> {
    if scan.ActiveWaiver? then []
    else if scan.InactiveWaiver? then [InactiveFinding(c, "", scan)]
    else [Harness(ClaimUnproved, c, "")]
  }

  ghost function ClaimFindings(t: Table, c: string, now: int): seq<Finding> {
    ConflictFindings(t, c, ListOf(Get(t, Claims, c), "conflicts_with")) +
    if Requires(t, c) == [] && !Evidenced(t, c) then UnprovedFinding(c, ScanWaivers(t, Listing(IdsOf(t, Waivers)), c, "", now))
    else DependencyFindings(t, c, Requires(t, c), now)
  }

  ghost function AllFindings(t: Table, cs: seq<string>, now: int): seq<Finding> {
    if cs == [] then [] else AllFindings(t, cs[..|cs| - 1], now) + ClaimFindings(t, cs[|cs| - 1], now)
  }

  ghost function AnalysisOf(t: Table, now: int): Analysis {
    if AcceptedIds(t) == {} then Analysis(Ambiguous, [Coordinator(NoneAccepted, "", "")])
    else
      var fs := AllFindings(t, Listing(AcceptedIds(t)), now);
      Analysis(if fs == [] then Passed else Failed, fs)
  }

  // ---------------------------------------------------------------------------------------
  // The findings decide the rule
  // ---------------------------------------------------------------------------------------

  lemma {:induction false} ScanDecides(t: Table, ids: seq<string>, c: string, d: string, now: int)
    ensures var s := ScanWaivers(t, ids, c, d, now);
            && (s.ActiveWaiver? <==> exists w :: w in ids && Covers(Get(t, Waivers, w), c, d) && Active(Get(t, Waivers, w), now))
            && (s.NoWaiver? <==> forall w | w in ids :: !Covers(Get(t, Waivers, w), c, d))
  {
    hide Covers, Active, Get;
    if ids != [] {
      ScanDecides(t, ids[1..], c, d, now);
      assert ids == [ids[0]] + ids[1..];
    }
  }

  lemma WaiversDecide(t: Table, c: string, d: string, now: int)
    ensures var s := ScanWaivers(t, Listing(IdsOf(t, Waivers)), c, d, now);
            && (s.ActiveWaiver? <==> Waived(t, c, d, now))
            && (s.NoWaiver? <==> !Waivable(t, c, d))
  {
    hide Covers, Active, ScanWaivers, Listing, IdsOf;
    var ids := Listing(IdsOf(t, Waivers));
    ScanDecides(t, ids, c, d, now);
    forall w ensures w in ids <==> Ref(Waivers, w) in t { IdsMembers(t, Waivers, w); }
    if Waived(t, c, d, now) {
      var w :| Ref(Waivers, w) in t && Covers(t[Ref(Waivers, w)], c, d) && Active(t[Ref(Waivers, w)], now);
      assert w in ids && Get(t, Waivers, w) == t[Ref(Waivers, w)];
    }
    if ScanWaivers(t, ids, c, d, now).ActiveWaiver? {
      var w :| w in ids && Covers(Get(t, Waivers, w), c, d) && Active(Get(t, Waivers, w), now);
      assert Ref(Waivers, w) in t;
    }
    if Waivable(t, c, d) {
      var w :| Ref(Waivers, w) in t && Covers(t[Ref(Waivers, w)], c, d);
      assert w in ids && Get(t, Waivers, w) == t[Ref(Waivers, w)];
    }
    if !ScanWaivers(t, ids, c, d, now).NoWaiver? {
      var w :| w in ids && Covers(Get(t, Waivers, w), c, d);
      assert Ref(Waivers, w) in t;
    }
  }

  lemma ShowOne(t: Table, id: string, now: int, seen: Shown)
    requires seen.Shown?
    ensures ShowRecord(t, id, now, seen).Passes? <==> Passing(Get(t, Readiness, id), now)
  {
    hide StatusOf, ExpiredAt, Get;
  }

  lemma {:induction false} ShowDecides(t: Table, ids: seq<string>, now: int, seen: Shown)
    requires seen.Shown?
    ensures ShowAll(t, ids, now, seen).Passes? <==> exists r :: r in ids && Passing(Get(t, Readiness, r), now)
    decreases |ids|
  {
    hide Passing, Get, ShowRecord;
    if ids != [] {
      ShowOne(t, ids[0], now, seen);
      assert ids == [ids[0]] + ids[1..];
      var next := ShowRecord(t, ids[0], now, seen);
      if next.Shown? {
        ShowDecides(t, ids[1..], now, next);
      }
    }
  }

  lemma ReadinessDecides(t: Table, c: string, d: string, p: string, now: int)
    ensures ReadinessFinding(t, Listing(ReadinessOf(t, p)), c, d, p, now) == [] <==> FreshlyReady(t, p, now)
  {
    hide Passing, ShowAll, Listing, ReadinessOf, TextOf;
    var ids := Listing(ReadinessOf(t, p));
    ShowDecides(t, ids, now, UNSEEN);
    forall r ensures r in ids <==> Ref(Readiness, r) in t && TextOf(t[Ref(Readiness, r)], "profile_ref") == p {
      ReadinessMembers(t, p, r);
    }
    if FreshlyReady(t, p, now) {
      var r :| Ref(Readiness, r) in t && TextOf(t[Ref(Readiness, r)], "profile_ref") == p && Passing(t[Ref(Readiness, r)], now);
      assert r in ids && Get(t, Readiness, r) == t[Ref(Readiness, r)];
    }
    if exists r :: r in ids && Passing(Get(t, Readiness, r), now) {
      var r :| r in ids && Passing(Get(t, Readiness, r), now);
      assert Ref(Readiness, r) in t;
    }
  }

  lemma StatusWords()
    ensures "waived" != "ready" && "missing" != "ready" && "unknown" != "ready" && "" != "ready" && "failed" != "ready"
  {
    assert |"ready"| == 5 && |"waived"| == 6 && |"missing"| == 7 && |"unknown"| == 7 && |"failed"| == 6;
  }

  /** A dependency gets no finding exactly when it is carried. */
  lemma DependencyDecides(t: Table, c: string, d: string, now: int)
    ensures FindingOf(t, c, d, now) == [] <==> Carried(t, c, d, now)
  {
    hide ScanWaivers, Waived, Waivable, ReadinessFinding, FreshlyReady, Listing, StatusOf, TextOf, InactiveFinding, Acceptable;
    WaiversDecide(t, c, d, now);
    StatusWords();
    ReadinessDecides(t, c, d, TextOf(Get(t, Dependencies, d), "profile_ref"), now);
  }

  lemma {:induction false} DependenciesDecide(t: Table, c: string, ds: seq<string>, now: int)
    ensures DependencyFindings(t, c, ds, now) == [] <==> forall d | d in ds :: Carried(t, c, d, now)
  {
    hide Carried, FindingOf;
    if ds != [] {
      var init, d := ds[..|ds| - 1], ds[|ds| - 1];
      DependenciesDecide(t, c, init, now);
      DependencyDecides(t, c, d, now);
      assert ds == init + [d];
    }
  }

  lemma {:induction false} ConflictsDecide(t: Table, c: string, os: seq<string>)
    ensures ConflictFindings(t, c, os) == [] <==> forall o | o in os :: !Accepted(t, o)
  {
    hide Accepted;
    if os != [] {
      ConflictsDecide(t, c, os[..|os| - 1]);
      assert os == os[..|os| - 1] + [os[|os| - 1]];
    }
  }

  lemma ClaimDecides(t: Table, c: string, now: int)
    ensures ClaimFindings(t, c, now) == [] <==> Unopposed(t, c) && Discharged(t, c, now)
  {
    hide Carried, DependencyFindings, ConflictFindings, Waived, Evidenced, ScanWaivers, Listing, Waivable, Requires, ListOf, InactiveFinding;
    ConflictsDecide(t, c, ListOf(Get(t, Claims, c), "conflicts_with"));
    DependenciesDecide(t, c, Requires(t, c), now);
    WaiversDecide(t, c, "", now);
  }

  lemma {:induction false} ClaimsDecide(t: Table, cs: seq<string>, now: int)
    ensures AllFindings(t, cs, now) == [] <==> forall c | c in cs :: Unopposed(t, c) && Discharged(t, c, now)
  {
    hide Unopposed, Discharged, ClaimFindings;
    if cs != [] {
      ClaimsDecide(t, cs[..|cs| - 1], now);
      ClaimDecides(t, cs[|cs| - 1], now);
      assert cs == cs[..|cs| - 1] + [cs[|cs| - 1]];
    }
  }

  /** The analysis passes exactly when the rule holds, and is ambiguous exactly when no claim is accepted. */
  lemma AnalysisDecides(t: Table, now: int)
    ensures AnalysisOf(t, now).status == Passed <==> Proved(t, now)
    ensures AnalysisOf(t, now).status == Ambiguous <==> !exists c :: Accepted(t, c)
    ensures AnalysisOf(t, now).status == Passed <==> AnalysisOf(t, now).findings == []
  {
    hide AllFindings, Unopposed, Discharged, Accepted, Listing, AcceptedIds;
    var ids := Listing(AcceptedIds(t));
    forall c ensures c in AcceptedIds(t) <==> Accepted(t, c) { AcceptedMembers(t, c); }
    ClaimsDecide(t, ids, now);
    if AcceptedIds(t) != {} {
      var c :| c in AcceptedIds(t);
      assert Accepted(t, c);
    }
  }

  // ---------------------------------------------------------------------------------------
  // Findings blame exactly the claims that fail
  // ---------------------------------------------------------------------------------------

  ghost predicate Blames(fs: seq<Finding>, c: string) {
    forall f | f in fs :: f.claim == c && f.severity == Blocker
  }

  lemma ReadinessBlames(t: Table, ids: seq<string>, c: string, d: string, p: string, now: int)
    ensures Blames(ReadinessFinding(t, ids, c, d, p, now), c)
  {
    hide ShowAll;
  }

  lemma ProfileBlames(t: Table, c: string, d: string, p: string)
    ensures Blames(ProfileFinding(t, c, d, p), c)
  {
    hide StatusOf, Acceptable;
  }

  lemma OneFindingBlames(t: Table, c: string, d: string, now: int)
    ensures Blames(FindingOf(t, c, d, now), c)
  {
    hide ScanWaivers, Listing, StatusOf, TextOf, ReadinessFinding, ProfileFinding;
    var p := TextOf(Get(t, Dependencies, d), "profile_ref");
    ReadinessBlames(t, Listing(ReadinessOf(t, p)), c, d, p, now);
    ProfileBlames(t, c, d, p);
  }

  lemma {:induction false} DependencyBlames(t: Table, c: string, ds: seq<string>, now: int)
    ensures Blames(DependencyFindings(t, c, ds, now), c)
  {
    hide FindingOf;
    if ds != [] {
      DependencyBlames(t, c, ds[..|ds| - 1], now);
      OneFindingBlames(t, c, ds[|ds| - 1], now);
    }
  }

  lemma {:induction false} ConflictBlames(t: Table, c: string, os: seq<string>)
    ensures Blames(ConflictFindings(t, c, os), c)
  {
    hide Accepted;
    if os != [] { ConflictBlames(t, c, os[..|os| - 1]); }
  }

  lemma ClaimBlames(t: Table, c: string, now: int)
    ensures Blames(ClaimFindings(t, c, now), c)
  {
    hide DependencyFindings, ConflictFindings, Evidenced, ScanWaivers, Listing, Requires, ListOf;
    ConflictBlames(t, c, ListOf(Get(t, Claims, c), "conflicts_with"));
    DependencyBlames(t, c, Requires(t, c), now);
  }

  lemma {:induction false} WhoIsBlamed(t: Table, cs: seq<string>, now: int, f: Finding) returns (c: string)
    requires f in AllFindings(t, cs, now)
    ensures c in cs && f in ClaimFindings(t, c, now)
  {
    hide ClaimFindings;
    c := cs[|cs| - 1];
    if f !in ClaimFindings(t, c, now) {
      c := WhoIsBlamed(t, cs[..|cs| - 1], now, f);
    }
  }

  lemma {:induction false} BlamedInAll(t: Table, cs: seq<string>, now: int, c: string, f: Finding)
    requires c in cs && f in ClaimFindings(t, c, now)
    ensures f in AllFindings(t, cs, now)
  {
    hide ClaimFindings;
    if c != cs[|cs| - 1] {
      assert cs == cs[..|cs| - 1] + [cs[|cs| - 1]];
      BlamedInAll(t, cs[..|cs| - 1], now, c, f);
    }
  }

  /** With some claim accepted, every finding is a blocker, and an accepted claim is named exactly when it is opposed or not discharged. */
  lemma BlameIsExact(t: Table, now: int, c: string)
    requires Accepted(t, c)
    ensures forall f | f in AnalysisOf(t, now).findings :: f.severity == Blocker && Accepted(t, f.claim)
    ensures (exists f :: f in AnalysisOf(t, now).findings && f.claim == c) <==> !(Unopposed(t, c) && Discharged(t, c, now))
  {
    hide AllFindings, Unopposed, Discharged, Accepted, Listing, AcceptedIds, ClaimFindings;
    var ids := Listing(AcceptedIds(t));
    forall x ensures x in ids <==> Accepted(t, x) { AcceptedMembers(t, x); }
    var fs := AllFindings(t, ids, now);
    assert AnalysisOf(t, now).findings == fs by { AcceptedMembers(t, c); }
    forall f | f in fs ensures f.severity == Blocker && f.claim in ids && f in ClaimFindings(t, f.claim, now) {
      var x := WhoIsBlamed(t, ids, now, f);
      ClaimBlames(t, x, now);
    }
    ClaimDecides(t, c, now);
    ClaimBlames(t, c, now);
    if ClaimFindings(t, c, now) != [] {
      var f := ClaimFindings(t, c, now)[0];
      BlamedInAll(t, ids, now, c, f);
      assert f in fs && f.claim == c;
    }
  }

  // ---------------------------------------------------------------------------------------
  // Time and waivers
  // ---------------------------------------------------------------------------------------

  lemma FreshEarlier(r: Record, early: int, late: int)
    requires early <= late && ExpiredAt(r, late).Fresh?
    ensures ExpiredAt(r, early).Fresh?
  {
  }

  lemma WaivedEarlier(t: Table, c: string, d: string, early: int, late: int)
    requires early <= late && Waived(t, c, d, late)
    ensures Waived(t, c, d, early)
  {
    hide Covers, ExpiredAt, StatusOf;
    var w :| Ref(Waivers, w) in t && Covers(t[Ref(Waivers, w)], c, d) && Active(t[Ref(Waivers, w)], late);
    FreshEarlier(t[Ref(Waivers, w)], early, late);
    assert Active(t[Ref(Waivers, w)], early);
  }

  lemma ReadyEarlier(t: Table, d: string, early: int, late: int)
    requires early <= late && Ready(t, d, late)
    ensures Ready(t, d, early)
  {
    hide ExpiredAt, StatusOf, TextOf, Acceptable;
    var p := TextOf(t[Ref(Dependencies, d)], "profile_ref");
    if p != "" {
      var r :| Ref(Readiness, r) in t && TextOf(t[Ref(Readiness, r)], "profile_ref") == p && Passing(t[Ref(Readiness, r)], late);
      FreshEarlier(t[Ref(Readiness, r)], early, late);
      assert Passing(t[Ref(Readiness, r)], early);
    }
  }

  lemma DischargedEarlier(t: Table, c: string, early: int, late: int)
    requires early <= late && Discharged(t, c, late)
    ensures Discharged(t, c, early)
  {
    hide Waived, Waivable, Ready, Evidenced, Requires;
    if Requires(t, c) == [] {
      if Waived(t, c, "", late) { WaivedEarlier(t, c, "", early, late); }
    } else {
      forall d | d in Requires(t, c) ensures Carried(t, c, d, early) {
        assert Carried(t, c, d, late);
        if Waived(t, c, d, late) { WaivedEarlier(t, c, d, early, late); } else { ReadyEarlier(t, d, early, late); }
      }
    }
  }

  /** With the records fixed, an analysis that fails at some time never passes later. */
  lemma PassingIsAntitone(t: Table, early: int, late: int)
    requires early <= late && AnalysisOf(t, late).status == Passed
    ensures AnalysisOf(t, early).status == Passed
  {
    hide AnalysisOf, Unopposed, Discharged, Accepted;
    AnalysisDecides(t, late);
    AnalysisDecides(t, early);
    forall c | Accepted(t, c) ensures Unopposed(t, c) && Discharged(t, c, early) {
      DischargedEarlier(t, c, early, late);
    }
  }

  ghost predicate OnlyWaiverAdded(t: Table, t': Table, id: string) {
    && Ref(Waivers, id) !in t && Ref(Waivers, id) in t'
    && (forall r | r in t :: r in t' && t'[r] == t[r])
    && (forall r | r in t' :: r in t || r == Ref(Waivers, id))
  }

  lemma SameOtherRecords(t: Table, t': Table, id: string, k: Kind, x: string)
    requires OnlyWaiverAdded(t, t', id) && k != Waivers
    ensures Ref(k, x) in t' <==> Ref(k, x) in t
    ensures Get(t', k, x) == Get(t, k, x)
  {
  }

  lemma StillCarried(t: Table, t': Table, id: string, c: string, d: string, now: int)
    requires OnlyWaiverAdded(t, t', id) && Active(t'[Ref(Waivers, id)], now) && Carried(t, c, d, now)
    ensures Carried(t', c, d, now)
  {
    hide Covers, Active, Ready;
    if Waived(t, c, d, now) {
      StillWaived(t, t', id, c, d, now);
    } else if Covers(t'[Ref(Waivers, id)], c, d) {
      assert Waived(t', c, d, now);
    } else {
      assert !Waivable(t', c, d) by {
        forall w | Ref(Waivers, w) in t' ensures !Covers(t'[Ref(Waivers, w)], c, d) {
          assert w == id || Ref(Waivers, w) in t;
        }
      }
      StillReady(t, t', id, d, now);
    }
  }

  lemma StillWaived(t: Table, t': Table, id: string, c: string, d: string, now: int)
    requires OnlyWaiverAdded(t, t', id) && Waived(t, c, d, now)
    ensures Waived(t', c, d, now)
  {
    hide Covers, Active;
    var w :| Ref(Waivers, w) in t && Covers(t[Ref(Waivers, w)], c, d) && Active(t[Ref(Waivers, w)], now);
    assert Ref(Waivers, w) in t';
  }

  lemma StillReady(t: Table, t': Table, id: string, d: string, now: int)
    requires OnlyWaiverAdded(t, t', id) && Ready(t, d, now)
    ensures Ready(t', d, now)
  {
    hide Passing, StatusOf, TextOf, Acceptable;
    var p := TextOf(t[Ref(Dependencies, d)], "profile_ref");
    if p != "" {
      var r :| Ref(Readiness, r) in t && TextOf(t[Ref(Readiness, r)], "profile_ref") == p && Passing(t[Ref(Readiness, r)], now);
      assert Ref(Readiness, r) in t';
    }
  }

  lemma StillDischarged(t: Table, t': Table, id: string, c: string, now: int)
    requires OnlyWaiverAdded(t, t', id) && Active(t'[Ref(Waivers, id)], now) && Discharged(t, c, now)
    ensures Discharged(t', c, now)
  {
    hide Carried, OnlyWaiverAdded, Active, Waived, ListOf;
    SameOtherRecords(t, t', id, Claims, c);
    if Requires(t, c) == [] {
      if Waived(t, c, "", now) {
        StillWaived(t, t', id, c, "", now);
      } else {
        var e :| Ref(Evidence, e) in t && c in ListOf(t[Ref(Evidence, e)], "covers");
        SameOtherRecords(t, t', id, Evidence, e);
        assert Ref(Evidence, e) in t' && t'[Ref(Evidence, e)] == t[Ref(Evidence, e)];
      }
    } else {
      forall d | d in Requires(t', c) ensures Carried(t', c, d, now) {
        StillCarried(t, t', id, c, d, now);
      }
    }
  }

  /** Adding an active waiver never turns a passed analysis into a failed one. */
  lemma ActiveWaiverIsHarmless(t: Table, t': Table, id: string, now: int)
    requires OnlyWaiverAdded(t, t', id) && Active(t'[Ref(Waivers, id)], now)
    requires AnalysisOf(t, now).status == Passed
    ensures AnalysisOf(t', now).status == Passed
  {
    hide AnalysisOf, Discharged, StatusOf, Active, OnlyWaiverAdded, ListOf;
    AnalysisDecides(t, now);
    AnalysisDecides(t', now);
    forall c ensures Accepted(t', c) <==> Accepted(t, c) {
      SameOtherRecords(t, t', id, Claims, c);
      assert Ref(Claims, c) in t ==> Get(t, Claims, c) == t[Ref(Claims, c)];
      assert Ref(Claims, c) in t' ==> Get(t', Claims, c) == t'[Ref(Claims, c)];
    }
    forall c | Accepted(t', c) ensures Unopposed(t', c) && Discharged(t', c, now) {
      SameOtherRecords(t, t', id, Claims, c);
      assert Unopposed(t, c);
      StillDischarged(t, t', id, c, now);
    }
    var c :| Accepted(t, c);
    assert Accepted(t', c);
  }

  /** A covering waiver that is not active blocks, even where the dependency itself is ready. */
  lemma InactiveWaiverVetoes(t: Table, c: string, d: string, now: int)
    requires Accepted(t, c) && d in Requires(t, c) && Waivable(t, c, d) && !Waived(t, c, d, now)
    ensures AnalysisOf(t, now).status == Failed
  {
    hide AnalysisOf, Unopposed, Accepted, Waived, Waivable, Ready, Requires;
    AnalysisDecides(t, now);
    assert !Carried(t, c, d, now);
  }

  // ---------------------------------------------------------------------------------------
  // The order of findings
  // ---------------------------------------------------------------------------------------

  /** Claims come in the order of their ids, and a claim's conflicts before everything else that it is blamed for. */
  ghost predicate InClaimOrder(fs: seq<Finding>) {
    forall i, j | 0 <= i < j < |fs| ::
      && Leq(fs[i].claim, fs[j].claim)
      && (fs[i].claim == fs[j].claim && fs[j].defect.ClaimConflicts? ==> fs[i].defect.ClaimConflicts?)
  }

  ghost predicate NoConflicts(fs: seq<Finding>) {
    forall f | f in fs :: !f.defect.ClaimConflicts?
  }

  lemma {:induction false} OnlyConflicts(t: Table, c: string, os: seq<string>)
    ensures forall f | f in ConflictFindings(t, c, os) :: f.defect.ClaimConflicts?
  {
    hide Accepted;
    if os != [] { OnlyConflicts(t, c, os[..|os| - 1]); }
  }

  lemma ReadinessNoConflict(t: Table, ids: seq<string>, c: string, d: string, p: string, now: int)
    ensures NoConflicts(ReadinessFinding(t, ids, c, d, p, now)) && NoConflicts(ProfileFinding(t, c, d, p))
  {
    hide ShowAll, StatusOf, Acceptable, TextOf;
  }

  lemma NoConflict(t: Table, c: string, d: string, now: int)
    ensures NoConflicts(FindingOf(t, c, d, now))
  {
    hide ScanWaivers, Listing, StatusOf, TextOf, ReadinessFinding, ProfileFinding;
    var p := TextOf(Get(t, Dependencies, d), "profile_ref");
    ReadinessNoConflict(t, Listing(ReadinessOf(t, p)), c, d, p, now);
  }

  lemma {:induction false} NoDependencyConflicts(t: Table, c: string, ds: seq<string>, now: int)
    ensures NoConflicts(DependencyFindings(t, c, ds, now))
  {
    hide FindingOf;
    if ds != [] {
      NoDependencyConflicts(t, c, ds[..|ds| - 1], now);
      NoConflict(t, c, ds[|ds| - 1], now);
    }
  }

  lemma ClaimInOrder(t: Table, c: string, now: int)
    ensures InClaimOrder(ClaimFindings(t, c, now))
  {
    hide DependencyFindings, ConflictFindings, Evidenced, ScanWaivers, Listing, Requires, ListOf, Leq;
    LeqReflexive(c);
    ClaimBlames(t, c, now);
    OnlyConflicts(t, c, ListOf(Get(t, Claims, c), "conflicts_with"));
    NoDependencyConflicts(t, c, Requires(t, c), now);
    var fs := ClaimFindings(t, c, now);
    assert forall i | 0 <= i < |fs| :: fs[i] in fs;
  }

  lemma {:induction false} AllInOrder(t: Table, cs: seq<string>, now: int)
    requires Strict(cs)
    ensures InClaimOrder(AllFindings(t, cs, now)) && forall f | f in AllFindings(t, cs, now) :: f.claim in cs
  {
    hide ClaimFindings, Leq;
    if cs != [] {
      var init, c := cs[..|cs| - 1], cs[|cs| - 1];
      assert cs == init + [c];
      StrictInit(cs);
      AllInOrder(t, init, now);
      ClaimInOrder(t, c, now);
      ClaimBlames(t, c, now);
      var a, b := AllFindings(t, init, now), ClaimFindings(t, c, now);
      var fs := a + b;
      forall i, j | 0 <= i < j < |fs|
        ensures && Leq(fs[i].claim, fs[j].claim)
                && (fs[i].claim == fs[j].claim && fs[j].defect.ClaimConflicts? ==> fs[i].defect.ClaimConflicts?)
      {
        if j < |a| {
          assert fs[i] == a[i] && fs[j] == a[j];
        } else if i >= |a| {
          assert fs[i] == b[i - |a|] && fs[j] == b[j - |a|];
        } else {
          assert fs[i] == a[i] && fs[j] == b[j - |a|] && a[i] in a && b[j - |a|] in b;
        }
      }
    }
  }

  lemma {:induction false} StrictInit(cs: seq<string>)
    requires Strict(cs) && cs != []
    ensures var init, c := cs[..|cs| - 1], cs[|cs| - 1];
            Strict(init) && c !in init && forall x | x in init :: Leq(x, c)
  {
    hide Leq;
    if |cs| > 1 {
      StrictInit(cs[1..]);
      assert cs == [cs[0]] + cs[1..];
      assert cs[..|cs| - 1] == [cs[0]] + cs[1..][..|cs| - 2];
      assert cs[1..][|cs| - 2] in cs[1..];
    }
  }

  /** The findings of an analysis come claim by claim in the order of the ids, conflicts first. */
  lemma FindingsInOrder(t: Table, now: int)
    ensures InClaimOrder(AnalysisOf(t, now).findings)
  {
    hide AllFindings, Listing, AcceptedIds;
    AllInOrder(t, Listing(AcceptedIds(t)), now);
  }
}

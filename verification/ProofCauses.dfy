/**
Why a finding is made: for every finding, with its defect, its route and the ids that it names, the state of the records
that causes it. Nothing here speaks of the order in which records are looked at.
*/
module ProofCauses {
  import opened Text
  import opened Ordering
  import opened ProofFacts
  import opened ProofReadiness

  // ---------------------------------------------------------------------------------------
  // What records say
  // ---------------------------------------------------------------------------------------

  /** A word, in any letter case; a field that is not there says nothing. */
  predicate Says(r: Record, field: string, word: string) {
    if field in r then Lower(TrimSpace(r[field].text)) == word else word == ""
  }

  predicate Holds(r: Record, field: string, text: string) {
    if field in r then TrimSpace(r[field].text) == text else text == ""
  }

  ghost predicate Lists(r: Record, field: string, x: string) {
    x != "" && field in r && exists y :: y in r[field].items && TrimSpace(y) == x
  }

  /** It says when it expires, but not readably. */
  predicate Garbled(r: Record) {
    "expires_at" in r && TrimSpace(r["expires_at"].text) != "" && r["expires_at"].stamp == None
  }

  predicate Lapsed(r: Record, now: int) {
    && "expires_at" in r && TrimSpace(r["expires_at"].text) != ""
    && r["expires_at"].stamp.Some? && r["expires_at"].stamp.value < now
  }

  // ---------------------------------------------------------------------------------------
  // Claims and waivers
  // ---------------------------------------------------------------------------------------

  ghost predicate Stands(t: Table, c: string) {
    Ref(Claims, c) in t && Says(t[Ref(Claims, c)], "status", "accepted")
  }

  ghost predicate Needs(t: Table, c: string, d: string) {
    Ref(Claims, c) in t && Lists(t[Ref(Claims, c)], "requires", d)
  }

  ghost predicate Backed(t: Table, c: string) {
    exists e :: Ref(Evidence, e) in t && Lists(t[Ref(Evidence, e)], "covers", c)
  }

  ghost predicate Speaks(t: Table, w: string, c: string, d: string) {
    Ref(Waivers, w) in t && (Lists(t[Ref(Waivers, w)], "claims", c) || Lists(t[Ref(Waivers, w)], "dependencies", d))
  }

  ghost predicate InForce(t: Table, w: string, now: int) {
    Ref(Waivers, w) in t && Says(t[Ref(Waivers, w)], "status", "active") && !Garbled(t[Ref(Waivers, w)]) && !Lapsed(t[Ref(Waivers, w)], now)
  }

  /** Waivers speak of the pair, none of them is in force, and `w` has the least id. */
  ghost predicate Idle(t: Table, w: string, c: string, d: string, now: int) {
    Speaks(t, w, c, d) && forall v | Speaks(t, v, c, d) :: !InForce(t, v, now) && Leq(w, v)
  }

  /** What is wrong with a waiver that is not in force. */
  predicate IdleDefect(w: Record, now: int, defect: Defect) {
    || (defect == WaiverUnreadable && (Garbled(w) || (!Lapsed(w, now) && Says(w, "status", "invalid_expiry"))))
    || (defect == WaiverExpired && !Garbled(w) && (Lapsed(w, now) || Says(w, "status", "expired")))
    || (defect == WaiverRevoked && !Garbled(w) && !Lapsed(w, now) && Says(w, "status", "revoked"))
    || (defect == WaiverInactive && !Garbled(w) && !Lapsed(w, now) &&
        !Says(w, "status", "invalid_expiry") && !Says(w, "status", "expired") && !Says(w, "status", "revoked"))
  }

  // ---------------------------------------------------------------------------------------
  // Readiness records
  // ---------------------------------------------------------------------------------------

  datatype Trouble = Failing | Unclear | Outdated | Held

  predicate Troubled(r: Record, now: int, k: Trouble) {
    match k
    case Failing => !Garbled(r) && (Says(r, "status", "failed") || Says(r, "smoke_status", "failed"))
    case Unclear => Garbled(r)
    case Outdated =>
      && !Garbled(r) && !Says(r, "status", "failed") && !Says(r, "smoke_status", "failed")
      && (Lapsed(r, now) || Says(r, "status", "stale"))
    case Held =>
      !Garbled(r) && !Lapsed(r, now) && Says(r, "status", "blocked") && !Says(r, "smoke_status", "failed")
  }

  ghost predicate Serves(t: Table, r: string, p: string) {
    Ref(Readiness, r) in t && Holds(Get(t, Readiness, r), "profile_ref", p)
  }

  predicate Passed(r: Record, now: int) {
    Says(r, "status", "passed") && !Says(r, "smoke_status", "failed") && !Garbled(r) && !Lapsed(r, now)
  }

  /** Among the readiness records of the profile in that trouble, the one with the greatest id. */
  ghost predicate Latest(t: Table, r: string, p: string, now: int, k: Trouble) {
    && Serves(t, r, p) && Troubled(Get(t, Readiness, r), now, k)
    && forall q | Serves(t, q, p) && Troubled(Get(t, Readiness, q), now, k) :: Leq(q, r)
  }

  ghost predicate Free(t: Table, p: string, now: int, k: Trouble) {
    forall q | Serves(t, q, p) :: !Troubled(Get(t, Readiness, q), now, k)
  }

  // ---------------------------------------------------------------------------------------
  // Causes
  // ---------------------------------------------------------------------------------------

  ghost predicate ConflictCause(t: Table, c: string, f: Finding) {
    exists o :: Ref(Claims, c) in t && Lists(t[Ref(Claims, c)], "conflicts_with", o) && Stands(t, o) &&
      f == Finding(ClaimConflicts(o), Blocker, "coordinator", c, "", "", "", "")
  }

  ghost predicate WaiverCause(t: Table, c: string, d: string, now: int, f: Finding) {
    && Idle(t, f.waiver, c, d, now) && IdleDefect(t[Ref(Waivers, f.waiver)], now, f.defect)
    && f == Finding(f.defect, Blocker, "coordinator", c, d, "", "", f.waiver)
  }

  /** No record of the profile passed; the first of the troubles that is there is reported, by its latest record. */
  ghost predicate ReadinessCause(t: Table, p: string, now: int, defect: Defect, r: string) {
    && (forall q | Serves(t, q, p) :: !Passed(Get(t, Readiness, q), now))
    && (|| (defect == ReadinessMissing && r == "" && forall q :: !Serves(t, q, p))
        || (defect == ReadinessFailed && Latest(t, r, p, now, Failing))
        || (defect == ReadinessUnreadable && Free(t, p, now, Failing) && Latest(t, r, p, now, Unclear))
        || (defect == ReadinessStale && Free(t, p, now, Failing) && Free(t, p, now, Unclear) && Latest(t, r, p, now, Outdated))
        || (defect == ReadinessBlocked && Free(t, p, now, Failing) && Free(t, p, now, Unclear) && Free(t, p, now, Outdated) &&
            Latest(t, r, p, now, Held))
        || (defect == ReadinessUnknown && r == "" && (exists q :: Serves(t, q, p)) && forall k :: Free(t, p, now, k)))
  }

  predicate Fit(profile: Record) {
    || Says(profile, "status", "") || Says(profile, "status", "ready") || Says(profile, "status", "passed")
    || Says(profile, "status", "accepted") || Says(profile, "status", "active")
  }

  predicate Unfit(profile: Record) {
    Says(profile, "status", "rejected") || Says(profile, "status", "revoked") || Says(profile, "status", "failed")
  }

  /** What a ready dependency is blamed for by its profile `p`. */
  ghost predicate ProfileCause(t: Table, c: string, d: string, p: string, now: int, f: Finding) {
    if Ref(Profiles, p) !in t then f == Finding(ProfileMissing, Blocker, "test_harness", c, d, p, "", "")
    else
      var profile := t[Ref(Profiles, p)];
      if Fit(profile) then
        ReadinessCause(t, p, now, f.defect, f.readiness) && f == Finding(f.defect, Blocker, "test_harness", c, d, p, f.readiness, "")
      else if Unfit(profile) then
        && f.defect.ProfileRejected? && Holds(profile, "rejection_reason", f.defect.reason)
        && f == Finding(f.defect, Blocker, "coordinator", c, d, p, "", "")
      else
        && f.defect.ProfileIncomplete? && Says(profile, "status", f.defect.status)
        && f == Finding(f.defect, Blocker, "test_harness", c, d, p, "", "")
  }

  /** Where the dependency wants to go next; the test harness unless it says. */
  predicate NextRoute(dep: Record, route: string) {
    if Says(dep, "next_route", "") then route == "test_harness" else Says(dep, "next_route", route)
  }

  predicate NotReady(dep: Record) {
    Says(dep, "status", "missing") || Says(dep, "status", "unknown") || Says(dep, "status", "")
  }

  predicate Known(dep: Record) {
    Says(dep, "status", "waived") || Says(dep, "status", "ready") || NotReady(dep) || Says(dep, "status", "failed")
  }

  /** What a dependency record is blamed for when no waiver speaks of it. */
  ghost predicate RecordCause(t: Table, c: string, d: string, dep: Record, now: int, f: Finding) {
    || (Says(dep, "status", "waived") && f == Finding(WaiverMissing, Blocker, "coordinator", c, d, "", "", ""))
    || (Says(dep, "status", "ready") && !Holds(dep, "profile_ref", "") && Holds(dep, "profile_ref", f.profile) &&
        ProfileCause(t, c, d, f.profile, now, f))
    || (NotReady(dep) && NextRoute(dep, f.route) && f == Finding(DependencyNotReady, Blocker, f.route, c, d, "", "", ""))
    || (Says(dep, "status", "failed") && NextRoute(dep, f.route) && f == Finding(DependencyFailed, Blocker, f.route, c, d, "", "", ""))
    || (!Known(dep) && f.defect.DependencyUnknown? && Says(dep, "status", f.defect.status) &&
        f == Finding(f.defect, Blocker, "coordinator", c, d, "", "", ""))
  }

  ghost predicate DependencyCause(t: Table, c: string, d: string, now: int, f: Finding) {
    if exists w :: Speaks(t, w, c, d) then WaiverCause(t, c, d, now, f)
    else if Ref(Dependencies, d) !in t then f == Finding(DependencyUnrecorded, Blocker, "test_harness", c, d, "", "", "")
    else RecordCause(t, c, d, t[Ref(Dependencies, d)], now, f)
  }

  /** What a claim that needs nothing and has no evidence is blamed for. */
  ghost predicate BareCause(t: Table, c: string, now: int, f: Finding) {
    if exists w :: Speaks(t, w, c, "") then WaiverCause(t, c, "", now, f)
    else f == Finding(ClaimUnproved, Blocker, "test_harness", c, "", "", "", "")
  }

  ghost predicate ClaimCause(t: Table, c: string, now: int, f: Finding) {
    || ConflictCause(t, c, f)
    || (exists d :: Needs(t, c, d) && DependencyCause(t, c, d, now, f))
    || ((forall d :: !Needs(t, c, d)) && !Backed(t, c) && BareCause(t, c, now, f))
  }

  /** Why the analysis makes a finding. */
  ghost predicate Cause(t: Table, now: int, f: Finding) {
    if exists c :: Stands(t, c) then Stands(t, f.claim) && ClaimCause(t, f.claim, now, f)
    else f == Finding(NoneAccepted, Blocker, "coordinator", "", "", "", "", "")
  }

  // ---------------------------------------------------------------------------------------
  // The fields of records are read as they are
  // ---------------------------------------------------------------------------------------

  lemma SaysStatus(r: Record, f: string, word: string)
    ensures Says(r, f, word) <==> StatusOf(r, f) == word
    ensures Holds(r, f, word) <==> TextOf(r, f) == word
  {
  }

  lemma {:induction false} CleanLists(xs: seq<string>, x: string)
    ensures x in Clean(xs) <==> x != "" && exists y :: y in xs && TrimSpace(y) == x
  {
    hide TrimSpace;
    if xs != [] {
      CleanLists(xs[1..], x);
      assert xs == [xs[0]] + xs[1..];
      assert xs[0] in xs && forall y | y in xs[1..] :: y in xs;
    }
  }

  lemma ListsItems(r: Record, f: string, x: string)
    ensures Lists(r, f, x) <==> x in ListOf(r, f)
  {
    hide TrimSpace, Clean;
    if f in r { CleanLists(r[f].items, x); }
  }

  lemma Expires(r: Record, now: int)
    ensures Garbled(r) <==> ExpiredAt(r, now).Unreadable?
    ensures Lapsed(r, now) <==> ExpiredAt(r, now).Expired?
  {
    hide TrimSpace;
  }

  lemma StandsAccepted(t: Table, c: string)
    ensures Stands(t, c) <==> Accepted(t, c)
  {
    if Ref(Claims, c) in t { SaysStatus(t[Ref(Claims, c)], "status", "accepted"); }
  }

  lemma NeedsRequires(t: Table, c: string, d: string)
    ensures Needs(t, c, d) <==> d in Requires(t, c)
  {
    hide Lists, ListOf;
    ListsItems(Get(t, Claims, c), "requires", d);
    assert Ref(Claims, c) !in t ==> !Lists(map[], "requires", d) by { NothingListed("requires", d); }
  }

  lemma NothingListed(f: string, x: string)
    ensures !Lists(map[], f, x)
  {
  }

  lemma BackedEvidenced(t: Table, c: string)
    ensures Backed(t, c) <==> Evidenced(t, c)
  {
    hide Lists, ListOf;
    forall e | Ref(Evidence, e) in t ensures Lists(t[Ref(Evidence, e)], "covers", c) <==> c in ListOf(t[Ref(Evidence, e)], "covers") {
      ListsItems(t[Ref(Evidence, e)], "covers", c);
    }
  }

  // ---------------------------------------------------------------------------------------
  // Waivers
  // ---------------------------------------------------------------------------------------

  lemma SpeaksCovers(t: Table, w: string, c: string, d: string, now: int)
    requires Ref(Waivers, w) in t
    ensures Speaks(t, w, c, d) <==> Covers(t[Ref(Waivers, w)], c, d)
    ensures InForce(t, w, now) <==> Active(t[Ref(Waivers, w)], now)
  {
    hide Lists, ListOf, Says, StatusOf, Garbled, Lapsed, ExpiredAt;
    var r := t[Ref(Waivers, w)];
    ListsItems(r, "claims", c);
    ListsItems(r, "dependencies", d);
    assert Lists(r, "claims", c) ==> c != "" by { Named(r, "claims", c); }
    assert Lists(r, "dependencies", d) ==> d != "" by { Named(r, "dependencies", d); }
    SaysStatus(r, "status", "active");
    Expires(r, now);
  }

  lemma Named(r: Record, f: string, x: string)
    ensures Lists(r, f, x) ==> x != ""
  {
  }

  /** The first inactive waiver is reported, with what made it inactive. */
  lemma {:induction false} ScanFirst(t: Table, ids: seq<string>, c: string, d: string, now: int)
    requires Sorted(ids)
    ensures var s := ScanWaivers(t, ids, c, d, now);
            s.InactiveWaiver? ==>
              && s.id in ids && Covers(Get(t, Waivers, s.id), c, d) && s.status == InactiveStatus(Get(t, Waivers, s.id), now)
              && forall v | v in ids && Covers(Get(t, Waivers, v), c, d) :: Leq(s.id, v)
  {
    hide Covers, Active, Get, InactiveStatus, Leq;
    if ids != [] {
      ScanFirst(t, ids[1..], c, d, now);
      assert ids == [ids[0]] + ids[1..];
      forall v | v in ids ensures Leq(ids[0], v) { HeadLeast(ids, v); }
    }
  }

  lemma IdleWords()
    ensures "expired" != "revoked" && "expired" != "invalid_expiry" && "revoked" != "invalid_expiry"
  {
    assert "expired"[0] == 'e' && "revoked"[0] == 'r' && "invalid_expiry"[0] == 'i';
  }

  lemma IdleDefects(w: Record, now: int, id: string, c: string, d: string, defect: Defect)
    ensures IdleDefect(w, now, defect) <==> defect == InactiveFinding(c, d, InactiveWaiver(id, InactiveStatus(w, now))).defect
  {
    hide Says, StatusOf, ExpiredAt, Garbled, Lapsed;
    IdleWords();
    Expires(w, now);
    SaysStatus(w, "status", "expired");
    SaysStatus(w, "status", "revoked");
    SaysStatus(w, "status", "invalid_expiry");
  }

  lemma IdleOnce(t: Table, v: string, w: string, c: string, d: string, now: int)
    requires Idle(t, v, c, d, now) && Idle(t, w, c, d, now)
    ensures v == w
  {
    hide Speaks, InForce, Leq;
    LeqAntisymmetric(v, w);
  }

  lemma WaiversListed(t: Table, c: string, d: string, now: int)
    ensures var s := ScanWaivers(t, Listing(IdsOf(t, Waivers)), c, d, now);
            && (s.ActiveWaiver? <==> exists w :: Speaks(t, w, c, d) && InForce(t, w, now))
            && (s.NoWaiver? <==> forall w :: !Speaks(t, w, c, d))
            && (s.InactiveWaiver? ==>
                  Ref(Waivers, s.id) in t && Idle(t, s.id, c, d, now) && s.status == InactiveStatus(t[Ref(Waivers, s.id)], now))
  {
    hide Covers, Active, ScanWaivers, Listing, IdsOf, Speaks, InForce, InactiveStatus, Leq, Sorted;
    var ids := Listing(IdsOf(t, Waivers));
    forall w ensures w in ids <==> Ref(Waivers, w) in t { IdsMembers(t, Waivers, w); }
    forall w | Speaks(t, w, c, d) || InForce(t, w, now) ensures Ref(Waivers, w) in t { SpeaksRecorded(t, w, c, d, now); }
    forall w | Ref(Waivers, w) in t
      ensures Speaks(t, w, c, d) <==> Covers(t[Ref(Waivers, w)], c, d)
      ensures InForce(t, w, now) <==> Active(t[Ref(Waivers, w)], now) {
      SpeaksCovers(t, w, c, d, now);
    }
    WaiversDecide(t, c, d, now);
    ScanFirst(t, ids, c, d, now);
    assert (exists w :: Speaks(t, w, c, d) && InForce(t, w, now)) <==> Waived(t, c, d, now);
    assert (forall w :: !Speaks(t, w, c, d)) <==> !Waivable(t, c, d);
  }

  lemma SpeaksRecorded(t: Table, w: string, c: string, d: string, now: int)
    requires Speaks(t, w, c, d) || InForce(t, w, now)
    ensures Ref(Waivers, w) in t
  {
  }

  /** A finding about an inactive waiver is made exactly of the idle one with the least id. */
  lemma WaiverBlamed(t: Table, c: string, d: string, now: int, f: Finding)
    ensures var s := ScanWaivers(t, Listing(IdsOf(t, Waivers)), c, d, now);
            WaiverCause(t, c, d, now, f) <==> s.InactiveWaiver? && f == InactiveFinding(c, d, s)
  {
    hide ScanWaivers, Listing, IdsOf, Speaks, InForce, InactiveStatus, IdleDefect, Leq;
    var s := ScanWaivers(t, Listing(IdsOf(t, Waivers)), c, d, now);
    WaiversListed(t, c, d, now);
    if s.InactiveWaiver? {
      IdleDefects(t[Ref(Waivers, s.id)], now, s.id, c, d, f.defect);
      if WaiverCause(t, c, d, now, f) { IdleOnce(t, f.waiver, s.id, c, d, now); }
    }
  }

  // ---------------------------------------------------------------------------------------
  // Readiness records
  // ---------------------------------------------------------------------------------------

  function Of(s: Shown, k: Trouble): Option<string>
    requires s.Shown?
  {
    match k
    case Failing => s.failed
    case Unclear => s.unreadable
    case Outdated => s.stale
    case Held => s.blocked
  }

  lemma RecordWords()
    ensures "passed" != "failed" && "passed" != "stale" && "passed" != "blocked"
    ensures "failed" != "stale" && "failed" != "blocked" && "stale" != "blocked"
  {
    assert |"passed"| == 6 && |"failed"| == 6 && |"stale"| == 5 && |"blocked"| == 7 && "passed"[0] != "failed"[0];
  }

  lemma PassedPassing(r: Record, now: int)
    ensures Passed(r, now) <==> Passing(r, now)
  {
    hide Says, StatusOf, ExpiredAt, Garbled, Lapsed;
    Expires(r, now);
    SaysStatus(r, "status", "passed");
    SaysStatus(r, "smoke_status", "failed");
  }

  /** One record is noted for the one trouble it is in. */
  lemma ShowStep(t: Table, id: string, now: int, seen: Shown, k: Trouble)
    requires seen.Shown? && !Passed(Get(t, Readiness, id), now)
    ensures var next := ShowRecord(t, id, now, seen);
            next.Shown? && Of(next, k) == if Troubled(Get(t, Readiness, id), now, k) then Some(id) else Of(seen, k)
  {
    hide Says, StatusOf, ExpiredAt, Garbled, Lapsed, Get, Passing;
    var r := Get(t, Readiness, id);
    PassedPassing(r, now);
    RecordWords();
    Expires(r, now);
    SaysStatus(r, "status", "passed");
    SaysStatus(r, "status", "failed");
    SaysStatus(r, "status", "stale");
    SaysStatus(r, "status", "blocked");
    SaysStatus(r, "smoke_status", "failed");
  }

  ghost predicate LastIn(t: Table, ids: seq<string>, now: int, k: Trouble, x: string) {
    && x in ids && Troubled(Get(t, Readiness, x), now, k)
    && forall y | y in ids && Troubled(Get(t, Readiness, y), now, k) :: Leq(y, x)
  }

  lemma {:induction false} ShowLast(t: Table, ids: seq<string>, now: int, seen: Shown, k: Trouble)
    requires Sorted(ids) && seen.Shown? && forall id | id in ids :: !Passed(Get(t, Readiness, id), now)
    ensures var s := ShowAll(t, ids, now, seen);
            && s.Shown?
            && if exists id :: id in ids && Troubled(Get(t, Readiness, id), now, k)
               then Of(s, k).Some? && LastIn(t, ids, now, k, Of(s, k).value)
               else Of(s, k) == Of(seen, k)
    decreases |ids|
  {
    hide Troubled, Passed, Get, ShowRecord, Leq, Of;
    if ids != [] {
      var x, rest := ids[0], ids[1..];
      assert ids == [x] + rest;
      forall y | y in ids ensures Leq(x, y) { HeadLeast(ids, y); }
      ShowStep(t, x, now, seen, k);
      ShowLast(t, rest, now, ShowRecord(t, x, now, seen), k);
      if !exists id :: id in rest && Troubled(Get(t, Readiness, id), now, k) {
        forall y | y in ids && Troubled(Get(t, Readiness, y), now, k) ensures y == x {}
        LeqReflexive(x);
      }
    }
  }

  lemma ServesListed(t: Table, p: string, r: string)
    ensures r in Listing(ReadinessOf(t, p)) <==> Serves(t, r, p)
  {
    hide Listing, ReadinessOf, TextOf, Holds;
    ReadinessMembers(t, p, r);
    if Ref(Readiness, r) in t { SaysStatus(Get(t, Readiness, r), "profile_ref", p); }
  }

  /** After all records of a profile, none of them passed, every trouble is noted by its latest record. */
  lemma TroublesListed(t: Table, p: string, now: int, k: Trouble)
    requires forall q | Serves(t, q, p) :: !Passed(Get(t, Readiness, q), now)
    ensures var s := ShowAll(t, Listing(ReadinessOf(t, p)), now, UNSEEN);
            s.Shown? && if Of(s, k).Some? then Latest(t, Of(s, k).value, p, now, k) else Free(t, p, now, k)
  {
    hide Listing, ReadinessOf, Passed, Troubled, Serves, ShowAll, Get, Leq, Sorted;
    var ids := Listing(ReadinessOf(t, p));
    forall r ensures r in ids <==> Serves(t, r, p) { ServesListed(t, p, r); }
    ShowLast(t, ids, now, UNSEEN, k);
    assert Of(UNSEEN, k) == None;
  }

  lemma LatestOnce(t: Table, r: string, q: string, p: string, now: int, k: Trouble)
    requires Latest(t, r, p, now, k)
    ensures !Free(t, p, now, k) && (Latest(t, q, p, now, k) ==> r == q)
  {
    hide Serves, Troubled, Leq;
    if Latest(t, q, p, now, k) { LeqAntisymmetric(r, q); }
  }

  lemma PassedReadiness(t: Table, c: string, d: string, p: string, now: int)
    requires exists q :: Serves(t, q, p) && Passed(Get(t, Readiness, q), now)
    ensures ReadinessFinding(t, Listing(ReadinessOf(t, p)), c, d, p, now) == []
  {
    hide ReadinessFinding, Says, StatusOf, TextOf, Garbled, Lapsed, ExpiredAt, Passed, Passing, Holds;
    var q :| Serves(t, q, p) && Passed(Get(t, Readiness, q), now);
    PassedPassing(Get(t, Readiness, q), now);
    SaysStatus(Get(t, Readiness, q), "profile_ref", p);
    ReadinessDecides(t, c, d, p, now);
  }

  /** There is one trouble to blame at most. */
  lemma OneTrouble(t: Table, p: string, now: int, defect: Defect, r: string, defect': Defect, r': string)
    requires ReadinessCause(t, p, now, defect, r) && ReadinessCause(t, p, now, defect', r')
    ensures defect == defect' && r == r'
  {
    hide Passed, Troubled, Serves, Latest, Free;
    forall k, x, y | Latest(t, x, p, now, k) && Latest(t, y, p, now, k) ensures x == y { LatestOnce(t, x, y, p, now, k); }
    forall k, x | Latest(t, x, p, now, k) ensures !Free(t, p, now, k) && Serves(t, x, p) {
      LatestOnce(t, x, x, p, now, k);
      LatestServes(t, x, p, now, k);
    }
  }

  lemma LatestServes(t: Table, r: string, p: string, now: int, k: Trouble)
    requires Latest(t, r, p, now, k)
    ensures Serves(t, r, p)
  {
  }

  /** What the finding blames is in trouble. */
  lemma TroubleBlamed(t: Table, c: string, d: string, p: string, now: int) returns (f: Finding)
    requires forall q | Serves(t, q, p) :: !Passed(Get(t, Readiness, q), now)
    ensures ReadinessFinding(t, Listing(ReadinessOf(t, p)), c, d, p, now) == [f]
    ensures f == Finding(f.defect, Blocker, "test_harness", c, d, p, f.readiness, "") && ReadinessCause(t, p, now, f.defect, f.readiness)
  {
    hide ShowAll, Listing, ReadinessOf, Passed, Troubled, Serves, Latest, Free;
    var ids := Listing(ReadinessOf(t, p));
    forall r ensures r in ids <==> Serves(t, r, p) { ServesListed(t, p, r); }
    TroublesListed(t, p, now, Failing);
    TroublesListed(t, p, now, Unclear);
    TroublesListed(t, p, now, Outdated);
    TroublesListed(t, p, now, Held);
    if ids != [] { assert ids[0] in ids; }
    var s := ShowAll(t, ids, now, UNSEEN);
    if s.failed.None? && s.unreadable.None? && s.stale.None? && s.blocked.None? {
      forall k ensures Free(t, p, now, k) { assert k == Failing || k == Unclear || k == Outdated || k == Held; }
    }
    f := ReadinessFinding(t, ids, c, d, p, now)[0];
  }

  /** The readiness finding is made exactly of the trouble that comes first, and of its latest record. */
  lemma ReadinessBlamed(t: Table, c: string, d: string, p: string, now: int, f: Finding)
    ensures f in ReadinessFinding(t, Listing(ReadinessOf(t, p)), c, d, p, now) <==>
            && f == Finding(f.defect, Blocker, "test_harness", c, d, p, f.readiness, "")
            && ReadinessCause(t, p, now, f.defect, f.readiness)
  {
    hide ShowAll, Listing, ReadinessOf, Passed, Serves, ReadinessFinding;
    if exists q :: Serves(t, q, p) && Passed(Get(t, Readiness, q), now) {
      PassedReadiness(t, c, d, p, now);
      assert !ReadinessCause(t, p, now, f.defect, f.readiness);
    } else {
      hide ReadinessCause;
      var x := TroubleBlamed(t, c, d, p, now);
      if ReadinessCause(t, p, now, f.defect, f.readiness) {
        OneTrouble(t, p, now, f.defect, f.readiness, x.defect, x.readiness);
      }
    }
  }

  // ---------------------------------------------------------------------------------------
  // Dependencies
  // ---------------------------------------------------------------------------------------

  lemma FitAcceptable(profile: Record)
    ensures Fit(profile) <==> Acceptable(StatusOf(profile, "status"))
    ensures Unfit(profile) <==> StatusOf(profile, "status") in ["rejected", "revoked", "failed"]
  {
    hide Says, StatusOf;
    SaysStatus(profile, "status", "");
    SaysStatus(profile, "status", "ready");
    SaysStatus(profile, "status", "passed");
    SaysStatus(profile, "status", "accepted");
    SaysStatus(profile, "status", "active");
    SaysStatus(profile, "status", "rejected");
    SaysStatus(profile, "status", "revoked");
    SaysStatus(profile, "status", "failed");
  }

  lemma ProfileBlamed(t: Table, c: string, d: string, p: string, now: int, f: Finding)
    ensures (Ref(Profiles, p) in t && Fit(t[Ref(Profiles, p)])) <==> ProfileFinding(t, c, d, p) == []
    ensures ProfileFinding(t, c, d, p) != [] ==> (f in ProfileFinding(t, c, d, p) <==> ProfileCause(t, c, d, p, now, f))
  {
    hide Says, StatusOf, TextOf, Holds, Fit, Unfit, Acceptable, ReadinessCause;
    if Ref(Profiles, p) in t {
      var profile := t[Ref(Profiles, p)];
      FitAcceptable(profile);
      if f.defect.ProfileRejected? { SaysStatus(profile, "rejection_reason", f.defect.reason); }
      if f.defect.ProfileIncomplete? { SaysStatus(profile, "status", f.defect.status); }
    }
  }

  /** What a ready dependency with a profile is blamed for. */
  lemma ReadyBlamed(t: Table, c: string, d: string, p: string, now: int, f: Finding)
    ensures var fs := if ProfileFinding(t, c, d, p) != [] then ProfileFinding(t, c, d, p)
                      else ReadinessFinding(t, Listing(ReadinessOf(t, p)), c, d, p, now);
            f in fs <==> ProfileCause(t, c, d, p, now, f)
  {
    hide ProfileFinding, ReadinessFinding, Listing, ReadinessOf, Fit, Unfit, Says, Holds, ReadinessCause;
    ProfileBlamed(t, c, d, p, now, f);
    ReadinessBlamed(t, c, d, p, now, f);
  }

  lemma NextRoutes(dep: Record, route: string)
    ensures NextRoute(dep, route) <==>
            route == if Lower(TextOf(dep, "next_route")) == "" then "test_harness" else Lower(TextOf(dep, "next_route"))
  {
    hide Says, TextOf, Lower;
    assert StatusOf(dep, "next_route") == Lower(TextOf(dep, "next_route"));
    SaysStatus(dep, "next_route", "");
    SaysStatus(dep, "next_route", route);
  }

  lemma DependencyWords()
    ensures "failed" != "waived" && "failed" != "ready" && "failed" != "missing" && "failed" != "unknown" && "failed" != ""
    ensures "waived" != "ready" && "waived" != "missing" && "waived" != "unknown" && "waived" != ""
    ensures "ready" != "missing" && "ready" != "unknown" && "ready" != ""
  {
    assert |"failed"| == 6 && |"waived"| == 6 && |"ready"| == 5 && |"missing"| == 7 && |"unknown"| == 7;
    assert "failed"[0] != "waived"[0];
  }

  lemma DependencyStatus(dep: Record)
    ensures Says(dep, "status", "waived") <==> StatusOf(dep, "status") == "waived"
    ensures Says(dep, "status", "ready") <==> StatusOf(dep, "status") == "ready"
    ensures Says(dep, "status", "failed") <==> StatusOf(dep, "status") == "failed"
    ensures NotReady(dep) <==> StatusOf(dep, "status") == "missing" || StatusOf(dep, "status") == "unknown" || StatusOf(dep, "status") == ""
  {
    hide Says, StatusOf;
    SaysStatus(dep, "status", "waived");
    SaysStatus(dep, "status", "ready");
    SaysStatus(dep, "status", "failed");
    SaysStatus(dep, "status", "missing");
    SaysStatus(dep, "status", "unknown");
    SaysStatus(dep, "status", "");
  }

  /** With no waiver that speaks of it, a recorded dependency is blamed for what its record says. */
  lemma RecordBlamed(t: Table, c: string, d: string, now: int, f: Finding)
    requires Ref(Dependencies, d) in t && ScanWaivers(t, Listing(IdsOf(t, Waivers)), c, d, now).NoWaiver?
    ensures f in FindingOf(t, c, d, now) <==> RecordCause(t, c, d, t[Ref(Dependencies, d)], now, f)
  {
    hide ScanWaivers, Listing, IdsOf, ReadinessOf, ProfileFinding, ReadinessFinding, Says, StatusOf, TextOf, Lower, Holds, NotReady,
      NextRoute, ProfileCause;
    var dep := t[Ref(Dependencies, d)];
    var p := TextOf(dep, "profile_ref");
    DependencyWords();
    DependencyStatus(dep);
    NextRoutes(dep, f.route);
    SaysStatus(dep, "profile_ref", "");
    SaysStatus(dep, "profile_ref", f.profile);
    ReadyBlamed(t, c, d, p, now, f);
    if ProfileCause(t, c, d, p, now, f) { CauseNamesProfile(t, c, d, p, now, f); }
    if f.defect.DependencyUnknown? { SaysStatus(dep, "status", f.defect.status); }
  }

  lemma CauseNamesProfile(t: Table, c: string, d: string, p: string, now: int, f: Finding)
    requires ProfileCause(t, c, d, p, now, f)
    ensures f.profile == p
  {
    hide ReadinessCause, Fit, Unfit;
  }

  /** A finding about a dependency is made exactly of its cause. */
  lemma DependencyBlamed(t: Table, c: string, d: string, now: int, f: Finding)
    ensures f in FindingOf(t, c, d, now) <==> DependencyCause(t, c, d, now, f)
  {
    hide ScanWaivers, Listing, IdsOf, ReadinessOf, ProfileFinding, ReadinessFinding, Speaks, InactiveFinding, RecordCause, WaiverCause, StatusOf,
      TextOf;
    WaiversListed(t, c, d, now);
    WaiverBlamed(t, c, d, now, f);
    if Ref(Dependencies, d) in t && ScanWaivers(t, Listing(IdsOf(t, Waivers)), c, d, now).NoWaiver? {
      RecordBlamed(t, c, d, now, f);
    }
  }

  // ---------------------------------------------------------------------------------------
  // Claims
  // ---------------------------------------------------------------------------------------

  lemma {:induction false} DependenciesBlamed(t: Table, c: string, ds: seq<string>, now: int, f: Finding)
    ensures f in DependencyFindings(t, c, ds, now) <==> exists d :: d in ds && DependencyCause(t, c, d, now, f)
  {
    hide FindingOf, DependencyCause;
    if ds != [] {
      var init, d := ds[..|ds| - 1], ds[|ds| - 1];
      DependenciesBlamed(t, c, init, now, f);
      DependencyBlamed(t, c, d, now, f);
      assert ds == init + [d];
    }
  }

  lemma {:induction false} ConflictsBlamed(t: Table, c: string, os: seq<string>, f: Finding)
    ensures f in ConflictFindings(t, c, os) <==>
            exists o :: o in os && Stands(t, o) && f == Finding(ClaimConflicts(o), Blocker, "coordinator", c, "", "", "", "")
  {
    hide Accepted, Stands;
    if os != [] {
      var init, o := os[..|os| - 1], os[|os| - 1];
      ConflictsBlamed(t, c, init, f);
      StandsAccepted(t, o);
      assert os == init + [o];
    }
  }

  lemma BareBlamed(t: Table, c: string, now: int, f: Finding)
    ensures f in UnprovedFinding(c, ScanWaivers(t, Listing(IdsOf(t, Waivers)), c, "", now)) <==> BareCause(t, c, now, f)
  {
    hide ScanWaivers, Listing, IdsOf, Speaks, InactiveFinding, WaiverCause;
    WaiversListed(t, c, "", now);
    WaiverBlamed(t, c, "", now, f);
  }

  lemma ClaimBlamed(t: Table, c: string, now: int, f: Finding)
    requires Ref(Claims, c) in t
    ensures f in ClaimFindings(t, c, now) <==> ClaimCause(t, c, now, f)
  {
    hide DependencyFindings, ConflictFindings, Evidenced, Backed, UnprovedFinding, ScanWaivers, Listing, IdsOf, ListOf, Lists, Stands,
      DependencyCause, BareCause, Requires, Needs;
    var os := ListOf(Get(t, Claims, c), "conflicts_with");
    ConflictsBlamed(t, c, os, f);
    forall o ensures o in os <==> Lists(t[Ref(Claims, c)], "conflicts_with", o) { ListsItems(t[Ref(Claims, c)], "conflicts_with", o); }
    DependenciesBlamed(t, c, Requires(t, c), now, f);
    forall d ensures d in Requires(t, c) <==> Needs(t, c, d) { NeedsRequires(t, c, d); }
    if Requires(t, c) != [] { assert Requires(t, c)[0] in Requires(t, c); }
    BackedEvidenced(t, c);
    BareBlamed(t, c, now, f);
  }

  /** The findings of an analysis are exactly those that the records give cause for. */
  lemma FindingsAreCaused(t: Table, now: int, f: Finding)
    ensures f in AnalysisOf(t, now).findings <==> Cause(t, now, f)
  {
    hide AllFindings, ClaimFindings, Listing, AcceptedIds, Accepted, Stands, ClaimCause;
    var ids := Listing(AcceptedIds(t));
    forall c ensures c in ids <==> Stands(t, c) {
      AcceptedMembers(t, c);
      StandsAccepted(t, c);
    }
    if AcceptedIds(t) != {} {
      if f in AllFindings(t, ids, now) {
        var c := WhoIsBlamed(t, ids, now, f);
        StandsRecorded(t, c);
        ClaimBlames(t, c, now);
        ClaimBlamed(t, c, now, f);
      }
      if Stands(t, f.claim) && ClaimCause(t, f.claim, now, f) {
        StandsRecorded(t, f.claim);
        ClaimBlamed(t, f.claim, now, f);
        BlamedInAll(t, ids, now, f.claim, f);
      }
    }
  }

  lemma StandsRecorded(t: Table, c: string)
    requires Stands(t, c)
    ensures Ref(Claims, c) in t
  {
  }
}

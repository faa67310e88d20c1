/** The analyzer's loops, its routes, and the gate that reads them. */
module ProofAnalyzer {
  import opened Text
  import opened Numerals
  import opened Ordering
  import opened ProofFacts
  import opened ProofReadiness
  import ProofCauses

  // ---------------------------------------------------------------------------------------
  // Loops over records
  // ---------------------------------------------------------------------------------------

  method MatchingWaiver(t: Table, c: string, d: string, now: int) returns (r: WaiverScan)
    ensures r == ScanWaivers(t, Listing(IdsOf(t, Waivers)), c, d, now)
  {
    hide Covers, Active, Get, InactiveStatus, Listing, IdsOf;
    var ids := SortedList(IdsOf(t, Waivers));
    ghost var all := ScanWaivers(t, ids, c, d, now);
    var inactive: WaiverScan := NoWaiver;
    var i := 0;
    while i < |ids|
      invariant 0 <= i <= |ids| && !inactive.ActiveWaiver?
      invariant var rest := ScanWaivers(t, ids[i..], c, d, now);
                all == if inactive.NoWaiver? || rest.ActiveWaiver? then rest else inactive
    {
      assert ids[i..][1..] == ids[i + 1..];
      var w := Get(t, Waivers, ids[i]);
      if Covers(w, c, d) {
        if Active(w, now) {
          return ActiveWaiver;
        }
        if inactive.NoWaiver? {
          inactive := InactiveWaiver(ids[i], InactiveStatus(w, now));
        }
      }
      i := i + 1;
    }
    assert ids[i..] == [];
    r := inactive;
  }

  method EvidenceCoversClaim(t: Table, c: string) returns (r: bool)
    ensures r == Evidenced(t, c)
  {
    hide ListOf;
    var rest := t.Keys;
    while rest != {}
      invariant rest <= t.Keys
      invariant forall e | Ref(Evidence, e) in t && Ref(Evidence, e) !in rest :: c !in ListOf(t[Ref(Evidence, e)], "covers")
      decreases |rest|
    {
      var e :| e in rest;
      if e.kind == Evidence && c in ListOf(t[e], "covers") {
        assert e == Ref(Evidence, e.id);
        return true;
      }
      rest := rest - {e};
    }
    r := false;
  }

  method FindReadiness(t: Table, c: string, d: string, p: string, now: int) returns (fs: seq<Finding>)
    ensures fs == ReadinessFinding(t, Listing(ReadinessOf(t, p)), c, d, p, now)
  {
    hide ShowRecord, Listing, ReadinessOf;
    var ids := SortedList(ReadinessOf(t, p));
    if ids == [] {
      return [Harness(ReadinessMissing, c, d).(profile := p)];
    }
    var seen := UNSEEN;
    var i := 0;
    while i < |ids|
      invariant 0 <= i <= |ids| && seen.Shown?
      invariant ShowAll(t, ids, now, UNSEEN) == ShowAll(t, ids[i..], now, seen)
    {
      assert ids[i..][1..] == ids[i + 1..];
      seen := ShowRecord(t, ids[i], now, seen);
      if seen.Passes? {
        return [];
      }
      i := i + 1;
    }
    assert ids[i..] == [];
    if seen.failed.Some? {
      return [Harness(ReadinessFailed, c, d).(profile := p, readiness := seen.failed.value)];
    }
    if seen.unreadable.Some? {
      return [Harness(ReadinessUnreadable, c, d).(profile := p, readiness := seen.unreadable.value)];
    }
    if seen.stale.Some? {
      return [Harness(ReadinessStale, c, d).(profile := p, readiness := seen.stale.value)];
    }
    if seen.blocked.Some? {
      return [Harness(ReadinessBlocked, c, d).(profile := p, readiness := seen.blocked.value)];
    }
    return [Harness(ReadinessUnknown, c, d).(profile := p)];
  }

  method EvaluateDependency(t: Table, c: string, d: string, now: int) returns (fs: seq<Finding>)
    ensures fs == FindingOf(t, c, d, now)
    ensures forall f :: f in fs <==> ProofCauses.DependencyCause(t, c, d, now, f)
  {
    forall f ensures f in FindingOf(t, c, d, now) <==> ProofCauses.DependencyCause(t, c, d, now, f) {
      ProofCauses.DependencyBlamed(t, c, d, now, f);
    }
    hide ProofCauses.DependencyCause;
    hide ScanWaivers, Listing, StatusOf, TextOf, ReadinessFinding, ProfileFinding, IdsOf, ReadinessOf, InactiveFinding;
    StatusWords();
    var scan := MatchingWaiver(t, c, d, now);
    if Ref(Dependencies, d) !in t {
      if scan.ActiveWaiver? { return []; }
      if scan.InactiveWaiver? { return [InactiveFinding(c, d, scan)]; }
      return [Harness(DependencyUnrecorded, c, d)];
    }
    var dep := t[Ref(Dependencies, d)];
    var status, next := StatusOf(dep, "status"), Lower(TextOf(dep, "next_route"));
    var route := if next == "" then "test_harness" else next;
    if scan.ActiveWaiver? { return []; }
    if status == "waived" || scan.InactiveWaiver? {
      if scan.InactiveWaiver? { return [InactiveFinding(c, d, scan)]; }
      return [Coordinator(WaiverMissing, c, d)];
    }
    if status == "ready" {
      var p := TextOf(dep, "profile_ref");
      if p == "" { return []; }
      if ProfileFinding(t, c, d, p) != [] { return ProfileFinding(t, c, d, p); }
      fs := FindReadiness(t, c, d, p, now);
    } else if status == "missing" || status == "unknown" || status == "" {
      return [Harness(DependencyNotReady, c, d).(route := route)];
    } else if status == "failed" {
      return [Harness(DependencyFailed, c, d).(route := route)];
    } else {
      return [Coordinator(DependencyUnknown(status), c, d)];
    }
  }

  method EvaluateConflicts(t: Table, c: string) returns (fs: seq<Finding>)
    ensures fs == ConflictFindings(t, c, ListOf(Get(t, Claims, c), "conflicts_with"))
  {
    hide Accepted, ListOf;
    var os := ListOf(Get(t, Claims, c), "conflicts_with");
    fs := [];
    for i := 0 to |os|
      invariant fs == ConflictFindings(t, c, os[..i])
    {
      assert os[..i + 1][..i] == os[..i];
      if Accepted(t, os[i]) {
        fs := fs + [Coordinator(ClaimConflicts(os[i]), c, "")];
      }
    }
    assert os[..|os|] == os;
  }

  method EvaluateClaim(t: Table, c: string, now: int) returns (fs: seq<Finding>)
    ensures fs == ClaimFindings(t, c, now)
  {
    hide ConflictFindings, ScanWaivers, FindingOf, Requires, Evidenced, ListOf, Listing, InactiveFinding, IdsOf;
    fs := EvaluateConflicts(t, c);
    ghost var conflicts := fs;
    var ds := Requires(t, c);
    var covered := EvidenceCoversClaim(t, c);
    if ds == [] && !covered {
      var scan := MatchingWaiver(t, c, "", now);
      if scan.InactiveWaiver? {
        fs := fs + [InactiveFinding(c, "", scan)];
      } else if scan.NoWaiver? {
        fs := fs + [Harness(ClaimUnproved, c, "")];
      }
      return;
    }
    for i := 0 to |ds|
      invariant fs == conflicts + DependencyFindings(t, c, ds[..i], now)
    {
      assert ds[..i + 1][..i] == ds[..i];
      var more := EvaluateDependency(t, c, ds[i], now);
      fs := fs + more;
    }
    assert ds[..|ds|] == ds;
  }

  method HasBlocker(fs: seq<Finding>) returns (r: bool)
    ensures r <==> exists f :: f in fs && f.severity == Blocker
  {
    for i := 0 to |fs|
      invariant forall j | 0 <= j < i :: fs[j].severity != Blocker
    {
      if fs[i].severity == Blocker { return true; }
    }
    return false;
  }

  method EvaluateClaims(t: Table, cs: seq<string>, now: int) returns (fs: seq<Finding>)
    ensures fs == AllFindings(t, cs, now)
  {
    hide ClaimFindings;
    fs := [];
    for i := 0 to |cs|
      invariant fs == AllFindings(t, cs[..i], now)
    {
      assert cs[..i + 1][..i] == cs[..i];
      var more := EvaluateClaim(t, cs[i], now);
      fs := fs + more;
    }
    assert cs[..|cs|] == cs;
  }

  /** Evaluates the records; the answer is the same for every enumeration order. */
  method AnalyzeFacts(t: Table, now: int) returns (a: Analysis)
    ensures a == AnalysisOf(t, now)
    ensures a.status == Passed <==> Proved(t, now)
    ensures forall f :: f in a.findings <==> ProofCauses.Cause(t, now, f)
  {
    hide AllFindings, Listing, AcceptedIds, Proved, Accepted, ProofCauses.Cause;
    AnalysisDecides(t, now);
    forall f ensures f in AnalysisOf(t, now).findings <==> ProofCauses.Cause(t, now, f) { ProofCauses.FindingsAreCaused(t, now, f); }
    var accepted := SortedList(AcceptedIds(t));
    if accepted == [] {
      NoneListed(AcceptedIds(t));
      return Analysis(Ambiguous, [Coordinator(NoneAccepted, "", "")]);
    }
    assert AcceptedIds(t) != {} by { assert accepted[0] in accepted; }
    var fs := EvaluateClaims(t, accepted, now);
    var blocked := HasBlocker(fs);
    assert blocked <==> fs != [] by { AllBlockers(t, now, fs); }
    a := Analysis(if blocked then Failed else Passed, fs);
  }

  lemma NoneListed(s: set<string>)
    requires Listing(s) == []
    ensures s == {}
  {
    hide Listing;
    assert forall x | x in s :: x in Listing(s);
  }

  lemma AllBlockers(t: Table, now: int, fs: seq<Finding>)
    requires fs == AllFindings(t, Listing(AcceptedIds(t)), now)
    ensures fs != [] <==> exists f :: f in fs && f.severity == Blocker
  {
    hide AllFindings, Listing, AcceptedIds, ClaimFindings;
    if fs != [] {
      var f := fs[0];
      var c := WhoIsBlamed(t, Listing(AcceptedIds(t)), now, f);
      ClaimBlames(t, c, now);
      assert f in fs && f.severity == Blocker;
    }
  }

  /** From triples to verdict. */
  method Analyze(triples: map<string, Datum>, now: int) returns (a: Analysis)
    ensures a == AnalysisOf(TableOf(triples), now)
    ensures a.status == Passed <==> Proved(TableOf(triples), now)
    ensures forall f :: f in a.findings <==> ProofCauses.Cause(TableOf(triples), now, f)
  {
    hide AnalysisOf, TableOf, Proved, ProofCauses.Cause;
    var t := ParseProofFacts(triples);
    a := AnalyzeFacts(t, now);
  }

  // ---------------------------------------------------------------------------------------
  // Routes and the implementation gate
  // ---------------------------------------------------------------------------------------

  function StatusText(s: Status): string {
    match s
    case Passed => "passed"
    case Failed => "failed"
    case Ambiguous => "ambiguous"
  }

  ghost function RouteSet(a: Analysis): set<string> {
    (if a.status == Passed then {"implementation"} else {}) +
    (set f | f in a.findings && f.route != "" :: f.route) +
    (if a.status == Failed && (forall f | f in a.findings :: f.route == "") then {"pause"} else {})
  }

  /** Which routes an analysis has: its findings' own, implementation when it passed, and a pause when it failed without any. */
  lemma RoutesAre(a: Analysis, route: string)
    ensures route in RouteSet(a) <==>
            || (a.status == Passed && route == "implementation")
            || (route != "" && exists f :: f in a.findings && f.route == route)
            || (a.status == Failed && route == "pause" && forall f | f in a.findings :: f.route == "")
  {
  }

  method Routes(a: Analysis) returns (routes: seq<string>)
    ensures routes == Listing(RouteSet(a))
  {
    hide Listing;
    var s: set<string> := if a.status == Passed then {"implementation"} else {};
    for i := 0 to |a.findings|
      invariant s == (if a.status == Passed then {"implementation"} else {}) +
                     (set f | f in a.findings[..i] && f.route != "" :: f.route)
    {
      assert a.findings[..i + 1] == a.findings[..i] + [a.findings[i]];
      if a.findings[i].route != "" {
        s := s + {a.findings[i].route};
      }
    }
    assert a.findings[..|a.findings|] == a.findings;
    if a.status == Failed && s == {} {
      assert forall f | f in a.findings :: f.route == "" by {
        forall f | f in a.findings ensures f.route == "" {
          assert f.route != "" ==> f.route in s;
        }
      }
      s := {"pause"};
    }
    assert s == RouteSet(a);
    routes := SortedList(s);
  }

  datatype Stamp = Stamp(key: string, value: string)

  function FindingStamps(f: Finding, n: nat): seq<Stamp> {
    var p := "formal_claims.finding.f" + Padded(n) + ".";
    [Stamp(p + "kind", KindText(f.defect)), Stamp(p + "severity", if f.severity == Blocker then "blocker" else "warning"),
     Stamp(p + "route", f.route), Stamp(p + "reason", ReasonText(f.defect))] +
    Optional(p + "claim", f.claim) + Optional(p + "dependency", f.dependency) + Optional(p + "profile", f.profile) +
    Optional(p + "readiness", f.readiness) + Optional(p + "waiver", f.waiver)
  }

  /** At least three digits. */
  function Padded(n: nat): string {
    (if n < 10 then "00" else if n < 100 then "0" else "") + Itoa(n)
  }

  function Optional(key: string, value: string): seq<Stamp> {
    if value == "" then [] else [Stamp(key, value)]
  }

  function AllFindingStamps(fs: seq<Finding>): seq<Stamp> {
    if fs == [] then [] else AllFindingStamps(fs[..|fs| - 1]) + FindingStamps(fs[|fs| - 1], |fs|)
  }

  function RouteStamps(routes: seq<string>): seq<Stamp> {
    seq(|routes|, i requires 0 <= i < |routes| => Stamp("formal_claims.route." + routes[i], "present"))
  }

  function HeadStamps(a: Analysis, at: string): seq<Stamp> {
    [Stamp("formal_claims.status", StatusText(a.status)), Stamp("formal_claims.analyzer.version", "go-native-v1"),
     Stamp("formal_claims.analyzed_at", at), Stamp("formal_claims.finding_count", Itoa(|a.findings|))]
  }

  ghost function Stamps(a: Analysis, at: string): seq<Stamp> {
    HeadStamps(a, at) + RouteStamps(Listing(RouteSet(a))) + AllFindingStamps(a.findings)
  }

  lemma {:induction false} FindingIsListed(fs: seq<Finding>, i: nat)
    requires i < |fs|
    ensures forall s | s in FindingStamps(fs[i], i + 1) :: s in AllFindingStamps(fs)
  {
    hide FindingStamps;
    if i < |fs| - 1 { FindingIsListed(fs[..|fs| - 1], i); }
  }

  lemma {:induction false} StampOfFinding(fs: seq<Finding>, s: Stamp) returns (i: nat)
    requires s in AllFindingStamps(fs)
    ensures i < |fs| && s in FindingStamps(fs[i], i + 1)
  {
    hide FindingStamps;
    i := |fs| - 1;
    if s !in FindingStamps(fs[i], i + 1) { i := StampOfFinding(fs[..|fs| - 1], s); }
  }

  /** Every field of every finding is stamped under the number of the finding. */
  lemma FindingIsStamped(a: Analysis, at: string, i: nat)
    requires i < |a.findings|
    ensures var f, p := a.findings[i], "formal_claims.finding.f" + Padded(i + 1);
            && Stamp(p + ".kind", KindText(f.defect)) in Stamps(a, at)
            && Stamp(p + ".reason", ReasonText(f.defect)) in Stamps(a, at)
            && Stamp(p + ".route", f.route) in Stamps(a, at)
            && (f.severity == Blocker ==> Stamp(p + ".severity", "blocker") in Stamps(a, at))
            && (f.claim != "" ==> Stamp(p + ".claim", f.claim) in Stamps(a, at))
            && (f.dependency != "" ==> Stamp(p + ".dependency", f.dependency) in Stamps(a, at))
            && (f.profile != "" ==> Stamp(p + ".profile", f.profile) in Stamps(a, at))
            && (f.readiness != "" ==> Stamp(p + ".readiness", f.readiness) in Stamps(a, at))
            && (f.waiver != "" ==> Stamp(p + ".waiver", f.waiver) in Stamps(a, at))
  {
    hide Padded, KindText, ReasonText, AllFindingStamps, RouteStamps, HeadStamps, RouteSet, FindingStamps;
    var f := a.findings[i];
    FindingIsListed(a.findings, i);
    StampsOf(f, i + 1);
    assert forall s | s in FindingStamps(f, i + 1) :: s in Stamps(a, at);
  }

  lemma StampsOf(f: Finding, n: nat)
    ensures var p, ss := "formal_claims.finding.f" + Padded(n), FindingStamps(f, n);
            && Stamp(p + ".kind", KindText(f.defect)) in ss
            && Stamp(p + ".reason", ReasonText(f.defect)) in ss
            && Stamp(p + ".route", f.route) in ss
            && (f.severity == Blocker ==> Stamp(p + ".severity", "blocker") in ss)
            && (f.claim != "" ==> Stamp(p + ".claim", f.claim) in ss)
            && (f.dependency != "" ==> Stamp(p + ".dependency", f.dependency) in ss)
            && (f.profile != "" ==> Stamp(p + ".profile", f.profile) in ss)
            && (f.readiness != "" ==> Stamp(p + ".readiness", f.readiness) in ss)
            && (f.waiver != "" ==> Stamp(p + ".waiver", f.waiver) in ss)
  {
    hide Padded, KindText, ReasonText, FindingStamps;
    var p := "formal_claims.finding.f" + Padded(n);
    DottedKey(p, "kind", ".kind");
    DottedKey(p, "reason", ".reason");
    DottedKey(p, "route", ".route");
    DottedKey(p, "severity", ".severity");
    DottedKey(p, "claim", ".claim");
    DottedKey(p, "dependency", ".dependency");
    DottedKey(p, "profile", ".profile");
    DottedKey(p, "readiness", ".readiness");
    DottedKey(p, "waiver", ".waiver");
    StampsIn(f, n, p + ".");
  }

  lemma DottedKey(p: string, field: string, tail: string)
    requires tail == "." + field
    ensures (p + ".") + field == p + tail
  {
  }

  lemma StampsIn(f: Finding, n: nat, p: string)
    requires p == "formal_claims.finding.f" + Padded(n) + "."
    ensures var ss := FindingStamps(f, n);
            && Stamp(p + "kind", KindText(f.defect)) in ss && Stamp(p + "reason", ReasonText(f.defect)) in ss
            && Stamp(p + "route", f.route) in ss && (f.severity == Blocker ==> Stamp(p + "severity", "blocker") in ss)
            && (f.claim != "" ==> Stamp(p + "claim", f.claim) in ss) && (f.dependency != "" ==> Stamp(p + "dependency", f.dependency) in ss)
            && (f.profile != "" ==> Stamp(p + "profile", f.profile) in ss) && (f.readiness != "" ==> Stamp(p + "readiness", f.readiness) in ss)
            && (f.waiver != "" ==> Stamp(p + "waiver", f.waiver) in ss)
  {
    hide Padded, KindText, ReasonText;
  }

  /** Numbers of findings have three digits, or more where they need them. */
  lemma PaddedIs(n: nat)
    ensures n < 10 ==> Padded(n) == "00" + Itoa(n)
    ensures 10 <= n < 100 ==> Padded(n) == "0" + Itoa(n)
    ensures 100 <= n ==> Padded(n) == Itoa(n)
    ensures |Padded(n)| >= 3
  {
    hide Itoa;
    ItoaLength(n);
    assert "" + Itoa(n) == Itoa(n);
  }

  lemma ItoaLength(n: nat)
    ensures |Itoa(n)| == 1 <==> n < 10
    ensures |Itoa(n)| == 2 <==> 10 <= n < 100
    ensures |Itoa(n)| >= 1
  {
  }

  /** What is stamped of every analysis besides its status. */
  lemma HeadIsStamped(a: Analysis, at: string)
    ensures Stamp("formal_claims.analyzer.version", "go-native-v1") in Stamps(a, at)
    ensures Stamp("formal_claims.analyzed_at", at) in Stamps(a, at)
    ensures Stamp("formal_claims.finding_count", Itoa(|a.findings|)) in Stamps(a, at)
    ensures forall route | route in RouteSet(a) :: Stamp("formal_claims.route." + route, "present") in Stamps(a, at)
  {
    forall route | route in RouteSet(a) ensures Stamp("formal_claims.route." + route, "present") in Stamps(a, at) { Routed(a, at, route); }
    hide AllFindingStamps, RouteStamps, RouteSet, Listing, Itoa;
    var head := HeadStamps(a, at);
    assert forall s | s in head :: s in Stamps(a, at);
    assert head[1] in head && head[2] in head && head[3] in head;
  }

  /** Of all stamps only the first is a status, and it says "passed", "failed" or "ambiguous". */
  lemma StatusIsStamped(a: Analysis, at: string, word: string)
    ensures Stamp("formal_claims.status", word) in Stamps(a, at) <==>
            || (a.status == Passed && word == "passed")
            || (a.status == Failed && word == "failed")
            || (a.status == Ambiguous && word == "ambiguous")
  {
    hide AllFindingStamps, RouteStamps, RouteSet, FindingStamps, Listing, Itoa;
    var s := Stamp("formal_claims.status", word);
    assert s.key[14] == 's' && "formal_claims.analyzer.version"[14] == 'a' && "formal_claims.analyzed_at"[14] == 'a' &&
           "formal_claims.finding_count"[14] == 'f';
    assert s in HeadStamps(a, at) <==> word == StatusText(a.status);
    if s in RouteStamps(Listing(RouteSet(a))) { RouteKey(Listing(RouteSet(a)), s); }
    if s in AllFindingStamps(a.findings) {
      var i := StampOfFinding(a.findings, s);
      FindingKey(a.findings[i], i + 1, s);
    }
  }

  lemma RouteKey(routes: seq<string>, s: Stamp)
    requires s in RouteStamps(routes)
    ensures |s.key| > 14 && s.key[14] == 'r'
  {
    assert |"formal_claims.route."| == 20 && "formal_claims.route."[14] == 'r';
  }

  lemma FindingKey(f: Finding, n: nat, s: Stamp)
    requires s in FindingStamps(f, n)
    ensures |s.key| > 14 && s.key[14] == 'f'
  {
    hide Padded, KindText, ReasonText;
    assert |"formal_claims.finding.f"| == 23 && "formal_claims.finding.f"[14] == 'f';
  }

  method ImplementationReady(a: Analysis, stamps: seq<Stamp>) returns (ready: bool)
    ensures ready <==> a.status == Passed && Stamp("formal_claims.route.implementation", "present") in stamps
  {
    if a.status != Passed { return false; }
    for i := 0 to |stamps|
      invariant Stamp("formal_claims.route.implementation", "present") !in stamps[..i]
    {
      if stamps[i].key == "formal_claims.route.implementation" && stamps[i].value == "present" {
        return true;
      }
    }
    return false;
  }

  lemma Routed(a: Analysis, at: string, route: string)
    requires route in RouteSet(a)
    ensures Stamp("formal_claims.route." + route, "present") in Stamps(a, at)
  {
    hide Listing, RouteSet, HeadStamps, AllFindingStamps;
    var routes := Listing(RouteSet(a));
    var i :| 0 <= i < |routes| && routes[i] == route;
    assert RouteStamps(routes)[i] == Stamp("formal_claims.route." + route, "present");
    var head := HeadStamps(a, at);
    assert (head + RouteStamps(routes))[|head| + i] == RouteStamps(routes)[i];
  }

  lemma RouteText()
    ensures "formal_claims.route." + "implementation" == "formal_claims.route.implementation"
  {
  }

  /** Renders the analysis as stamps on the run entity. */
  method Triples(a: Analysis, at: string) returns (stamps: seq<Stamp>)
    ensures stamps == Stamps(a, at)
  {
    hide FindingStamps, Listing, HeadStamps;
    var routes := Routes(a);
    stamps := HeadStamps(a, at);
    ghost var head := stamps;
    for i := 0 to |routes|
      invariant stamps == head + RouteStamps(routes[..i])
    {
      assert RouteStamps(routes[..i + 1]) == RouteStamps(routes[..i]) + [Stamp("formal_claims.route." + routes[i], "present")];
      stamps := stamps + [Stamp("formal_claims.route." + routes[i], "present")];
    }
    assert routes[..|routes|] == routes;
    head := stamps;
    for i := 0 to |a.findings|
      invariant stamps == head + AllFindingStamps(a.findings[..i])
    {
      assert a.findings[..i + 1][..i] == a.findings[..i];
      stamps := stamps + FindingStamps(a.findings[i], i + 1);
    }
    assert a.findings[..|a.findings|] == a.findings;
  }

  /**
  The implementation command: analyze, stamp, and look at status and route. The gate opens exactly when the rule holds,
  whatever routes the findings carry.
  */
  method ImplementSpec(triples: map<string, Datum>, now: int, at: string) returns (ready: bool)
    ensures ready <==> Proved(TableOf(triples), now)
  {
    hide AnalysisOf, Stamps, Proved, TableOf;
    var a := Analyze(triples, now);
    var stamps := Triples(a, at);
    ready := ImplementationReady(a, stamps);
    RouteText();
    if a.status == Passed {
      Routed(a, at, "implementation");
    }
  }

  lemma {:induction false} FoundForDependency(t: Table, c: string, ds: seq<string>, d: string, now: int, f: Finding)
    requires d in ds && f in FindingOf(t, c, d, now)
    ensures f in DependencyFindings(t, c, ds, now)
  {
    hide FindingOf;
    if d != ds[|ds| - 1] {
      assert ds == ds[..|ds| - 1] + [ds[|ds| - 1]];
      FoundForDependency(t, c, ds[..|ds| - 1], d, now, f);
    }
  }

  lemma MissingDependencyFinding(t: Table, c: string, d: string, now: int)
    requires !Waivable(t, c, d) && Ref(Dependencies, d) in t && StatusOf(t[Ref(Dependencies, d)], "status") == "missing"
    requires Lower(TextOf(t[Ref(Dependencies, d)], "next_route")) == "implementation"
    ensures FindingOf(t, c, d, now) == [Harness(DependencyNotReady, c, d).(route := "implementation")]
  {
    hide ScanWaivers, Listing, StatusOf, TextOf, Waivable, Waived, ReadinessFinding, ProfileFinding;
    WaiversDecide(t, c, d, now);
    StatusWords();
    assert "missing" != "waived" by { assert |"missing"| != |"waived"|; }
    assert "implementation" != "" by { assert |"implementation"| == 14; }
  }

  /** Why the gate must look at the status: a missing dependency can put the implementation route on a failed analysis. */
  lemma FailedAnalysisCanCarryTheRoute(t: Table, c: string, d: string, now: int)
    requires Accepted(t, c) && d in Requires(t, c) && !Waivable(t, c, d)
    requires Ref(Dependencies, d) in t && StatusOf(t[Ref(Dependencies, d)], "status") == "missing"
    requires Lower(TextOf(t[Ref(Dependencies, d)], "next_route")) == "implementation"
    ensures AnalysisOf(t, now).status == Failed && "implementation" in RouteSet(AnalysisOf(t, now))
  {
    hide StatusOf, TextOf, Waivable, Listing, AcceptedIds, AllFindings, FindingOf, Requires, ConflictFindings, DependencyFindings, Evidenced;
    var f := Harness(DependencyNotReady, c, d).(route := "implementation");
    MissingDependencyFinding(t, c, d, now);
    FoundForDependency(t, c, Requires(t, c), d, now, f);
    assert f in ClaimFindings(t, c, now);
    AcceptedMembers(t, c);
    BlamedInAll(t, Listing(AcceptedIds(t)), now, c, f);
    assert f in AnalysisOf(t, now).findings;
    assert f.route != "" by { assert |"implementation"| == 14; }
  }
}

/** Attestations, their triples, and what a reader of the triples concludes. */
module Attestation {
  import opened Text
  import opened Numerals
  import opened Ordering
  import opened Requirements
  import opened Admission

  datatype ProbeResult = ProbeResult(name: string, exitCode: int, expectExit: int, stdout: string, failure: Option<string>)

  predicate Ok(p: ProbeResult) {
    p.failure.None? && p.exitCode == p.expectExit
  }

  /** The content address of the request, the time, and how long the attestation stays fresh. */
  datatype Identity = Identity(hash: string, signature: string, attestedAt: string, ttl: int)

  datatype Attestation = Attestation(
    profileId: string, identity: Identity, imageDigest: string, folder: string,
    ready: bool, degraded: bool, terminal: bool, terminalReason: string,
    admission: Outcome, admissionReasons: seq<string>,
    failedProbes: seq<string>, degradedReasons: seq<string>, verified: map<string, string>)

  // ---------------------------------------------------------------------------------------
  // The four shapes
  // ---------------------------------------------------------------------------------------

  function Count(b: bool): nat {
    if b then 1 else 0
  }

  /** Exactly one of ready, degraded, terminal and awaiting admission. */
  predicate OneShape(a: Attestation) {
    Count(a.ready) + Count(a.degraded) + Count(a.terminal) + Count(a.admission == Pending) == 1
  }

  function Blank(profileId: string, identity: Identity): Attestation {
    Attestation(profileId, identity, "", "", false, false, false, "", Admitted, [], [], [], map[])
  }

  function Concat(sep: string, xs: seq<string>): string {
    if xs == [] then "" else if |xs| == 1 then xs[0] else xs[0] + sep + Concat(sep, xs[1..])
  }

  /** The separator stands between any two lists that are put together, and nowhere else. */
  lemma {:induction false} ConcatAppend(sep: string, xs: seq<string>, ys: seq<string>)
    ensures Concat(sep, []) == "" && forall x :: Concat(sep, [x]) == x
    ensures xs != [] && ys != [] ==> Concat(sep, xs + ys) == Concat(sep, xs) + sep + Concat(sep, ys)
  {
    if |xs| > 1 && ys != [] {
      ConcatAppend(sep, xs[1..], ys);
      var all := xs + ys;
      assert all[0] == xs[0] && all[1..] == xs[1..] + ys;
      assert xs[0] + sep + (Concat(sep, xs[1..]) + sep + Concat(sep, ys)) == (xs[0] + sep + Concat(sep, xs[1..])) + sep + Concat(sep, ys);
    } else if |xs| == 1 && ys != [] {
      var all := xs + ys;
      assert all[0] == xs[0] && all[1..] == ys;
    }
  }

  /** Admission did not clear: denied is terminal, pending is not. */
  function AttestAdmissionFailure(profileId: string, identity: Identity, res: Admission): Attestation {
    var a := Blank(profileId, identity).(admission := res.outcome, admissionReasons := res.denied + res.pending);
    if res.outcome == Denied then a.(terminal := true, terminalReason := "admission denied: " + Concat("; ", res.denied)) else a
  }

  function AttestTerminalError(profileId: string, identity: Identity, reason: string): Attestation {
    Blank(profileId, identity).(terminal := true, terminalReason := reason)
  }

  ghost predicate SomeOk(ps: seq<ProbeResult>) {
    exists i :: 0 <= i < |ps| && Ok(ps[i])
  }

  ghost predicate SomeFailed(ps: seq<ProbeResult>) {
    exists i :: 0 <= i < |ps| && !Ok(ps[i])
  }

  /** What the probes of a running container amount to. */
  ghost predicate Attests(a: Attestation, ps: seq<ProbeResult>) {
    && (a.ready <==> !SomeFailed(ps))
    && (a.degraded <==> SomeFailed(ps) && SomeOk(ps))
    && (a.terminal <==> SomeFailed(ps) && !SomeOk(ps))
    && a.admission == Admitted && a.admissionReasons == []
    && a.terminalReason == (if a.terminal then "all preflight probes failed" else "")
    && a.failedProbes == Sort(FailedNames(ps))
    && a.degradedReasons == Sort(FailedReasons(ps))
    && VerifiedOf(ps, a.verified)
  }

  /** The names of the probes that failed. */
  function FailedNames(ps: seq<ProbeResult>): seq<string> {
    if ps == [] then []
    else
      var p := ps[|ps| - 1];
      FailedNames(ps[..|ps| - 1]) + if Ok(p) then [] else [Token(p.name)]
  }

  /** Their names with what went wrong. */
  function FailedReasons(ps: seq<ProbeResult>): seq<string> {
    if ps == [] then []
    else
      var p := ps[|ps| - 1];
      FailedReasons(ps[..|ps| - 1]) + if Ok(p) then [] else [Token(p.name) + ": " + Why(p)]
  }

  /** The names of the probes that passed, each with the output of such a probe. */
  ghost predicate VerifiedOf(ps: seq<ProbeResult>, verified: map<string, string>) {
    && (forall i | 0 <= i < |ps| && Ok(ps[i]) :: Token(ps[i].name) in verified)
    && (forall n | n in verified :: exists i :: 0 <= i < |ps| && Verifies(ps[i], n, verified[n]))
  }

  predicate Verifies(p: ProbeResult, name: string, value: string) {
    Ok(p) && Token(p.name) == name && value == Truncated(p.stdout)
  }

  const MAX_VERIFIED := 512

  function Truncated(s: string): string {
    var t := TrimSpace(s);
    if |t| <= MAX_VERIFIED then t else t[..MAX_VERIFIED] + "\U{2026}(truncated)"
  }

  lemma AttestShape(a: Attestation, ps: seq<ProbeResult>)
    requires Attests(a, ps)
    ensures OneShape(a)
  {
  }

  lemma SomeMore(ps: seq<ProbeResult>, p: ProbeResult)
    ensures SomeOk(ps + [p]) <==> SomeOk(ps) || Ok(p)
    ensures SomeFailed(ps + [p]) <==> SomeFailed(ps) || !Ok(p)
  {
    var all := ps + [p];
    assert all[|ps|] == p;
    assert forall i | 0 <= i < |ps| :: all[i] == ps[i];
  }

  lemma VerifiedAdded(ps: seq<ProbeResult>, p: ProbeResult, verified: map<string, string>)
    requires VerifiedOf(ps, verified)
    ensures VerifiedOf(ps + [p], if Ok(p) then verified[Token(p.name) := Truncated(p.stdout)] else verified)
  {
    hide Ok, Token, Truncated;
    var all, more := ps + [p], if Ok(p) then verified[Token(p.name) := Truncated(p.stdout)] else verified;
    assert all[|ps|] == p;
    forall n | n in more ensures exists i :: 0 <= i < |all| && Verifies(all[i], n, more[n]) {
      if Ok(p) && n == Token(p.name) {
        assert Verifies(all[|ps|], n, more[n]);
      } else {
        var i :| 0 <= i < |ps| && Verifies(ps[i], n, verified[n]);
        assert all[i] == ps[i];
      }
    }
  }

  /** Counts passes and failures over the probe results. */
  method Attest(profileId: string, identity: Identity, imageDigest: string, folder: string, ps: seq<ProbeResult>) returns (a: Attestation)
    ensures Attests(a, ps) && OneShape(a) && Reports(a, ps)
    ensures a.folder == folder && a.imageDigest == imageDigest && a.profileId == profileId && a.identity == identity
  {
    hide Token, Sort, Truncated, Ok, VerifiedOf, SomeOk, SomeFailed, Why, Reports;
    var failed, passed := 0, 0;
    var verified: map<string, string>, failures: seq<string>, reasons: seq<string> := map[], [], [];
    NoResults();
    for i := 0 to |ps|
      invariant failed >= 0 && passed >= 0
      invariant (failed > 0 <==> SomeFailed(ps[..i])) && (passed > 0 <==> SomeOk(ps[..i]))
      invariant failures == FailedNames(ps[..i]) && reasons == FailedReasons(ps[..i]) && VerifiedOf(ps[..i], verified)
    {
      assert ps[..i + 1] == ps[..i] + [ps[i]];
      SomeMore(ps[..i], ps[i]);
      assert ps[..i + 1][..i] == ps[..i];
      VerifiedAdded(ps[..i], ps[i], verified);
      var name := Token(ps[i].name);
      if Ok(ps[i]) {
        verified := verified[name := Truncated(ps[i].stdout)];
        passed := passed + 1;
      } else {
        failures := failures + [name];
        reasons := reasons + [name + ": " + Why(ps[i])];
        failed := failed + 1;
      }
    }
    assert ps[..|ps|] == ps;
    a := Blank(profileId, identity).(imageDigest := imageDigest, folder := folder, failedProbes := Sort(failures),
                                     degradedReasons := Sort(reasons), verified := verified);
    if failed == 0 {
      a := a.(ready := true);
    } else if passed > 0 {
      a := a.(degraded := true);
    } else {
      a := a.(terminal := true, terminalReason := "all preflight probes failed");
    }
    AttestShape(a, ps);
    ProbesAreReported(a, ps);
  }

  // ---------------------------------------------------------------------------------------
  // What an attestation says of the probes
  // ---------------------------------------------------------------------------------------

  predicate Passed(p: ProbeResult) {
    p.failure == None && p.exitCode == p.expectExit
  }

  /** The trimmed output, and of a long one the first 512 characters and a mark. */
  predicate Bounded(output: string, value: string) {
    var t := TrimSpace(output);
    if |t| <= 512 then value == t else value == t[..512] + "\U{2026}(truncated)"
  }

  /** What is wrong with a probe, after its name. */
  predicate Complaint(p: ProbeResult, reason: string) {
    match p.failure
    case Some(e) => reason == Lower(TrimSpace(p.name)) + ": " + e
    case None => reason == Lower(TrimSpace(p.name)) + ": " + ("exit " + Decimal(p.exitCode))
  }

  ghost predicate Reports(a: Attestation, ps: seq<ProbeResult>) {
    && (a.ready <==> forall p | p in ps :: Passed(p))
    && (a.degraded <==> (exists p :: p in ps && Passed(p)) && (exists p :: p in ps && !Passed(p)))
    && (a.terminal <==> ps != [] && forall p | p in ps :: !Passed(p))
    && (a.terminalReason == if a.terminal then "all preflight probes failed" else "")
    && (forall x :: x in a.failedProbes <==> exists p :: p in ps && !Passed(p) && x == Lower(TrimSpace(p.name)))
    && (forall x :: x in a.degradedReasons <==> exists p :: p in ps && !Passed(p) && Complaint(p, x))
    && (forall x :: x in a.verified <==> exists p :: p in ps && Passed(p) && x == Lower(TrimSpace(p.name)))
    && (forall x | x in a.verified ::
          exists p :: p in ps && Passed(p) && x == Lower(TrimSpace(p.name)) && Bounded(p.stdout, a.verified[x]))
  }

  lemma {:induction false} FailedMembers(ps: seq<ProbeResult>, x: string)
    ensures x in FailedNames(ps) <==> exists p :: p in ps && !Passed(p) && x == Lower(TrimSpace(p.name))
    ensures x in FailedReasons(ps) <==> exists p :: p in ps && !Passed(p) && Complaint(p, x)
  {
    hide Ok, Passed, Why, Complaint, Token, Lower, TrimSpace;
    if ps != [] {
      var init, p := ps[..|ps| - 1], ps[|ps| - 1];
      FailedMembers(init, x);
      Complains(p, x);
      assert ps == init + [p];
      assert forall q :: q in ps <==> q in init || q == p;
    }
  }

  lemma Complains(p: ProbeResult, x: string)
    ensures Ok(p) <==> Passed(p)
    ensures Complaint(p, x) <==> x == Token(p.name) + ": " + Why(p)
    ensures Token(p.name) == Lower(TrimSpace(p.name))
  {
    hide Lower, TrimSpace, Decimal;
  }

  lemma Somewhere(ps: seq<ProbeResult>)
    ensures SomeOk(ps) <==> exists p :: p in ps && Passed(p)
    ensures SomeFailed(ps) <==> exists p :: p in ps && !Passed(p)
  {
    if p :| p in ps && Passed(p) {
      var i :| 0 <= i < |ps| && ps[i] == p;
      assert Ok(ps[i]);
    }
    if p :| p in ps && !Passed(p) {
      var i :| 0 <= i < |ps| && ps[i] == p;
      assert !Ok(ps[i]);
    }
    if i :| 0 <= i < |ps| && Ok(ps[i]) { assert ps[i] in ps && Passed(ps[i]); }
    if i :| 0 <= i < |ps| && !Ok(ps[i]) { assert ps[i] in ps && !Passed(ps[i]); }
  }

  lemma SortMembers(xs: seq<string>, x: string)
    ensures x in Sort(xs) <==> x in xs
  {
    hide Sort, Sorted;
    SortSorts(xs);
    SameElements(Sort(xs), xs);
  }

  lemma ShapesReported(a: Attestation, ps: seq<ProbeResult>)
    requires Attests(a, ps)
    ensures (a.ready <==> forall p | p in ps :: Passed(p))
    ensures (a.degraded <==> (exists p :: p in ps && Passed(p)) && (exists p :: p in ps && !Passed(p)))
    ensures (a.terminal <==> ps != [] && forall p | p in ps :: !Passed(p))
  {
    hide VerifiedOf, FailedNames, FailedReasons, Sort, SomeOk, SomeFailed, Passed;
    Somewhere(ps);
    if ps != [] { assert ps[0] in ps; }
  }

  lemma VerifiedReported(a: Attestation, ps: seq<ProbeResult>)
    requires VerifiedOf(ps, a.verified)
    ensures forall x :: x in a.verified <==> exists p :: p in ps && Passed(p) && x == Lower(TrimSpace(p.name))
    ensures forall x | x in a.verified ::
              exists p :: p in ps && Passed(p) && x == Lower(TrimSpace(p.name)) && Bounded(p.stdout, a.verified[x])
  {
    hide Lower, TrimSpace;
    forall x | x in a.verified ensures exists p :: p in ps && Passed(p) && x == Lower(TrimSpace(p.name)) && Bounded(p.stdout, a.verified[x]) {
      var i :| 0 <= i < |ps| && Verifies(ps[i], x, a.verified[x]);
      assert ps[i] in ps;
    }
    forall p | p in ps && Passed(p) ensures Lower(TrimSpace(p.name)) in a.verified {
      var i :| 0 <= i < |ps| && ps[i] == p;
      assert Ok(ps[i]);
    }
  }

  /** The attestation of a running container tells exactly which probes passed, which did not and why. */
  lemma ProbesAreReported(a: Attestation, ps: seq<ProbeResult>)
    requires Attests(a, ps)
    ensures Reports(a, ps)
  {
    hide Passed, Complaint, Bounded, SomeOk, SomeFailed, VerifiedOf, FailedNames, FailedReasons, Sort, Lower, TrimSpace;
    ShapesReported(a, ps);
    VerifiedReported(a, ps);
    forall x ensures x in a.failedProbes <==> exists p :: p in ps && !Passed(p) && x == Lower(TrimSpace(p.name))
             ensures x in a.degradedReasons <==> exists p :: p in ps && !Passed(p) && Complaint(p, x) {
      FailedMembers(ps, x);
      SortMembers(FailedNames(ps), x);
      SortMembers(FailedReasons(ps), x);
    }
  }

  lemma NoResults()
    ensures !SomeOk([]) && !SomeFailed([]) && VerifiedOf([], map[])
  {
  }

  /** The runner's own error text, or the exit code. */
  function Why(p: ProbeResult): string {
    if p.failure.Some? then p.failure.value else "exit " + Decimal(p.exitCode)
  }

  // ---------------------------------------------------------------------------------------
  // Triples
  // ---------------------------------------------------------------------------------------

  datatype Object = Text(s: string) | Truth(b: bool) | Count64(n: int) | Names(xs: seq<string>)

  datatype Triple = Triple(key: string, value: Object)

  function Named(name: string): string {
    "sandbox.attestation." + name
  }

  function OutcomeText(o: Outcome): string {
    match o
    case Admitted => "admitted"
    case Pending => "admission_pending"
    case Denied => "denied"
  }

  function Opening(a: Attestation): seq<Triple> {
    [Triple(Named("profile"), Text(a.profileId)), Triple(Named("ready"), Truth(a.ready))]
  }

  function Standing(a: Attestation): seq<Triple> {
    [Triple(Named("attested-at"), Text(a.identity.attestedAt)), Triple(Named("degraded"), Truth(a.degraded)),
     Triple(Named("admission"), Text(OutcomeText(a.admission))), Triple(Named("terminal"), Truth(a.terminal)),
     Triple(Named("requirements-hash"), Text(a.identity.hash)), Triple(Named("signature"), Text(a.identity.signature)),
     Triple(Named("ttl-seconds"), Count64(a.identity.ttl))]
  }

  function Always(a: Attestation): seq<Triple> {
    Opening(a) + Standing(a)
  }

  function IfText(name: string, s: string): seq<Triple> {
    if s == "" then [] else [Triple(Named(name), Text(s))]
  }

  function IfNames(name: string, xs: seq<string>): seq<Triple> {
    if xs == [] then [] else [Triple(Named(name), Names(xs))]
  }

  function Verified(a: Attestation, keys: seq<string>): seq<Triple> {
    if keys == [] then []
    else
      var k := keys[|keys| - 1];
      Verified(a, keys[..|keys| - 1]) +
      (if k in a.verified && a.verified[k] != "" then [Triple(Named("verified-" + Kebab(k)), Text(a.verified[k]))] else [])
  }

  ghost function Rest(a: Attestation): seq<Triple> {
    IfText("terminal-reason", a.terminalReason) + IfNames("degraded-reasons", a.degradedReasons) +
    IfNames("failed-probes", a.failedProbes) + IfNames("admission-reasons", a.admissionReasons) +
    Verified(a, Listing(a.verified.Keys))
  }

  ghost function TriplesOf(a: Attestation): seq<Triple> {
    Always(a) + IfText("image-digest", a.imageDigest) + IfText("host-workspace-folder", a.folder) + Rest(a)
  }

  // The triples of an attestation, one by one.

  /** What is stamped of every attestation. */
  predicate StandingFact(a: Attestation, t: Triple) {
    || t == Triple("sandbox.attestation." + "profile", Text(a.profileId))
    || t == Triple("sandbox.attestation." + "ready", Truth(a.ready))
    || t == Triple("sandbox.attestation." + "attested-at", Text(a.identity.attestedAt))
    || t == Triple("sandbox.attestation." + "degraded", Truth(a.degraded))
    || (t.key == "sandbox.attestation." + "admission" &&
        t.value == Text(if a.admission == Admitted then "admitted" else if a.admission == Pending then "admission_pending" else "denied"))
    || t == Triple("sandbox.attestation." + "terminal", Truth(a.terminal))
    || t == Triple("sandbox.attestation." + "requirements-hash", Text(a.identity.hash))
    || t == Triple("sandbox.attestation." + "signature", Text(a.identity.signature))
    || t == Triple("sandbox.attestation." + "ttl-seconds", Count64(a.identity.ttl))
  }

  /** What is stamped only where there is something to say. */
  predicate PresentFact(a: Attestation, t: Triple) {
    || (a.imageDigest != "" && t == Triple("sandbox.attestation." + "image-digest", Text(a.imageDigest)))
    || (a.folder != "" && t == Triple("sandbox.attestation." + "host-workspace-folder", Text(a.folder)))
    || (a.terminalReason != "" && t == Triple("sandbox.attestation." + "terminal-reason", Text(a.terminalReason)))
    || (a.degradedReasons != [] && t == Triple("sandbox.attestation." + "degraded-reasons", Names(a.degradedReasons)))
    || (a.failedProbes != [] && t == Triple("sandbox.attestation." + "failed-probes", Names(a.failedProbes)))
    || (a.admissionReasons != [] && t == Triple("sandbox.attestation." + "admission-reasons", Names(a.admissionReasons)))
  }

  ghost predicate VerifiedFact(a: Attestation, t: Triple) {
    exists name :: name in a.verified && a.verified[name] != "" &&
      t == Triple("sandbox.attestation." + ("verified-" + Kebab(name)), Text(a.verified[name]))
  }

  ghost predicate StampedFact(a: Attestation, t: Triple) {
    StandingFact(a, t) || PresentFact(a, t) || VerifiedFact(a, t)
  }

  lemma {:induction false} VerifiedMembers(a: Attestation, keys: seq<string>, t: Triple)
    ensures t in Verified(a, keys) <==>
            exists k :: k in keys && k in a.verified && a.verified[k] != "" && t == Triple(Named("verified-" + Kebab(k)), Text(a.verified[k]))
  {
    hide Kebab, Named;
    if keys != [] {
      var init, k := keys[..|keys| - 1], keys[|keys| - 1];
      VerifiedMembers(a, init, t);
      assert keys == init + [k];
    }
  }

  lemma StandingWritten(a: Attestation, t: Triple)
    ensures t in Always(a) <==> StandingFact(a, t)
  {
  }

  lemma PresentWritten(a: Attestation, t: Triple)
    ensures PresentFact(a, t) <==>
            || t in IfText("image-digest", a.imageDigest) || t in IfText("host-workspace-folder", a.folder)
            || t in IfText("terminal-reason", a.terminalReason) || t in IfNames("degraded-reasons", a.degradedReasons)
            || t in IfNames("failed-probes", a.failedProbes) || t in IfNames("admission-reasons", a.admissionReasons)
  {
  }

  /** An attestation is stamped as exactly these triples. */
  lemma StampedFacts(a: Attestation, t: Triple)
    ensures t in TriplesOf(a) <==> StampedFact(a, t)
  {
    hide Always, IfText, IfNames, Verified, Listing, Kebab, StandingFact, PresentFact;
    StandingWritten(a, t);
    PresentWritten(a, t);
    VerifiedMembers(a, Listing(a.verified.Keys), t);
  }

  lemma AllStamped(a: Attestation, ts: seq<Triple>)
    requires ts == TriplesOf(a)
    ensures forall t :: t in ts <==> StampedFact(a, t)
  {
    hide TriplesOf, StampedFact;
    forall t ensures t in ts <==> StampedFact(a, t) { StampedFacts(a, t); }
  }

  method Triples(a: Attestation) returns (ts: seq<Triple>)
    ensures ts == TriplesOf(a) && forall t :: t in ts <==> StampedFact(a, t)
  {
    hide StampedFact;
    hide Always, IfText, IfNames, Kebab, Listing;
    ts := Always(a) + IfText("image-digest", a.imageDigest) + IfText("host-workspace-folder", a.folder) +
          (IfText("terminal-reason", a.terminalReason) + IfNames("degraded-reasons", a.degradedReasons) +
           IfNames("failed-probes", a.failedProbes) + IfNames("admission-reasons", a.admissionReasons));
    var keys := SortedList(a.verified.Keys);
    ghost var head := ts;
    for i := 0 to |keys|
      invariant ts == head + Verified(a, keys[..i])
    {
      assert keys[..i + 1][..i] == keys[..i];
      assert keys[i] in keys;
      if a.verified[keys[i]] != "" {
        ts := ts + [Triple(Named("verified-" + Kebab(keys[i])), Text(a.verified[keys[i]]))];
      }
    }
    assert keys[..|keys|] == keys;
    AllStamped(a, ts);
  }

  // ---------------------------------------------------------------------------------------
  // Reading an append-only log: the last value of a predicate wins
  // ---------------------------------------------------------------------------------------

  function Last(log: seq<Triple>, key: string): Option<Object> {
    if log == [] then None
    else if log[|log| - 1].key == key then Some(log[|log| - 1].value)
    else Last(log[..|log| - 1], key)
  }

  /** All values per predicate in order, then the last of each. */
  method DecodeExactEntityTriples(log: seq<Triple>) returns (out: map<string, Object>)
    ensures forall k :: Last(log, k) == if k in out then Some(out[k]) else None
  {
    var all: map<string, seq<Object>> := map[];
    for i := 0 to |log|
      invariant forall k :: if k in all then all[k] != [] && Last(log[..i], k) == Some(all[k][|all[k]| - 1]) else Last(log[..i], k) == None
    {
      var t := log[i];
      assert log[..i + 1][..i] == log[..i];
      all := all[t.key := (if t.key in all then all[t.key] else []) + [t.value]];
    }
    assert log[..|log|] == log;
    out := map k | k in all :: LastOf(all[k]);
    assert forall k | k in all :: all[k] != [];
  }

  function LastOf(xs: seq<Object>): Object {
    if xs == [] then Text("") else xs[|xs| - 1]
  }

  lemma {:induction false} LastAppend(a: seq<Triple>, b: seq<Triple>, key: string)
    ensures Last(a + b, key) == if Last(b, key).Some? then Last(b, key) else Last(a, key)
  {
    if b == [] {
      assert a + b == a;
    } else {
      assert (a + b)[..|a + b| - 1] == a + b[..|b| - 1];
      LastAppend(a, b[..|b| - 1], key);
    }
  }

  lemma {:induction false} LastAbsent(ts: seq<Triple>, key: string)
    requires forall t | t in ts :: t.key != key
    ensures Last(ts, key) == None
  {
    if ts != [] { LastAbsent(ts[..|ts| - 1], key); }
  }

  lemma NamedApart(a: string, b: string)
    ensures Named(a) == Named(b) <==> a == b
  {
    if Named(a) == Named(b) {
      assert a == Named(a)[|"sandbox.attestation."|..] && b == Named(b)[|"sandbox.attestation."|..];
    }
  }

  lemma {:induction false} VerifiedKeys(a: Attestation, keys: seq<string>, t: Triple)
    requires t in Verified(a, keys)
    ensures exists k :: t.key == Named("verified-" + Kebab(k))
  {
    hide Kebab, Named;
    var k := keys[|keys| - 1];
    if t in Verified(a, keys[..|keys| - 1]) {
      VerifiedKeys(a, keys[..|keys| - 1], t);
    } else {
      assert t.key == Named("verified-" + Kebab(k));
    }
  }

  lemma VerifiedName(k: string)
    ensures "verified-" + Kebab(k) != "ready" && "verified-" + Kebab(k) != "host-workspace-folder"
  {
    hide Kebab;
    assert ("verified-" + Kebab(k))[0] == 'v' && "ready"[0] == 'r' && "host-workspace-folder"[0] == 'h';
  }

  lemma RestKeys(a: Attestation, t: Triple)
    requires t in Rest(a)
    ensures t.key != Named("ready") && t.key != Named("host-workspace-folder")
  {
    hide Named, Kebab, Listing, Verified;
    RestNames();
    if t in Verified(a, Listing(a.verified.Keys)) {
      VerifiedKeys(a, Listing(a.verified.Keys), t);
      var k :| t.key == Named("verified-" + Kebab(k));
      VerifiedName(k);
      NamedApart("verified-" + Kebab(k), "ready");
      NamedApart("verified-" + Kebab(k), "host-workspace-folder");
    }
  }

  lemma RestNames()
    ensures forall n | n in ["terminal-reason", "degraded-reasons", "failed-probes", "admission-reasons", "image-digest"] ::
              Named(n) != Named("ready") && Named(n) != Named("host-workspace-folder")
  {
    hide Named;
    forall n | n in ["terminal-reason", "degraded-reasons", "failed-probes", "admission-reasons", "image-digest"]
      ensures Named(n) != Named("ready") && Named(n) != Named("host-workspace-folder")
    {
      NamedApart(n, "ready");
      NamedApart(n, "host-workspace-folder");
      assert |"terminal-reason"| == 15 && |"degraded-reasons"| == 16 && |"failed-probes"| == 13 && |"admission-reasons"| == 17
             && |"image-digest"| == 12 && |"ready"| == 5 && |"host-workspace-folder"| == 21;
    }
  }

  lemma AlwaysReady(a: Attestation)
    ensures Last(Always(a), Named("ready")) == Some(Truth(a.ready))
    ensures Last(Always(a), Named("host-workspace-folder")) == None
  {
    hide Named, Opening, Standing, Last;
    OpeningSays(a);
    forall t | t in Standing(a) ensures t.key != Named("ready") && t.key != Named("host-workspace-folder") {
      StandingKeys(a, t);
    }
    LastAbsent(Standing(a), Named("ready"));
    LastAbsent(Standing(a), Named("host-workspace-folder"));
    LastAppend(Opening(a), Standing(a), Named("ready"));
    LastAppend(Opening(a), Standing(a), Named("host-workspace-folder"));
  }

  lemma OpeningSays(a: Attestation)
    ensures Last(Opening(a), Named("ready")) == Some(Truth(a.ready))
    ensures Last(Opening(a), Named("host-workspace-folder")) == None
  {
    hide Named;
    NamedApart("ready", "host-workspace-folder");
    NamedApart("profile", "host-workspace-folder");
    assert |"ready"| == 5 && |"profile"| == 7 && |"host-workspace-folder"| == 21;
    LastAbsent(Opening(a), Named("host-workspace-folder"));
  }

  lemma StandingKeys(a: Attestation, t: Triple)
    requires t in Standing(a)
    ensures t.key != Named("ready") && t.key != Named("host-workspace-folder")
  {
    hide Named;
    StandingNames();
  }

  lemma StandingNames()
    ensures forall n | n in ["attested-at", "degraded", "admission", "terminal", "requirements-hash", "signature", "ttl-seconds"] ::
              Named(n) != Named("host-workspace-folder") && Named(n) != Named("ready")
  {
    hide Named;
    assert |"ready"| == 5 && |"host-workspace-folder"| == 21;
    assert |"attested-at"| == 11 && |"degraded"| == 8 && |"admission"| == 9 && |"terminal"| == 8
           && |"requirements-hash"| == 17 && |"signature"| == 9 && |"ttl-seconds"| == 11;
    forall n | n in ["attested-at", "degraded", "admission", "terminal", "requirements-hash", "signature", "ttl-seconds"]
      ensures Named(n) != Named("host-workspace-folder") && Named(n) != Named("ready")
    {
      NamedApart(n, "host-workspace-folder");
      NamedApart(n, "ready");
    }
  }

  /** What one attestation's triples say to the router. */
  lemma StampSays(a: Attestation)
    ensures Last(TriplesOf(a), Named("ready")) == Some(Truth(a.ready))
    ensures Last(TriplesOf(a), Named("host-workspace-folder")) == if a.folder == "" then None else Some(Text(a.folder))
  {
    hide Named, Always, Rest, Last;
    var ready, wsf := Named("ready"), Named("host-workspace-folder");
    var image, folder := IfText("image-digest", a.imageDigest), IfText("host-workspace-folder", a.folder);
    RestNames();
    AlwaysReady(a);
    forall t | t in Rest(a) ensures t.key != ready && t.key != wsf { RestKeys(a, t); }
    LastAbsent(Rest(a), ready);
    LastAbsent(Rest(a), wsf);
    LastAbsent(image, ready);
    LastAbsent(image, wsf);
    FolderSays(a);
    LastAppend(Always(a), image, ready);
    LastAppend(Always(a), image, wsf);
    LastAppend(Always(a) + image, folder, ready);
    LastAppend(Always(a) + image, folder, wsf);
    LastAppend(Always(a) + image + folder, Rest(a), ready);
    LastAppend(Always(a) + image + folder, Rest(a), wsf);
  }

  lemma FolderSays(a: Attestation)
    ensures var folder := IfText("host-workspace-folder", a.folder);
            && Last(folder, Named("ready")) == None
            && Last(folder, Named("host-workspace-folder")) == if a.folder == "" then None else Some(Text(a.folder))
  {
    hide Named;
    NamedApart("host-workspace-folder", "ready");
    assert |"host-workspace-folder"| == 21 && |"ready"| == 5;
    var folder := IfText("host-workspace-folder", a.folder);
    if a.folder != "" { assert folder[..0] == []; }
  }

  ghost predicate KebabsDiffer(keys: set<string>) {
    forall x, y | x in keys && y in keys && x != y :: Kebab(x) != Kebab(y)
  }

  lemma VerifiedApart(x: string, y: string)
    ensures Named("verified-" + Kebab(x)) == Named("verified-" + Kebab(y)) <==> Kebab(x) == Kebab(y)
  {
    hide Named, Kebab;
    NamedApart("verified-" + Kebab(x), "verified-" + Kebab(y));
    if "verified-" + Kebab(x) == "verified-" + Kebab(y) {
      assert Kebab(x) == ("verified-" + Kebab(x))[9..] && Kebab(y) == ("verified-" + Kebab(y))[9..];
    }
  }

  lemma {:induction false} VerifiedSays(a: Attestation, keys: seq<string>, k: string)
    requires k in keys && k in a.verified && a.verified[k] != ""
    requires KebabsDiffer(a.verified.Keys) && forall x | x in keys :: x in a.verified
    ensures Last(Verified(a, keys), Named("verified-" + Kebab(k))) == Some(Text(a.verified[k]))
  {
    hide Named, Kebab;
    var init, last := keys[..|keys| - 1], keys[|keys| - 1];
    var own := if a.verified[last] != "" then [Triple(Named("verified-" + Kebab(last)), Text(a.verified[last]))] else [];
    assert Verified(a, keys) == Verified(a, init) + own;
    LastAppend(Verified(a, init), own, Named("verified-" + Kebab(k)));
    VerifiedApart(last, k);
    if k != last {
      assert keys == init + [last];
      VerifiedSays(a, init, k);
      LastAbsent(own, Named("verified-" + Kebab(k)));
    } else {
      assert own[..0] == [];
    }
  }

  /** A verified value with a segment of its own is what the last stamp of its predicate says. */
  lemma StampVerifies(a: Attestation, k: string)
    requires k in a.verified && a.verified[k] != "" && KebabsDiffer(a.verified.Keys)
    ensures Last(TriplesOf(a), Named("verified-" + Kebab(k))) == Some(Text(a.verified[k]))
  {
    hide Named, Kebab, Listing, Verified, Always, Last, KebabsDiffer;
    var keys := Listing(a.verified.Keys);
    var ys := IfText("terminal-reason", a.terminalReason) + IfNames("degraded-reasons", a.degradedReasons) +
              IfNames("failed-probes", a.failedProbes) + IfNames("admission-reasons", a.admissionReasons);
    var xs := Always(a) + IfText("image-digest", a.imageDigest) + IfText("host-workspace-folder", a.folder);
    VerifiedSays(a, keys, k);
    LastAppend(ys, Verified(a, keys), Named("verified-" + Kebab(k)));
    assert Rest(a) == ys + Verified(a, keys);
    assert TriplesOf(a) == xs + Rest(a);
    LastAppend(xs, Rest(a), Named("verified-" + Kebab(k)));
  }

  // ---------------------------------------------------------------------------------------
  // Routing
  // ---------------------------------------------------------------------------------------

  ghost function LogOf(stamped: seq<Attestation>): seq<Triple> {
    if stamped == [] then [] else LogOf(stamped[..|stamped| - 1]) + TriplesOf(stamped[|stamped| - 1])
  }

  /** Ready must be a stored true, and then the stored folder is used. */
  function Resolve(ready: Option<Object>, folder: Option<Object>): string {
    if ready == Some(Truth(true)) && folder.Some? && folder.value.Text? then folder.value.s else ""
  }

  function ResolveLog(log: seq<Triple>): string {
    Resolve(Last(log, Named("ready")), Last(log, Named("host-workspace-folder")))
  }

  /** The last folder that any attestation carried. */
  function LatestFolder(stamped: seq<Attestation>): string {
    if stamped == [] then ""
    else if stamped[|stamped| - 1].folder != "" then stamped[|stamped| - 1].folder
    else LatestFolder(stamped[..|stamped| - 1])
  }

  lemma {:induction false} LogSays(stamped: seq<Attestation>)
    ensures Last(LogOf(stamped), Named("ready")) == if stamped == [] then None else Some(Truth(stamped[|stamped| - 1].ready))
    ensures Last(LogOf(stamped), Named("host-workspace-folder")) ==
            if LatestFolder(stamped) == "" then None else Some(Text(LatestFolder(stamped)))
  {
    hide Named, TriplesOf;
    if stamped != [] {
      var init, a := stamped[..|stamped| - 1], stamped[|stamped| - 1];
      LogSays(init);
      StampSays(a);
      LastAppend(LogOf(init), TriplesOf(a), Named("ready"));
      LastAppend(LogOf(init), TriplesOf(a), Named("host-workspace-folder"));
    }
  }

  /** What the router concludes from any history: ready comes from the last attestation, the folder from the last that had one. */
  lemma RouteOfHistory(stamped: seq<Attestation>)
    ensures ResolveLog(LogOf(stamped)) ==
            if stamped != [] && stamped[|stamped| - 1].ready then LatestFolder(stamped) else ""
  {
    hide Named, LogOf, Last;
    LogSays(stamped);
  }

  /**
  The router goes exactly by the last attestation, its folder if ready and no container otherwise, if and only if a last
  attestation that is ready without a folder has no earlier folder behind it.
  */
  lemma RouteIsLastAttestationIff(stamped: seq<Attestation>)
    requires stamped != []
    ensures var a := stamped[|stamped| - 1];
            ResolveLog(LogOf(stamped)) == (if a.ready then a.folder else "") <==>
            (a.ready && a.folder == "" ==> LatestFolder(stamped[..|stamped| - 1]) == "")
  {
    hide ResolveLog, LogOf;
    RouteOfHistory(stamped);
  }

  /** Otherwise commands would go to the container of an earlier request. */
  lemma StaleFolderIsUsed(old_: Attestation, new_: Attestation)
    requires old_.folder != "" && new_.ready && new_.folder == ""
    ensures ResolveLog(LogOf([old_, new_])) == old_.folder
  {
    hide ResolveLog, LogOf;
    RouteOfHistory([old_, new_]);
    assert [old_, new_][..1] == [old_];
  }
}

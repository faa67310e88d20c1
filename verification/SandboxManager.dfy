/** The request orchestrator and the command router that reads what it stamped. */
module SandboxManager {
  import opened Text
  import opened Requirements
  import opened Validation
  import opened Admission
  import opened ProfileMatching
  import opened Attestation
  import opened Signatures
  import Ordering
  import ShellQuoting

  datatype ContainerRef = ContainerRef(imageDigest: string, folder: string)

  /** What the runner reports. */
  datatype UpResult = Running(ref: ContainerRef) | Broken(error: string)

  /** A call that started a container in a workspace. */
  datatype UpCall = UpCall(profile: Profile, requirements: SandboxRequirements, workspace: string)

  /** One request on one chain, at some time. */
  datatype Call = Call(chain: string, req: SandboxRequirements, at: string)

  /** What became of it: the attestation, whether it was published, and the containers it started. */
  datatype Entry = Entry(call: Call, attestation: Attestation, published: bool, started: seq<UpCall>)

  const UNMATCHED := Profile("unmatched", "v0", [], [], [], [], [], 0)
  const INVALID := "requirements validation failed: "
  const NO_MATCH := "no profile match: "
  const UP_FAILED := "devcontainer up failed: "

  function NoMatchText(m: Match): string
    requires !m.Matched?
  {
    match m
    case EmptyCatalog => "sandboxmanager: profile catalog is empty"
    case NoMatch(unmet) =>
      if unmet == [] then "sandboxmanager: no profile match (no unmet detail)"
      else "sandboxmanager: no profile match; unmet capabilities: " + Concat(", ", unmet)
  }

  /** A container did not come up, for some reason that the runner gave. */
  predicate UpFailure(profile: Profile, a: Attestation) {
    UP_FAILED <= a.terminalReason && a == AttestTerminalError(ProfileId(profile), a.identity, a.terminalReason)
  }

  class Manager {
    const catalog: seq<Profile>
    const policy: Policy
    const codec: Codec
    const root: string

    /** The triples of every chain entity, in the order they were appended. */
    var logs: map<string, seq<Triple>>

    ghost var stamped: map<string, seq<Attestation>>
    ghost var ups: seq<UpCall>

    constructor (catalog: seq<Profile>, policy: Policy, codec: Codec, root: string)
      ensures Valid() && stamped == map[] && ups == []
      ensures this.catalog == catalog && this.policy == policy && this.codec == codec && this.root == root
    {
      this.catalog, this.policy, this.codec, this.root := catalog, policy, codec, root;
      logs, stamped, ups := map[], map[], [];
    }

    function Log(chain: string): seq<Triple>
      reads this`logs
    {
      if chain in logs then logs[chain] else []
    }

    ghost function Stamped(chain: string): seq<Attestation>
      reads this`stamped
    {
      History(stamped, chain)
    }

    /** Logs hold exactly the stamped attestations; each has one shape, and a ready one its folder; containers only start when admitted. */
    ghost predicate Valid()
      reads this
    {
      && (forall c :: Log(c) == LogOf(Stamped(c)))
      && (forall c, a | a in Stamped(c) :: Sound(a))
      && (forall u | u in ups :: AdmissionOf(u.requirements, u.profile, policy).outcome == Admitted)
    }

    /** The content address of a request with a profile, at a time. */
    ghost predicate IdentityFor(profile: Profile, r: SandboxRequirements, at: string, identity: Identity) {
      && HashOf(codec, r, identity.hash) && identity.signature == Signature(codec, ProfileId(profile), identity.hash)
      && identity.attestedAt == at && identity.ttl == ResolvedTtl(profile)
    }

    /**
    What a validated request comes to: no match is terminal; admission is judged on the normal form against the matched
    profile and, unless admitted, nothing starts; otherwise one container starts in the workspace of the signature, and
    its probes decide.
    */
    ghost predicate Answers(n: SandboxRequirements, m: Match, at: string, a: Attestation, started: seq<UpCall>) {
      if !m.Matched? then
        && IdentityFor(UNMATCHED, n, at, a.identity) && started == []
        && a == AttestTerminalError(ProfileId(UNMATCHED), a.identity, NO_MATCH + NoMatchText(m))
      else
        m.index < |catalog| &&
        var profile := catalog[m.index];
        var admission := AdmissionOf(n, profile, policy);
        && IdentityFor(profile, n, at, a.identity)
        && if admission.outcome != Admitted then a == AttestAdmissionFailure(ProfileId(profile), a.identity, admission) && started == []
           else
             && started == [UpCall(profile, n, Workspace(root, a.identity.signature))]
             && (UpFailure(profile, a) || Probed(n, profile, a))
    }

    /** What any request comes to. */
    ghost predicate Answered(req: SandboxRequirements, at: string, a: Attestation, started: seq<UpCall>) {
      if FaultOf(req).Some? then
        && IdentityFor(UNMATCHED, req, at, a.identity) && started == []
        && a == AttestTerminalError(ProfileId(UNMATCHED), a.identity, INVALID + FaultText(FaultOf(req).value))
      else exists n, m :: NormalForm(req, n) && MatchFor(catalog, n, m) && Answers(n, m, at, a, started)
    }

    // The runner and the publisher, of which only their promises are used.

    /** A container that comes up has a workspace folder. */
    method Up(profile: Profile, requirements: SandboxRequirements, workspace: string) returns (up: UpResult)
      modifies this`ups
      ensures ups == old(ups) + [UpCall(profile, requirements, workspace)]
      ensures up.Running? ==> up.ref.folder != ""
    {
      ups := ups + [UpCall(profile, requirements, workspace)];
      if * {
        var error: string := *;
        return Broken(error);
      }
      assert ContainerRef("", "/").folder != "";
      var ok: ContainerRef :| ok.folder != "";
      up := Running(ok);
    }

    method Exec(ref: ContainerRef, command: string) returns (res: ProbeResult)
    {
      res := *;
    }

    /** All or nothing. */
    method Append(chain: string, ts: seq<Triple>) returns (ok: bool)
      modifies this`logs
      ensures logs == if ok then old(logs)[chain := old(Log(chain)) + ts] else old(logs)
    {
      ok := *;
      if ok { logs := logs[chain := Log(chain) + ts]; }
    }

    method RunProbes(ref: ContainerRef, probes: seq<Probe>) returns (out: seq<ProbeResult>)
      ensures ResultsOf(out, probes)
    {
      out := [];
      for i := 0 to |probes|
        invariant |out| == i
        invariant forall j | 0 <= j < i :: out[j].name == probes[j].name && out[j].expectExit == probes[j].expectExit
      {
        var res := Exec(ref, probes[i].command);
        out := out + [res.(name := probes[i].name, expectExit := probes[i].expectExit)];
      }
    }

    /** Appends the attestation's triples to the chain; without a chain nothing is stamped. */
    method Stamp(chain: string, a: Attestation) returns (ok: bool)
      requires Valid() && Sound(a)
      modifies this`logs, this`stamped
      ensures Valid()
      ensures stamped == if ok && chain != "" then old(stamped)[chain := old(Stamped(chain)) + [a]] else old(stamped)
    {
      hide TriplesOf, Sound, LogOf, AdmissionOf;
      if chain == "" { return true; }
      var ts := Triples(a);
      ok := Append(chain, ts);
      if ok {
        ghost var before := Stamped(chain);
        stamped := stamped[chain := before + [a]];
        LogGrows(before, a);
        forall c ensures Log(c) == LogOf(Stamped(c)) {
          assert c != chain ==> Log(c) == old(Log(c)) && Stamped(c) == old(Stamped(c));
        }
        forall c, x | x in Stamped(c) ensures Sound(x) {
          assert c != chain ==> x in old(Stamped(c));
        }
      }
    }

    method Identify(profile: Profile, r: SandboxRequirements, at: string) returns (identity: Identity)
      ensures IdentityFor(profile, r, at, identity)
    {
      hide HashOf;
      var h := Hash(codec, r);
      identity := Identity(h, Signature(codec, ProfileId(profile), h), at, ResolvedTtl(profile));
    }

    method WorkspaceFor(profile: Profile, r: SandboxRequirements) returns (path: string)
      ensures WorkspaceOf(codec, root, profile, r, path)
      ensures exists sig :: SignatureOf(codec, profile, r, sig) && Lies(path, sig)
    {
      hide HashOf, Workspace, Short, Trims;
      var h := Hash(codec, r);
      ghost var sig := Signature(codec, ProfileId(profile), h);
      assert SignatureOf(codec, profile, r, sig);
      path := Workspace(root, Signature(codec, ProfileId(profile), h));
      forall base | Trims(root, base) ensures path == base + "/" + Short(sig) + "/workspace" { WorkspaceIs(root, base, sig); }
    }

    /** A path below the root: at most sixteen characters of the signature, and "workspace". */
    ghost predicate Lies(path: string, sig: string) {
      forall base | Trims(root, base) :: path == base + "/" + Short(sig) + "/workspace"
    }

    /** For a normal form the workspace is that of the attested signature. */
    lemma OneWorkspace(req: SandboxRequirements, n: SandboxRequirements, profile: Profile, at: string, identity: Identity, path: string)
      requires Requirements.Valid(req) && NormalForm(req, n)
      requires IdentityFor(profile, n, at, identity) && WorkspaceOf(codec, root, profile, n, path)
      ensures path == Workspace(root, identity.signature)
    {
      hide NormalForm, HashOf, SegmentsDiffer;
      assert SegmentsDiffer(req.verification);
      var sig :| SignatureOf(codec, profile, n, sig) && path == Workspace(root, sig);
      var h :| HashOf(codec, n, h) && sig == Signature(codec, ProfileId(profile), h);
      HashSeen(codec, req, n);
      HashOfNormalForm(codec, req, codec.digest(codec.encode(n)), n, h);
      HashOfNormalForm(codec, req, codec.digest(codec.encode(n)), n, identity.hash);
    }

    /** Validate, normalize, match, admit, start, probe, attest; every way out is stamped. */
    method Request(chain: string, req: SandboxRequirements, at: string)
      returns (a: Attestation, published: bool, started: seq<UpCall>)
      requires Valid()
      modifies this
      ensures Valid() && OneShape(a)
      ensures Answered(req, at, a, started) && ups == old(ups) + started
      ensures stamped == if published && chain != "" then old(stamped)[chain := old(Stamped(chain)) + [a]] else old(stamped)
      ensures a.ready ==> |started| == 1 && a.folder != ""
      ensures started != [] ==> |started| == 1 && Lies(started[0].workspace, a.identity.signature)
      ensures a.folder != "" && published && chain != "" ==>
                exists n, ps :: NormalForm(req, n) && ResultsOf(ps, n.verification) && Attests(a, ps) && ReadsBack(Log(chain), n, ps)
    {
      hide AdmissionOf, MatchFor, NormalForm, Requirements.Valid, Manager.Valid, Attests, ResultsOf, HashOf, ReadsBack, IdentityFor;
      hide FaultOf, FaultText, NoMatchText, UpFailure, Probed, Workspace, AttestTerminalError, AttestAdmissionFailure, Answers, Lies;
      started := [];
      var fault := Validate(req);
      if fault.Some? {
        var identity := Identify(UNMATCHED, req, at);
        a := AttestTerminalError(ProfileId(UNMATCHED), identity, INVALID + FaultText(fault.value));
        TerminalIsSound(ProfileId(UNMATCHED), identity, INVALID + FaultText(fault.value));
        published := Stamp(chain, a);
        return;
      }
      var n := Normalize(req);
      a, published, started := Place(chain, req, n, at);
      if started != [] { StartedThere(req, at, a, started); }
    }

    /** The part after normalization: match, admit, and start. */
    method Place(chain: string, req: SandboxRequirements, n: SandboxRequirements, at: string)
      returns (a: Attestation, published: bool, started: seq<UpCall>)
      requires Valid() && Requirements.Valid(req) && NormalForm(req, n)
      modifies this
      ensures Valid() && OneShape(a) && ups == old(ups) + started
      ensures exists m :: MatchFor(catalog, n, m) && Answers(n, m, at, a, started)
      ensures stamped == if published && chain != "" then old(stamped)[chain := old(Stamped(chain)) + [a]] else old(stamped)
      ensures a.ready ==> |started| == 1 && a.folder != ""
      ensures a.folder != "" && published && chain != "" ==>
                exists ps :: ResultsOf(ps, n.verification) && Attests(a, ps) && ReadsBack(Log(chain), n, ps)
    {
      hide AdmissionOf, MatchFor, NormalForm, Requirements.Valid, Manager.Valid, Attests, ResultsOf, HashOf, ReadsBack, IdentityFor;
      hide FaultOf, FaultText, NoMatchText, UpFailure, Probed, Workspace, AttestTerminalError, AttestAdmissionFailure, LogOf;
      started := [];
      var m := MatchProfile(catalog, n);
      if !m.Matched? {
        var identity := Identify(UNMATCHED, n, at);
        a := AttestTerminalError(ProfileId(UNMATCHED), identity, NO_MATCH + NoMatchText(m));
        TerminalIsSound(ProfileId(UNMATCHED), identity, NO_MATCH + NoMatchText(m));
        assert Answers(n, m, at, a, started);
        published := Stamp(chain, a);
        return;
      }
      MatchedIndex(catalog, n, m);
      var profile := catalog[m.index];
      var admission := AdmissionCheck(n, profile, policy);
      if admission.outcome != Admitted {
        var identity := Identify(profile, n, at);
        a := AttestAdmissionFailure(ProfileId(profile), identity, admission);
        FailureIsSound(ProfileId(profile), identity, admission);
        assert Answers(n, m, at, a, started);
        published := Stamp(chain, a);
        return;
      }
      a, published := Start(chain, req, n, profile, at);
      started := [UpCall(profile, n, Workspace(root, a.identity.signature))];
      assert Answers(n, m, at, a, started);
    }

    /** The part after admission: bring the container up, probe it, attest, and stamp. */
    method Start(chain: string, req: SandboxRequirements, n: SandboxRequirements, profile: Profile, at: string)
      returns (a: Attestation, published: bool)
      requires Valid() && Requirements.Valid(req) && NormalForm(req, n) && AdmissionOf(n, profile, policy).outcome == Admitted
      modifies this
      ensures Valid() && OneShape(a) && IdentityFor(profile, n, at, a.identity)
      ensures ups == old(ups) + [UpCall(profile, n, Workspace(root, a.identity.signature))]
      ensures UpFailure(profile, a) || Probed(n, profile, a)
      ensures stamped == if published && chain != "" then old(stamped)[chain := old(Stamped(chain)) + [a]] else old(stamped)
      ensures a.ready ==> a.folder != ""
      ensures a.folder != "" && published && chain != "" ==>
                exists ps :: ResultsOf(ps, n.verification) && Attests(a, ps) && ReadsBack(Log(chain), n, ps)
    {
      hide AdmissionOf, NormalForm, Requirements.Valid, Attests, LogOf, ResultsOf, HashOf, ReadsBack, IdentityFor, Workspace, WorkspaceOf;
      var workspace := WorkspaceFor(profile, n);
      var identity := Identify(profile, n, at);
      OneWorkspace(req, n, profile, at, identity, workspace);
      var up := Up(profile, n, workspace);
      assert Valid() by {
        forall u | u in ups ensures AdmissionOf(u.requirements, u.profile, policy).outcome == Admitted {
          assert u in old(ups) || u == UpCall(profile, n, workspace);
        }
      }
      if up.Broken? {
        a := AttestTerminalError(ProfileId(profile), identity, UP_FAILED + up.error);
        published := Stamp(chain, a);
        return;
      }
      var ps := RunProbes(up.ref, n.verification);
      a := Attest(ProfileId(profile), identity, up.ref.imageDigest, up.ref.folder, ps);
      published := Stamp(chain, a);
      if published && chain != "" {
        LogGrows(old(Stamped(chain)), a);
        assert Log(chain) == LogOf(Stamped(chain));
        StampReadsBack(req, n, ps, a, LogOf(old(Stamped(chain))));
      }
    }

    /** Reads the chain entity; a failed read yields nothing. */
    method ReadEntity(chain: string) returns (view: Option<map<string, Object>>)
      ensures view.Some? ==> forall k :: Last(Log(chain), k) == if k in view.value then Some(view.value[k]) else None
    {
      if * { return None; }
      var out := DecodeExactEntityTriples(Log(chain));
      view := Some(out);
    }

    /**
    Routes a command: into the container of the last stamped attestation when that one was ready, and unchanged
    otherwise or when the entity cannot be read.
    */
    method RouteCommand(chain: string, command: string) returns (sent: string, read: bool)
      requires Valid()
      ensures sent == Routed(Stamped(chain), read, command)
    {
      hide LogOf, AdmissionOf, ShellQuoting.Wrap, LatestFolder;
      if chain == "" { return command, false; }
      var view := ReadEntity(chain);
      if view.None? { return command, false; }
      read := true;
      var ready := if Named("ready") in view.value then Some(view.value[Named("ready")]) else None;
      var wsf := if Named("host-workspace-folder") in view.value then Some(view.value[Named("host-workspace-folder")]) else None;
      var folder := Resolve(ready, wsf);
      ghost var s := Stamped(chain);
      RouteFollowsLast(s);
      assert s != [] ==> Sound(s[|s| - 1]);
      assert Log(chain) == LogOf(Stamped(chain));
      assert folder == ResolveLog(Log(chain));
      if folder == "" { return command, read; }
      sent := ShellQuoting.WrapDevcontainerExec(folder, command);
    }

    /** The trace has one entry per call, and each attestation answers its own call. */
    ghost predicate Serves(trace: seq<Entry>, calls: seq<Call>) {
      && |trace| == |calls|
      && forall i | 0 <= i < |calls| ::
           && trace[i].call == calls[i] && OneShape(trace[i].attestation)
           && Answered(calls[i].req, calls[i].at, trace[i].attestation, trace[i].started)
    }

    lemma ServesOneMore(trace: seq<Entry>, calls: seq<Call>, e: Entry)
      requires |trace| < |calls| && Serves(trace, calls[..|trace|]) && e.call == calls[|trace|] && OneShape(e.attestation)
      requires Answered(e.call.req, e.call.at, e.attestation, e.started)
      ensures Serves(trace + [e], calls[..|trace| + 1])
    {
      hide Answered, OneShape;
      var all, done := trace + [e], calls[..|trace| + 1];
      forall i | 0 <= i < |done|
        ensures && all[i].call == done[i] && OneShape(all[i].attestation)
                && Answered(done[i].req, done[i].at, all[i].attestation, all[i].started)
      {
        if i < |trace| { assert all[i] == trace[i] && done[i] == calls[..|trace|][i]; }
      }
    }

    /** An invalid request is turned down with its first fault. */
    lemma InvalidSays(req: SandboxRequirements, at: string, a: Attestation, started: seq<UpCall>)
      requires Answered(req, at, a, started) && FaultOf(req).Some?
      ensures a.profileId == "unmatched@v0" && a.terminal && a.identity.ttl == 86400 && a.identity.attestedAt == at && started == []
      ensures a.terminalReason == "requirements validation failed: " + FaultText(FaultOf(req).value)
      ensures !a.ready && !a.degraded && a.folder == "" && a.verified == map[] && a.admission == Admitted
    {
      hide FaultOf, FaultText, HashOf;
    }

    /** A request that no profile fits is turned down with what is unmet. */
    lemma UnmatchedSays(n: SandboxRequirements, m: Match, at: string, a: Attestation, started: seq<UpCall>)
      requires Answers(n, m, at, a, started) && !m.Matched?
      ensures a.profileId == "unmatched@v0" && a.terminal && a.identity.ttl == 86400 && a.identity.attestedAt == at && started == []
      ensures m.EmptyCatalog? ==> a.terminalReason == "no profile match: " + "sandboxmanager: profile catalog is empty"
      ensures m.NoMatch? && m.unmet != [] ==>
                a.terminalReason == "no profile match: " + ("sandboxmanager: no profile match; unmet capabilities: " + Concat(", ", m.unmet))
      ensures !a.ready && !a.degraded && a.folder == "" && a.verified == map[] && a.admission == Admitted
    {
      hide HashOf, Concat;
    }

    /** A request that a profile fits is denied with every reason, left pending with every reason, or started. */
    lemma MatchedSays(n: SandboxRequirements, m: Match, at: string, a: Attestation, started: seq<UpCall>)
      requires Answers(n, m, at, a, started) && m.Matched?
      ensures m.index < |catalog|
      ensures var p := catalog[m.index];
              && a.profileId == p.name + "@" + p.version && a.identity.attestedAt == at
              && a.identity.ttl == if p.ttl <= 0 then 86400 else p.ttl
      ensures var res := AdmissionOf(n, catalog[m.index], policy);
              && (res.outcome == Denied ==>
                    a.terminal && a.terminalReason == "admission denied: " + Concat("; ", res.denied) && a.admissionReasons == res.denied + res.pending)
              && (res.outcome == Pending ==> !a.terminal && a.terminalReason == "" && a.admissionReasons == res.denied + res.pending)
              && (res.outcome != Admitted ==> a.admission == res.outcome && started == [] && !a.ready && !a.degraded && a.folder == "")
              && (res.outcome == Admitted ==>
                    && a.admission == Admitted && a.admissionReasons == [] && started == [UpCall(catalog[m.index], n, Workspace(root, a.identity.signature))]
                    && (a.folder == "" ==> a.terminal && "devcontainer up failed: " <= a.terminalReason))
    {
      hide HashOf, Concat, AdmissionOf, Workspace, ResultsOf;
    }

    /** An entry that started a container started one, in the workspace below the root that its signature names. */
    ghost predicate Placed(e: Entry) {
      e.started == [] || (|e.started| == 1 && Lies(e.started[0].workspace, e.attestation.identity.signature))
    }

    /** Containers share a workspace exactly when the first sixteen characters of their signatures are the same. */
    ghost predicate WorkspacesApart(trace: seq<Entry>) {
      forall i, j | 0 <= i < |trace| && 0 <= j < |trace| && trace[i].started != [] && trace[j].started != [] ::
        trace[i].started[0].workspace == trace[j].started[0].workspace <==>
        Short(trace[i].attestation.identity.signature) == Short(trace[j].attestation.identity.signature)
    }

    lemma StartedThere(req: SandboxRequirements, at: string, a: Attestation, started: seq<UpCall>)
      requires Answered(req, at, a, started) && started != []
      ensures |started| == 1 && started[0].workspace == Workspace(root, a.identity.signature)
      ensures Lies(started[0].workspace, a.identity.signature)
    {
      hide IdentityFor, AdmissionOf, MatchFor, NormalForm, FaultOf, Workspace, UpFailure, Probed, Trims, Short;
      forall base | Trims(root, base) ensures Workspace(root, a.identity.signature) == base + "/" + Short(a.identity.signature) + "/workspace" {
        WorkspaceIs(root, base, a.identity.signature);
      }
    }

    lemma WhereContainersAre(trace: seq<Entry>, calls: seq<Call>)
      requires Serves(trace, calls)
      ensures WorkspacesApart(trace) && forall e | e in trace :: Placed(e)
    {
      hide Answered, OneShape, Workspace, Short, Lies;
      forall i | 0 <= i < |trace| && trace[i].started != []
        ensures |trace[i].started| == 1 && trace[i].started[0].workspace == Workspace(root, trace[i].attestation.identity.signature)
        ensures Placed(trace[i])
      {
        StartedThere(calls[i].req, calls[i].at, trace[i].attestation, trace[i].started);
      }
      forall i, j | 0 <= i < |trace| && 0 <= j < |trace| && trace[i].started != [] && trace[j].started != []
        ensures trace[i].started[0].workspace == trace[j].started[0].workspace <==>
                Short(trace[i].attestation.identity.signature) == Short(trace[j].attestation.identity.signature)
      {
        WorkspacesEqualIff(root, trace[i].attestation.identity.signature, trace[j].attestation.identity.signature);
      }
    }

    /** Any sequence of requests on any chains: every chain's history grows by exactly what was published on it, in order. */
    method Requests(calls: seq<Call>) returns (trace: seq<Entry>)
      requires Valid()
      modifies this
      ensures Valid() && Serves(trace, calls) && ups == old(ups) + Started(trace)
      ensures forall c :: Stamped(c) == old(Stamped(c)) + Published(trace, c)
      ensures WorkspacesApart(trace) && forall e | e in trace :: Placed(e)
    {
      hide WorkspacesApart, Placed;
      hide Answered, OneShape, NormalForm, Attests, ReadsBack, ResultsOf, Serves, Manager.Valid, Published, Started, Grown;
      trace := [];
      NoTrace();
      assert Grown(stamped, stamped, trace) by { NoGrowth(stamped); }
      assert Serves([], calls[..0]) by { ServesNone(calls); }
      for i := 0 to |calls|
        invariant Valid() && |trace| == i && Serves(trace, calls[..i]) && ups == old(ups) + Started(trace)
        invariant Grown(old(stamped), stamped, trace)
      {
        ghost var before := stamped;
        var a, published, started := Request(calls[i].chain, calls[i].req, calls[i].at);
        var e := Entry(calls[i], a, published, started);
        TraceGrows(trace, e);
        GrownMore(old(stamped), before, stamped, trace, e);
        ServesOneMore(trace, calls, e);
        trace := trace + [e];
      }
      assert calls[..|calls|] == calls;
      GrownIs(old(stamped), stamped, trace);
      WhereContainersAre(trace, calls);
    }

    lemma ServesNone(calls: seq<Call>)
      ensures Serves([], calls[..0])
    {
    }

    /**
    Any sequence of requests on any chains, then a command: the last attestation that the requests published on its
    chain decides where the command goes, and an earlier one only if they published none.
    */
    method Session(calls: seq<Call>, chain: string, command: string) returns (trace: seq<Entry>, sent: string, read: bool)
      requires Valid()
      modifies this
      ensures Valid() && Serves(trace, calls) && ups == old(ups) + Started(trace)
      ensures forall c :: Stamped(c) == old(Stamped(c)) + Published(trace, c)
      ensures sent == Routed(old(Stamped(chain)) + Published(trace, chain), read, command)
      ensures Published(trace, chain) != [] ==> sent == Routed(Published(trace, chain), read, command)
    {
      hide Serves, Manager.Valid, Published, Started, ShellQuoting.Wrap;
      trace := Requests(calls);
      sent, read := RouteCommand(chain, command);
    }
  }

  /** Where a command goes after a history of attestations. */
  function Routed(history: seq<Attestation>, read: bool, command: string): string {
    if read && history != [] && history[|history| - 1].ready then ShellQuoting.Wrap(history[|history| - 1].folder, command)
    else command
  }

  /** What one entry published on a chain. */
  function Own(e: Entry, c: string): seq<Attestation> {
    if e.published && e.call.chain == c != "" then [e.attestation] else []
  }

  /** The attestations that a trace published on a chain, in order. */
  function Published(trace: seq<Entry>, chain: string): seq<Attestation> {
    if trace == [] then []
    else
      var e := trace[|trace| - 1];
      Published(trace[..|trace| - 1], chain) + Own(e, chain)
  }

  /** The containers that a trace started, in order. */
  function Started(trace: seq<Entry>): seq<UpCall> {
    if trace == [] then [] else Started(trace[..|trace| - 1]) + trace[|trace| - 1].started
  }

  ghost function History(stamped: map<string, seq<Attestation>>, chain: string): seq<Attestation> {
    if chain in stamped then stamped[chain] else []
  }

  /** Every chain's history has grown by what the trace published on it. */
  ghost predicate Grown(before: map<string, seq<Attestation>>, after: map<string, seq<Attestation>>, trace: seq<Entry>) {
    forall c :: History(after, c) == History(before, c) + Published(trace, c)
  }

  lemma GrownIs(before: map<string, seq<Attestation>>, after: map<string, seq<Attestation>>, trace: seq<Entry>)
    requires Grown(before, after, trace)
    ensures forall c :: History(after, c) == History(before, c) + Published(trace, c)
  {
    hide Published;
  }

  lemma NoGrowth(stamped: map<string, seq<Attestation>>)
    ensures Grown(stamped, stamped, [])
  {
  }

  lemma GrownMore(first: map<string, seq<Attestation>>, before: map<string, seq<Attestation>>, after: map<string, seq<Attestation>>,
                  trace: seq<Entry>, e: Entry)
    requires Grown(first, before, trace)
    requires var c := e.call.chain;
             after == if e.published && c != "" then before[c := History(before, c) + [e.attestation]] else before
    ensures Grown(first, after, trace + [e])
  {
    hide Published, History;
    forall c ensures History(after, c) == History(first, c) + Published(trace + [e], c) {
      HistoryMore(before, after, e, c);
      PublishedMore(trace, e, c);
      assert History(before, c) == History(first, c) + Published(trace, c);
    }
  }

  lemma HistoryMore(before: map<string, seq<Attestation>>, after: map<string, seq<Attestation>>, e: Entry, c: string)
    requires var k := e.call.chain;
             after == if e.published && k != "" then before[k := History(before, k) + [e.attestation]] else before
    ensures History(after, c) == History(before, c) + Own(e, c)
  {
  }

  lemma PublishedMore(trace: seq<Entry>, e: Entry, c: string)
    ensures Published(trace + [e], c) == Published(trace, c) + Own(e, c)
  {
    assert (trace + [e])[..|trace|] == trace;
  }

  lemma NoTrace()
    ensures Started([]) == [] && forall c :: Published([], c) == []
  {
  }

  lemma TraceGrows(trace: seq<Entry>, e: Entry)
    ensures Started(trace + [e]) == Started(trace) + e.started
  {
    assert (trace + [e])[..|trace|] == trace;
  }

  /** Some outcome of the requested probes, in their order, is what the attestation reports. */
  ghost predicate Probed(n: SandboxRequirements, profile: Profile, a: Attestation) {
    && a.profileId == ProfileId(profile) && a.folder != ""
    && exists ps :: ResultsOf(ps, n.verification) && Attests(a, ps)
  }

  ghost predicate ResultsOf(ps: seq<ProbeResult>, probes: seq<Probe>) {
    |ps| == |probes| && forall i | 0 <= i < |ps| :: ps[i].name == probes[i].name && ps[i].expectExit == probes[i].expectExit
  }

  ghost predicate Sound(a: Attestation) {
    OneShape(a) && (a.ready ==> a.folder != "")
  }

  lemma TerminalIsSound(profileId: string, identity: Identity, reason: string)
    ensures var a := AttestTerminalError(profileId, identity, reason);
            Sound(a) && !a.ready && a.folder == "" && a.identity == identity
  {
  }

  lemma FailureIsSound(profileId: string, identity: Identity, res: Admission)
    requires res.outcome != Admitted
    ensures var a := AttestAdmissionFailure(profileId, identity, res);
            Sound(a) && !a.ready && a.folder == "" && a.identity == identity
  {
  }

  lemma LogGrows(stamped: seq<Attestation>, a: Attestation)
    ensures LogOf(stamped + [a]) == LogOf(stamped) + TriplesOf(a)
  {
    assert (stamped + [a])[..|stamped|] == stamped;
  }

  lemma MatchedIndex(ps: seq<Profile>, r: SandboxRequirements, m: Match)
    requires MatchFor(ps, r, m) && m.Matched?
    ensures m.index < |ps|
  {
  }

  lemma HashSeen(codec: Codec, r: SandboxRequirements, n: SandboxRequirements)
    requires NormalForm(r, n)
    ensures HashOf(codec, r, codec.digest(codec.encode(n)))
  {
    hide NormalForm;
  }

  /** Each passed probe with output reads back under its own predicate. */
  ghost predicate ReadsBack(log: seq<Triple>, n: SandboxRequirements, ps: seq<ProbeResult>) {
    forall i | 0 <= i < |ps| && i < |n.verification| && Ok(ps[i]) && Truncated(ps[i].stdout) != "" ::
      Last(log, Named("verified-" + Kebab(n.verification[i].name))) == Some(Object.Text(Truncated(ps[i].stdout)))
  }

  lemma NamesAreTokens(req: SandboxRequirements, n: SandboxRequirements)
    requires Requirements.Valid(req) && NormalForm(req, n)
    ensures forall i | 0 <= i < |n.verification| :: Token(n.verification[i].name) == n.verification[i].name
    ensures forall i, j | 0 <= i < j < |n.verification| :: Kebab(n.verification[i].name) != Kebab(n.verification[j].name)
  {
    hide Token, Kebab, TrimSpace, ProbesSorted, Ordering.Listing, ProbeOk, Tokenlike, SecretShape, SegmentsDiffer;
    NormalProbesStay(req.verification, n.verification);
    forall i | 0 <= i < |n.verification| ensures Token(n.verification[i].name) == n.verification[i].name {
      assert NormalProbes(n.verification)[i] == n.verification[i];
    }
    StampedSegmentsDiffer(req, n);
  }

  /** The verified values are those of the probes that carry their names. */
  lemma OwnOutput(n: SandboxRequirements, ps: seq<ProbeResult>, a: Attestation, name: string)
    requires ResultsOf(ps, n.verification) && Attests(a, ps) && name in a.verified
    requires forall i | 0 <= i < |n.verification| :: Token(n.verification[i].name) == n.verification[i].name
    ensures exists j :: 0 <= j < |ps| && n.verification[j].name == name && a.verified[name] == Truncated(ps[j].stdout)
  {
    hide Token, Truncated, Ok, SomeOk, SomeFailed, FailedNames, FailedReasons, Ordering.Sort;
    var j :| 0 <= j < |ps| && Verifies(ps[j], name, a.verified[name]);
    assert n.verification[j].name == name;
  }

  lemma StampReadsBack(req: SandboxRequirements, n: SandboxRequirements, ps: seq<ProbeResult>, a: Attestation, log: seq<Triple>)
    requires Requirements.Valid(req) && NormalForm(req, n) && ResultsOf(ps, n.verification) && Attests(a, ps)
    ensures ReadsBack(log + TriplesOf(a), n, ps)
  {
    hide Requirements.Valid, NormalForm, Attests, Token, Kebab, Truncated, TriplesOf, Named, Last, Ok;
    NamesAreTokens(req, n);
    forall x | x in a.verified ensures exists j :: 0 <= j < |ps| && n.verification[j].name == x && a.verified[x] == Truncated(ps[j].stdout) {
      OwnOutput(n, ps, a, x);
    }
    assert KebabsDiffer(a.verified.Keys);
    forall i | 0 <= i < |ps| && i < |n.verification| && Ok(ps[i]) && Truncated(ps[i].stdout) != ""
      ensures Last(log + TriplesOf(a), Named("verified-" + Kebab(n.verification[i].name))) == Some(Object.Text(Truncated(ps[i].stdout)))
    {
      var name := n.verification[i].name;
      PassedIsVerified(n, ps, a, i);
      var j :| 0 <= j < |ps| && n.verification[j].name == name && a.verified[name] == Truncated(ps[j].stdout);
      assert j == i;
      StampVerifies(a, name);
      LastAppend(log, TriplesOf(a), Named("verified-" + Kebab(name)));
    }
  }

  lemma PassedIsVerified(n: SandboxRequirements, ps: seq<ProbeResult>, a: Attestation, i: nat)
    requires ResultsOf(ps, n.verification) && Attests(a, ps) && i < |ps| && Ok(ps[i])
    requires Token(n.verification[i].name) == n.verification[i].name
    ensures n.verification[i].name in a.verified
  {
    hide Token, Truncated;
  }

  /** In a sound history the router goes exactly by the last attestation. */
  lemma RouteFollowsLast(stamped: seq<Attestation>)
    requires forall a | a in stamped :: Sound(a)
    ensures ResolveLog(LogOf(stamped)) == if stamped != [] && stamped[|stamped| - 1].ready then stamped[|stamped| - 1].folder else ""
  {
    hide ResolveLog, LogOf;
    RouteOfHistory(stamped);
    if stamped != [] {
      assert Sound(stamped[|stamped| - 1]);
    }
  }
}

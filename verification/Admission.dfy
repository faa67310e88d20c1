/** Admission: every requirement is judged by itself, and the worst judgement decides. */
module Admission {
  import opened Text
  import opened Ordering
  import opened Requirements

  datatype Profile = Profile(name: string, version: string, languages: seq<string>, tools: seq<string>, services: seq<string>,
                             allowedNetwork: seq<string>, allowedPrivileges: seq<string>, ttl: int)

  function ProfileId(p: Profile): string {
    p.name + "@" + p.version
  }

  datatype Policy = Policy(allowPublicNetwork: bool, allowPrivileged: bool, secrets: seq<string>)

  datatype Verdict = Admit | Pend(reason: string) | Deny(reason: string)

  datatype Outcome = Admitted | Pending | Denied

  datatype Admission = Admission(outcome: Outcome, pending: seq<string>, denied: seq<string>)

  // ---------------------------------------------------------------------------------------
  // One requirement
  // ---------------------------------------------------------------------------------------

  function JudgePrivilege(p: string, profile: Profile, policy: Policy): Verdict {
    if p == "privileged" then
      if !policy.allowPrivileged then Deny("privilege:privileged requires AllowPrivilegedContainers operator policy")
      else if p !in profile.allowedPrivileges then Deny("privilege:privileged not allowed on profile " + ProfileId(profile))
      else Pend("privilege:privileged requires chain admission-reviewer approval")
    else if p == "docker-socket" then
      if p !in profile.allowedPrivileges then Deny("privilege:docker-socket not allowed on profile " + ProfileId(profile))
      else Pend("privilege:docker-socket requires chain admission-reviewer approval")
    else Deny("privilege:" + p + " unknown to admission (Validate should have caught)")
  }

  function JudgeNetwork(network: string, profile: Profile, policy: Policy): Verdict {
    if network == "" || network == "restricted" || network == "none" then
      var net := if network == "" then "restricted" else network;
      if net !in profile.allowedNetwork then Deny("network:" + net + " not allowed on profile " + ProfileId(profile)) else Admit
    else if network == "public" then
      if network !in profile.allowedNetwork then Deny("network:public not allowed on profile " + ProfileId(profile))
      else if !policy.allowPublicNetwork then
        Pend("network:public requires AllowPublicNetwork operator policy OR admission-reviewer approval")
      else Admit
    else Deny("network:" + network + " unknown to admission (Validate should have caught)")
  }

  /** Compared case by case with what the operator provisioned. */
  function JudgeSecret(s: string, policy: Policy): Verdict {
    if exists t :: t in policy.secrets && TrimSpace(t) == TrimSpace(s) then Admit
    else Deny("secret:" + s + " not pre-provisioned by operator")
  }

  function JudgeMount(m: string): Verdict {
    if m == "workspace-write" || m == "workspace-read" then Admit
    else Deny("mount:" + m + " unknown to admission (Validate should have caught)")
  }

  function JudgeProbe(p: Probe): Verdict {
    if TrimSpace(p.name) == "" || TrimSpace(p.command) == "" then
      Deny("verification probe " + Quoted(p.name) + " malformed (Validate should have caught)")
    else Admit
  }

  // ---------------------------------------------------------------------------------------
  // All requirements
  // ---------------------------------------------------------------------------------------

  /** What is judged. */
  datatype Item = OfPrivilege(p: string) | OfNetwork(n: string) | OfSecret(s: string) | OfMount(m: string) | OfProbe(v: Probe)

  function Judge(x: Item, profile: Profile, policy: Policy): Verdict {
    match x
    case OfPrivilege(p) => JudgePrivilege(p, profile, policy)
    case OfNetwork(n) => JudgeNetwork(n, profile, policy)
    case OfSecret(s) => JudgeSecret(s, policy)
    case OfMount(m) => JudgeMount(m)
    case OfProbe(v) => JudgeProbe(v)
  }

  function Items(r: SandboxRequirements): seq<Item> {
    seq(|r.privileges|, i requires 0 <= i < |r.privileges| => OfPrivilege(r.privileges[i])) +
    [OfNetwork(r.network)] +
    seq(|r.secrets|, i requires 0 <= i < |r.secrets| => OfSecret(r.secrets[i])) +
    seq(|r.mounts|, i requires 0 <= i < |r.mounts| => OfMount(r.mounts[i])) +
    seq(|r.verification|, i requires 0 <= i < |r.verification| => OfProbe(r.verification[i]))
  }

  ghost function PendingReasons(xs: seq<Item>, profile: Profile, policy: Policy): set<string> {
    set x | x in xs && Judge(x, profile, policy).Pend? :: Judge(x, profile, policy).reason
  }

  ghost function DeniedReasons(xs: seq<Item>, profile: Profile, policy: Policy): set<string> {
    set x | x in xs && Judge(x, profile, policy).Deny? :: Judge(x, profile, policy).reason
  }

  /** Denied beats pending beats admitted; every reason once, in order. */
  ghost function AdmissionOf(r: SandboxRequirements, profile: Profile, policy: Policy): Admission {
    var pending, denied := PendingReasons(Items(r), profile, policy), DeniedReasons(Items(r), profile, policy);
    Admission(if denied != {} then Denied else if pending != {} then Pending else Admitted, Listing(pending), Listing(denied))
  }

  function Worse(v: Verdict): nat {
    match v
    case Admit => 0
    case Pend(_) => 1
    case Deny(_) => 2
  }

  function Rank(o: Outcome): nat {
    match o
    case Admitted => 0
    case Pending => 1
    case Denied => 2
  }

  /** The outcome is the worst judgement of any item. */
  lemma WorstDecides(r: SandboxRequirements, profile: Profile, policy: Policy)
    ensures var k := Rank(AdmissionOf(r, profile, policy).outcome);
            && (forall x | x in Items(r) :: Worse(Judge(x, profile, policy)) <= k)
            && (exists x :: x in Items(r) && Worse(Judge(x, profile, policy)) == k)
  {
    hide Judge, Items, Listing;
    var xs := Items(r);
    var pending, denied := PendingReasons(xs, profile, policy), DeniedReasons(xs, profile, policy);
    forall x | x in xs ensures Judge(x, profile, policy).Pend? ==> pending != {} {
      if Judge(x, profile, policy).Pend? { assert Judge(x, profile, policy).reason in pending; }
    }
    forall x | x in xs ensures Judge(x, profile, policy).Deny? ==> denied != {} {
      if Judge(x, profile, policy).Deny? { assert Judge(x, profile, policy).reason in denied; }
    }
    if denied != {} {
      var m :| m in denied;
      var x :| x in xs && Judge(x, profile, policy) == Deny(m);
      assert Worse(Judge(x, profile, policy)) == 2;
    } else if pending != {} {
      var m :| m in pending;
      var x :| x in xs && Judge(x, profile, policy) == Pend(m);
      assert Worse(Judge(x, profile, policy)) == 1;
    } else {
      NetworkIsItem(r);
      assert Worse(Judge(OfNetwork(r.network), profile, policy)) == 0;
    }
  }

  lemma NetworkIsItem(r: SandboxRequirements)
    ensures OfNetwork(r.network) in Items(r)
  {
    assert Items(r)[|r.privileges|] == OfNetwork(r.network);
  }

  lemma ItemIn(r: SandboxRequirements, x: Item)
    ensures x in Items(r) <==>
            match x
            case OfPrivilege(p) => p in r.privileges
            case OfNetwork(n) => n == r.network
            case OfSecret(s) => s in r.secrets
            case OfMount(m) => m in r.mounts
            case OfProbe(v) => v in r.verification
  {
    var a := seq(|r.privileges|, i requires 0 <= i < |r.privileges| => OfPrivilege(r.privileges[i]));
    var b := seq(|r.secrets|, i requires 0 <= i < |r.secrets| => OfSecret(r.secrets[i]));
    var c := seq(|r.mounts|, i requires 0 <= i < |r.mounts| => OfMount(r.mounts[i]));
    var d := seq(|r.verification|, i requires 0 <= i < |r.verification| => OfProbe(r.verification[i]));
    assert Items(r) == a + [OfNetwork(r.network)] + b + c + d;
    assert x in Items(r) <==> x in a || x == OfNetwork(r.network) || x in b || x in c || x in d;
    match x
    case OfPrivilege(p) => if p in r.privileges { var i :| 0 <= i < |a| && r.privileges[i] == p; assert a[i] == x; }
    case OfNetwork(n) =>
    case OfSecret(s) => if s in r.secrets { var i :| 0 <= i < |b| && r.secrets[i] == s; assert b[i] == x; }
    case OfMount(m) => if m in r.mounts { var i :| 0 <= i < |c| && r.mounts[i] == m; assert c[i] == x; }
    case OfProbe(v) => if v in r.verification { var i :| 0 <= i < |d| && r.verification[i] == v; assert d[i] == x; }
  }

  // ---------------------------------------------------------------------------------------
  // The rule without judgements
  // ---------------------------------------------------------------------------------------

  /** Nothing a reviewer could do would let these in. */
  ghost predicate Refused(r: SandboxRequirements, profile: Profile, policy: Policy) {
    || (exists p :: p in r.privileges &&
         (p !in ["docker-socket", "privileged"] || p !in profile.allowedPrivileges || (p == "privileged" && !policy.allowPrivileged)))
    || NetworkOf(r) !in profile.allowedNetwork || NetworkOf(r) !in ["restricted", "none", "public"]
    || (exists s :: s in r.secrets && forall t | t in policy.secrets :: TrimSpace(t) != TrimSpace(s))
    || (exists m :: m in r.mounts && m !in ["workspace-write", "workspace-read"])
    || (exists v :: v in r.verification && (TrimSpace(v.name) == "" || TrimSpace(v.command) == ""))
  }

  /** Privileges, and public network without the operator's leave, need a reviewer. */
  ghost predicate NeedsReview(r: SandboxRequirements, policy: Policy) {
    r.privileges != [] || (NetworkOf(r) == "public" && !policy.allowPublicNetwork)
  }

  function NetworkOf(r: SandboxRequirements): string {
    if r.network == "" then "restricted" else r.network
  }

  lemma PrivilegeDenied(p: string, profile: Profile, policy: Policy)
    ensures JudgePrivilege(p, profile, policy).Deny? <==>
            p !in ["docker-socket", "privileged"] || p !in profile.allowedPrivileges || (p == "privileged" && !policy.allowPrivileged)
    ensures !JudgePrivilege(p, profile, policy).Admit?
  {
    hide ProfileId;
    assert |"docker-socket"| == 13 && |"privileged"| == 10;
  }

  lemma DeniedItem(r: SandboxRequirements, x: Item, profile: Profile, policy: Policy)
    requires x in Items(r) && Judge(x, profile, policy).Deny?
    ensures Refused(r, profile, policy)
  {
    hide Items, JudgePrivilege, JudgeNetwork, TrimSpace;
    ItemIn(r, x);
    match x
    case OfPrivilege(p) => PrivilegeDenied(p, profile, policy);
    case OfNetwork(n) => NetworkWorse(n, profile, policy);
    case OfSecret(s) =>
    case OfMount(m) =>
    case OfProbe(v) =>
  }

  lemma RefusedItem(r: SandboxRequirements, profile: Profile, policy: Policy) returns (x: Item)
    requires Refused(r, profile, policy)
    ensures x in Items(r) && Judge(x, profile, policy).Deny?
  {
    hide Items, JudgePrivilege, JudgeNetwork, TrimSpace;
    if p :| p in r.privileges &&
            (p !in ["docker-socket", "privileged"] || p !in profile.allowedPrivileges || (p == "privileged" && !policy.allowPrivileged)) {
      x := OfPrivilege(p);
      PrivilegeDenied(p, profile, policy);
    } else if NetworkOf(r) !in profile.allowedNetwork || NetworkOf(r) !in ["restricted", "none", "public"] {
      x := OfNetwork(r.network);
      NetworkWorse(r.network, profile, policy);
    } else if s :| s in r.secrets && forall t | t in policy.secrets :: TrimSpace(t) != TrimSpace(s) {
      x := OfSecret(s);
    } else if m :| m in r.mounts && m !in ["workspace-write", "workspace-read"] {
      x := OfMount(m);
    } else {
      var v :| v in r.verification && (TrimSpace(v.name) == "" || TrimSpace(v.command) == "");
      x := OfProbe(v);
    }
    ItemIn(r, x);
  }

  // ---------------------------------------------------------------------------------------
  // The reasons, word by word
  // ---------------------------------------------------------------------------------------

  predicate PrivilegeDenial(p: string, profile: Profile, policy: Policy, reason: string) {
    || (p == "privileged" && !policy.allowPrivileged &&
        reason == "privilege:privileged requires AllowPrivilegedContainers operator policy")
    || (p == "privileged" && policy.allowPrivileged && p !in profile.allowedPrivileges &&
        reason == "privilege:privileged not allowed on profile " + (profile.name + "@" + profile.version))
    || (p == "docker-socket" && p !in profile.allowedPrivileges &&
        reason == "privilege:docker-socket not allowed on profile " + (profile.name + "@" + profile.version))
    || (p != "privileged" && p != "docker-socket" && reason == "privilege:" + p + " unknown to admission (Validate should have caught)")
  }

  predicate PrivilegeReview(p: string, profile: Profile, policy: Policy, reason: string) {
    || (p == "privileged" && policy.allowPrivileged && p in profile.allowedPrivileges &&
        reason == "privilege:privileged requires chain admission-reviewer approval")
    || (p == "docker-socket" && p in profile.allowedPrivileges &&
        reason == "privilege:docker-socket requires chain admission-reviewer approval")
  }

  predicate Quiet(network: string) {
    network == "" || network == "restricted" || network == "none"
  }

  predicate NetworkDenial(network: string, profile: Profile, reason: string) {
    if Quiet(network) || network == "public" then
      var net := if network == "" then "restricted" else network;
      net !in profile.allowedNetwork && reason == "network:" + net + " not allowed on profile " + (profile.name + "@" + profile.version)
    else reason == "network:" + network + " unknown to admission (Validate should have caught)"
  }

  predicate NetworkReview(network: string, profile: Profile, policy: Policy, reason: string) {
    network == "public" && network in profile.allowedNetwork && !policy.allowPublicNetwork &&
    reason == "network:public requires AllowPublicNetwork operator policy OR admission-reviewer approval"
  }

  predicate SecretDenial(s: string, policy: Policy, reason: string) {
    (forall t | t in policy.secrets :: TrimSpace(t) != TrimSpace(s)) && reason == "secret:" + s + " not pre-provisioned by operator"
  }

  predicate MountDenial(m: string, reason: string) {
    m != "workspace-write" && m != "workspace-read" && reason == "mount:" + m + " unknown to admission (Validate should have caught)"
  }

  predicate ProbeDenial(v: Probe, reason: string) {
    && (TrimSpace(v.name) == "" || TrimSpace(v.command) == "")
    && reason == "verification probe " + Quoted(v.name) + " malformed (Validate should have caught)"
  }

  /** Everything that a request is denied for. */
  ghost predicate DeniedFor(r: SandboxRequirements, profile: Profile, policy: Policy, reason: string) {
    || (exists p :: p in r.privileges && PrivilegeDenial(p, profile, policy, reason))
    || NetworkDenial(r.network, profile, reason)
    || (exists s :: s in r.secrets && SecretDenial(s, policy, reason))
    || (exists m :: m in r.mounts && MountDenial(m, reason))
    || (exists v :: v in r.verification && ProbeDenial(v, reason))
  }

  /** Everything that a reviewer must approve. */
  ghost predicate PendingFor(r: SandboxRequirements, profile: Profile, policy: Policy, reason: string) {
    (exists p :: p in r.privileges && PrivilegeReview(p, profile, policy, reason)) || NetworkReview(r.network, profile, policy, reason)
  }

  lemma PrivilegeReasons(p: string, profile: Profile, policy: Policy, reason: string)
    ensures JudgePrivilege(p, profile, policy) == Deny(reason) <==> PrivilegeDenial(p, profile, policy, reason)
    ensures JudgePrivilege(p, profile, policy) == Pend(reason) <==> PrivilegeReview(p, profile, policy, reason)
  {
    hide JudgePrivilege, PrivilegeDenial, PrivilegeReview;
    PrivilegeNames();
    if p == "privileged" {
      PrivilegedReasons(p, profile, policy, reason);
    } else if p == "docker-socket" {
      SocketReasons(p, profile, policy, reason);
    } else {
      NoPrivilegeReasons(p, profile, policy, reason);
    }
  }

  lemma PrivilegedReasons(p: string, profile: Profile, policy: Policy, reason: string)
    requires p == "privileged" && p != "docker-socket"
    ensures JudgePrivilege(p, profile, policy) == Deny(reason) <==> PrivilegeDenial(p, profile, policy, reason)
    ensures JudgePrivilege(p, profile, policy) == Pend(reason) <==> PrivilegeReview(p, profile, policy, reason)
  {
    hide JudgePrivilege, PrivilegeDenial, PrivilegeReview;
    PrivilegedDenied(p, profile, policy, reason);
    PrivilegedPending(p, profile, policy, reason);
  }

  lemma PrivilegedDenied(p: string, profile: Profile, policy: Policy, reason: string)
    requires p == "privileged" && p != "docker-socket"
    ensures JudgePrivilege(p, profile, policy) == Deny(reason) <==> PrivilegeDenial(p, profile, policy, reason)
  {
    hide ProfileId;
    IdIs(profile);
  }

  lemma PrivilegedPending(p: string, profile: Profile, policy: Policy, reason: string)
    requires p == "privileged" && p != "docker-socket"
    ensures JudgePrivilege(p, profile, policy) == Pend(reason) <==> PrivilegeReview(p, profile, policy, reason)
  {
    hide ProfileId;
    IdIs(profile);
  }

  lemma SocketReasons(p: string, profile: Profile, policy: Policy, reason: string)
    requires p == "docker-socket" && p != "privileged"
    ensures JudgePrivilege(p, profile, policy) == Deny(reason) <==> PrivilegeDenial(p, profile, policy, reason)
    ensures JudgePrivilege(p, profile, policy) == Pend(reason) <==> PrivilegeReview(p, profile, policy, reason)
  {
    hide ProfileId;
    IdIs(profile);
    PrivilegeNames();
  }

  lemma NoPrivilegeReasons(p: string, profile: Profile, policy: Policy, reason: string)
    requires p != "privileged" && p != "docker-socket"
    ensures JudgePrivilege(p, profile, policy) == Deny(reason) <==> PrivilegeDenial(p, profile, policy, reason)
    ensures JudgePrivilege(p, profile, policy) == Pend(reason) <==> PrivilegeReview(p, profile, policy, reason)
  {
    hide ProfileId;
  }

  lemma PrivilegeNames()
    ensures "docker-socket" != "privileged"
  {
    assert |"docker-socket"| == 13 && |"privileged"| == 10;
  }

  lemma NetworkReasons(n: string, profile: Profile, policy: Policy, reason: string)
    ensures JudgeNetwork(n, profile, policy) == Deny(reason) <==> NetworkDenial(n, profile, reason)
    ensures JudgeNetwork(n, profile, policy) == Pend(reason) <==> NetworkReview(n, profile, policy, reason)
  {
    hide JudgeNetwork, NetworkDenial, NetworkReview, Quiet;
    if n == "public" {
      PublicIsLoud();
      PublicReasons(n, profile, policy, reason);
    } else if Quiet(n) {
      QuietReasons(n, profile, policy, reason);
    } else {
      OtherReasons(n, profile, policy, reason);
    }
  }

  lemma PublicReasons(n: string, profile: Profile, policy: Policy, reason: string)
    requires n == "public" && !Quiet(n)
    ensures JudgeNetwork(n, profile, policy) == Deny(reason) <==> NetworkDenial(n, profile, reason)
    ensures JudgeNetwork(n, profile, policy) == Pend(reason) <==> NetworkReview(n, profile, policy, reason)
  {
    hide JudgeNetwork, NetworkDenial, NetworkReview;
    PublicDenied(n, profile, policy, reason);
    PublicPending(n, profile, policy, reason);
  }

  lemma PublicDenied(n: string, profile: Profile, policy: Policy, reason: string)
    requires n == "public" && !Quiet(n)
    ensures JudgeNetwork(n, profile, policy) == Deny(reason) <==> NetworkDenial(n, profile, reason)
  {
    hide ProfileId;
    NetworkLead();
    IdIs(profile);
  }

  lemma PublicPending(n: string, profile: Profile, policy: Policy, reason: string)
    requires n == "public" && !Quiet(n)
    ensures JudgeNetwork(n, profile, policy) == Pend(reason) <==> NetworkReview(n, profile, policy, reason)
  {
    hide ProfileId;
    NetworkNames();
  }

  lemma QuietReasons(n: string, profile: Profile, policy: Policy, reason: string)
    requires Quiet(n)
    ensures JudgeNetwork(n, profile, policy) == Deny(reason) <==> NetworkDenial(n, profile, reason)
    ensures JudgeNetwork(n, profile, policy) == Pend(reason) <==> NetworkReview(n, profile, policy, reason)
  {
    hide JudgeNetwork, NetworkDenial, NetworkReview, Quiet;
    QuietDenied(n, profile, policy, reason);
    QuietPending(n, profile, policy, reason);
  }

  lemma QuietDenied(n: string, profile: Profile, policy: Policy, reason: string)
    requires Quiet(n)
    ensures JudgeNetwork(n, profile, policy) == Deny(reason) <==> NetworkDenial(n, profile, reason)
  {
    hide ProfileId;
    NetworkNames();
    IdIs(profile);
  }

  lemma QuietPending(n: string, profile: Profile, policy: Policy, reason: string)
    requires Quiet(n)
    ensures JudgeNetwork(n, profile, policy) == Pend(reason) <==> NetworkReview(n, profile, policy, reason)
  {
    hide ProfileId;
    NetworkNames();
    IdIs(profile);
  }

  lemma OtherReasons(n: string, profile: Profile, policy: Policy, reason: string)
    requires !Quiet(n) && n != "public"
    ensures JudgeNetwork(n, profile, policy) == Deny(reason) <==> NetworkDenial(n, profile, reason)
    ensures JudgeNetwork(n, profile, policy) == Pend(reason) <==> NetworkReview(n, profile, policy, reason)
  {
  }

  lemma PublicIsLoud()
    ensures !Quiet("public")
  {
    NetworkNames();
  }

  lemma NetworkNames()
    ensures "" != "public" && "restricted" != "public" && "none" != "public"
  {
    assert |""| == 0 && |"restricted"| == 10 && |"none"| == 4 && |"public"| == 6;
  }

  lemma NetworkLead()
    ensures "network:" + "public" + " not allowed on profile " == "network:public not allowed on profile "
  {
  }

  lemma IdIs(p: Profile)
    ensures ProfileId(p) == p.name + "@" + p.version
  {
  }

  ghost predicate ItemDenial(x: Item, profile: Profile, policy: Policy, reason: string) {
    match x
    case OfPrivilege(p) => PrivilegeDenial(p, profile, policy, reason)
    case OfNetwork(n) => NetworkDenial(n, profile, reason)
    case OfSecret(s) => SecretDenial(s, policy, reason)
    case OfMount(m) => MountDenial(m, reason)
    case OfProbe(v) => ProbeDenial(v, reason)
  }

  ghost predicate ItemReview(x: Item, profile: Profile, policy: Policy, reason: string) {
    match x
    case OfPrivilege(p) => PrivilegeReview(p, profile, policy, reason)
    case OfNetwork(n) => NetworkReview(n, profile, policy, reason)
    case _ => false
  }

  lemma ItemReasons(x: Item, profile: Profile, policy: Policy, reason: string)
    ensures Judge(x, profile, policy) == Deny(reason) <==> ItemDenial(x, profile, policy, reason)
    ensures Judge(x, profile, policy) == Pend(reason) <==> ItemReview(x, profile, policy, reason)
  {
    hide JudgePrivilege, JudgeNetwork, PrivilegeDenial, PrivilegeReview, NetworkDenial, NetworkReview, TrimSpace, Quoted;
    match x
    case OfPrivilege(p) => PrivilegeReasons(p, profile, policy, reason);
    case OfNetwork(n) => NetworkReasons(n, profile, policy, reason);
    case OfSecret(s) =>
    case OfMount(m) =>
    case OfProbe(v) =>
  }

  lemma DeniedItemwise(r: SandboxRequirements, profile: Profile, policy: Policy, reason: string)
    ensures DeniedFor(r, profile, policy, reason) <==> exists x :: x in Items(r) && ItemDenial(x, profile, policy, reason)
  {
    hide Items, PrivilegeDenial, NetworkDenial, SecretDenial, MountDenial, ProbeDenial;
    if x :| x in Items(r) && ItemDenial(x, profile, policy, reason) { ItemIn(r, x); }
    if DeniedFor(r, profile, policy, reason) {
      var x;
      if p :| p in r.privileges && PrivilegeDenial(p, profile, policy, reason) {
        x := OfPrivilege(p);
      } else if NetworkDenial(r.network, profile, reason) {
        x := OfNetwork(r.network);
      } else if s :| s in r.secrets && SecretDenial(s, policy, reason) {
        x := OfSecret(s);
      } else if m :| m in r.mounts && MountDenial(m, reason) {
        x := OfMount(m);
      } else {
        var v :| v in r.verification && ProbeDenial(v, reason);
        x := OfProbe(v);
      }
      ItemIn(r, x);
    }
  }

  lemma PendingItemwise(r: SandboxRequirements, profile: Profile, policy: Policy, reason: string)
    ensures PendingFor(r, profile, policy, reason) <==> exists x :: x in Items(r) && ItemReview(x, profile, policy, reason)
  {
    hide Items, PrivilegeReview, NetworkReview;
    if x :| x in Items(r) && ItemReview(x, profile, policy, reason) { ItemIn(r, x); }
    if p :| p in r.privileges && PrivilegeReview(p, profile, policy, reason) { ItemIn(r, OfPrivilege(p)); }
    if NetworkReview(r.network, profile, policy, reason) { ItemIn(r, OfNetwork(r.network)); }
  }

  /** The reasons of an admission are exactly these. */
  lemma ReasonsAre(r: SandboxRequirements, profile: Profile, policy: Policy, reason: string)
    ensures reason in AdmissionOf(r, profile, policy).denied <==> DeniedFor(r, profile, policy, reason)
    ensures reason in AdmissionOf(r, profile, policy).pending <==> PendingFor(r, profile, policy, reason)
  {
    hide Items, Judge, ItemDenial, ItemReview, DeniedFor, PendingFor, Listing;
    DeniedItemwise(r, profile, policy, reason);
    PendingItemwise(r, profile, policy, reason);
    forall x ensures Judge(x, profile, policy) == Deny(reason) <==> ItemDenial(x, profile, policy, reason)
             ensures Judge(x, profile, policy) == Pend(reason) <==> ItemReview(x, profile, policy, reason) {
      ItemReasons(x, profile, policy, reason);
    }
  }

  /** Exactly when a request is denied, pending and admitted, in terms of the request, the profile and the policy alone. */
  lemma OutcomeIs(r: SandboxRequirements, profile: Profile, policy: Policy)
    ensures AdmissionOf(r, profile, policy).outcome ==
            if Refused(r, profile, policy) then Denied else if NeedsReview(r, policy) then Pending else Admitted
  {
    hide Items, Judge, AdmissionOf, Refused;
    WorstDecides(r, profile, policy);
    if Refused(r, profile, policy) {
      var x := RefusedItem(r, profile, policy);
    } else {
      forall x | x in Items(r) ensures !Judge(x, profile, policy).Deny? {
        NotDenied(r, x, profile, policy);
      }
      PendingItems(r, profile, policy);
    }
  }

  lemma NotDenied(r: SandboxRequirements, x: Item, profile: Profile, policy: Policy)
    requires x in Items(r) && !Refused(r, profile, policy)
    ensures !Judge(x, profile, policy).Deny?
  {
    hide Items, Judge, Refused;
    if Judge(x, profile, policy).Deny? { DeniedItem(r, x, profile, policy); }
  }

  lemma PendingItems(r: SandboxRequirements, profile: Profile, policy: Policy)
    requires !Refused(r, profile, policy)
    ensures (exists x :: x in Items(r) && Judge(x, profile, policy).Pend?) <==> NeedsReview(r, policy)
  {
    hide Items, JudgePrivilege, JudgeNetwork, TrimSpace;
    NetworkWorse(r.network, profile, policy);
    ItemIn(r, OfNetwork(r.network));
    if r.privileges != [] {
      var p := r.privileges[0];
      ItemIn(r, OfPrivilege(p));
      PrivilegeDenied(p, profile, policy);
      assert Judge(OfPrivilege(p), profile, policy).Pend?;
    } else if NeedsReview(r, policy) {
      assert Judge(OfNetwork(r.network), profile, policy).Pend?;
    }
    if x :| x in Items(r) && Judge(x, profile, policy).Pend? {
      ItemIn(r, x);
    }
  }

  /** The lists are contained as sets. */
  ghost predicate Within(r: SandboxRequirements, s: SandboxRequirements) {
    && (forall p | p in r.privileges :: p in s.privileges) && r.network == s.network
    && (forall x | x in r.secrets :: x in s.secrets) && (forall m | m in r.mounts :: m in s.mounts)
    && (forall v | v in r.verification :: v in s.verification)
  }

  lemma WithinItems(r: SandboxRequirements, s: SandboxRequirements)
    requires Within(r, s)
    ensures forall x | x in Items(r) :: x in Items(s)
  {
    hide Items;
    forall x | x in Items(r) ensures x in Items(s) {
      ItemIn(r, x);
      ItemIn(s, x);
    }
  }

  /** Only the sets count: order and repetition change nothing, down to the reasons. */
  lemma OnlySetsCount(r: SandboxRequirements, s: SandboxRequirements, profile: Profile, policy: Policy)
    requires Within(r, s) && Within(s, r)
    ensures AdmissionOf(r, profile, policy) == AdmissionOf(s, profile, policy)
  {
    hide Items, Judge, Listing;
    WithinItems(r, s);
    WithinItems(s, r);
    assert PendingReasons(Items(r), profile, policy) == PendingReasons(Items(s), profile, policy);
    assert DeniedReasons(Items(r), profile, policy) == DeniedReasons(Items(s), profile, policy);
  }

  /** Asking for more never improves the outcome. */
  lemma MoreRequirementsNeverHelp(r: SandboxRequirements, s: SandboxRequirements, profile: Profile, policy: Policy)
    requires Within(r, s)
    ensures Rank(AdmissionOf(r, profile, policy).outcome) <= Rank(AdmissionOf(s, profile, policy).outcome)
  {
    hide Items, Judge, AdmissionOf;
    WorstDecides(r, profile, policy);
    WorstDecides(s, profile, policy);
    WithinItems(r, s);
    var x :| x in Items(r) && Worse(Judge(x, profile, policy)) == Rank(AdmissionOf(r, profile, policy).outcome);
    assert x in Items(s);
  }

  ghost predicate PolicyWithin(p: Policy, q: Policy) {
    && (p.allowPublicNetwork ==> q.allowPublicNetwork) && (p.allowPrivileged ==> q.allowPrivileged)
    && (forall s | s in p.secrets :: s in q.secrets)
  }

  ghost predicate ProfileWithin(p: Profile, q: Profile) {
    && (forall n | n in p.allowedNetwork :: n in q.allowedNetwork)
    && (forall x | x in p.allowedPrivileges :: x in q.allowedPrivileges)
  }

  lemma JudgedNoWorse(x: Item, a: Profile, b: Profile, p: Policy, q: Policy)
    requires ProfileWithin(a, b) && PolicyWithin(p, q)
    ensures Worse(Judge(x, b, q)) <= Worse(Judge(x, a, p))
  {
    hide JudgePrivilege, JudgeNetwork, JudgeSecret, JudgeMount, JudgeProbe;
    match x
    case OfPrivilege(y) => PrivilegeNoWorse(y, a, b, p, q);
    case OfNetwork(n) => NetworkNoWorse(n, a, b, p, q);
    case OfSecret(s) => SecretNoWorse(s, p, q);
    case OfMount(m) =>
    case OfProbe(v) =>
  }

  lemma PrivilegeNoWorse(x: string, a: Profile, b: Profile, p: Policy, q: Policy)
    requires ProfileWithin(a, b) && PolicyWithin(p, q)
    ensures Worse(JudgePrivilege(x, b, q)) <= Worse(JudgePrivilege(x, a, p))
  {
    hide ProfileId;
  }

  lemma NetworkNoWorse(n: string, a: Profile, b: Profile, p: Policy, q: Policy)
    requires ProfileWithin(a, b) && PolicyWithin(p, q)
    ensures Worse(JudgeNetwork(n, b, q)) <= Worse(JudgeNetwork(n, a, p))
  {
    hide JudgeNetwork, ProfileWithin;
    NetworkWorse(n, a, p);
    NetworkWorse(n, b, q);
    var net := if n == "" then "restricted" else n;
    assert net in a.allowedNetwork ==> net in b.allowedNetwork by { NetworkKept(net, a, b); }
  }

  lemma NetworkKept(n: string, a: Profile, b: Profile)
    requires ProfileWithin(a, b)
    ensures n in a.allowedNetwork ==> n in b.allowedNetwork
  {
  }

  lemma NetworkWords()
    ensures "" != "restricted" && "" != "none" && "" != "public"
    ensures "restricted" != "none" && "restricted" != "public" && "none" != "public"
  {
    assert |"restricted"| == 10 && |"none"| == 4 && |"public"| == 6;
  }

  lemma ClosedWorse(n: string, profile: Profile, policy: Policy)
    requires n == "" || n == "restricted" || n == "none"
    ensures var net := if n == "" then "restricted" else n;
            Worse(JudgeNetwork(n, profile, policy)) == if net !in profile.allowedNetwork then 2 else 0
  {
    hide ProfileId;
  }

  lemma PublicWorse(profile: Profile, policy: Policy)
    ensures Worse(JudgeNetwork("public", profile, policy)) ==
            if "public" !in profile.allowedNetwork then 2 else if !policy.allowPublicNetwork then 1 else 0
  {
    hide ProfileId;
    NetworkWords();
  }

  lemma UnknownWorse(n: string, profile: Profile, policy: Policy)
    requires n != "" && n != "restricted" && n != "none" && n != "public"
    ensures Worse(JudgeNetwork(n, profile, policy)) == 2
  {
  }

  lemma NetworkWorse(n: string, profile: Profile, policy: Policy)
    ensures var net := if n == "" then "restricted" else n;
            Worse(JudgeNetwork(n, profile, policy)) ==
            if net !in profile.allowedNetwork || net !in ["restricted", "none", "public"] then 2
            else if net == "public" && !policy.allowPublicNetwork then 1 else 0
  {
    hide JudgeNetwork, Worse;
    NetworkWords();
    if n == "" || n == "restricted" || n == "none" {
      ClosedWorse(n, profile, policy);
    } else if n == "public" {
      PublicWorse(profile, policy);
    } else {
      UnknownWorse(n, profile, policy);
    }
  }

  lemma SecretNoWorse(s: string, p: Policy, q: Policy)
    requires PolicyWithin(p, q)
    ensures Worse(JudgeSecret(s, q)) <= Worse(JudgeSecret(s, p))
  {
    hide TrimSpace;
  }

  /** A more generous policy or profile never worsens the outcome. */
  lemma MoreGenerousNeverHurts(r: SandboxRequirements, a: Profile, b: Profile, p: Policy, q: Policy)
    requires ProfileWithin(a, b) && PolicyWithin(p, q)
    ensures Rank(AdmissionOf(r, b, q).outcome) <= Rank(AdmissionOf(r, a, p).outcome)
  {
    hide Items, Judge, AdmissionOf;
    WorstDecides(r, a, p);
    WorstDecides(r, b, q);
    var x :| x in Items(r) && Worse(Judge(x, b, q)) == Rank(AdmissionOf(r, b, q).outcome);
    JudgedNoWorse(x, a, b, p, q);
  }

  /**
  Requests are normalized before admission, and normalizing lowers secrets, so a validated secret with a letter is
  denied by every policy whose own entries have the validated shape, even one that lists that very secret.
  */
  lemma UpperCasePolicyDeniesLetters(r: SandboxRequirements, n: SandboxRequirements, s: string, profile: Profile, policy: Policy)
    requires Valid(r) && NormalForm(r, n) && s in r.secrets && HasLetter(TrimSpace(s))
    requires forall t | t in policy.secrets :: SecretShape(TrimSpace(t))
    ensures AdmissionOf(n, profile, policy).outcome == Denied
  {
    hide Valid, NormalForm, Token, TrimSpace, Lower, SecretShape, AdmissionOf, HasLetter, Refused;
    assert !LoweredListed(s, policy) by {
      forall t | t in policy.secrets ensures TrimSpace(t) != Lower(TrimSpace(s)) { LoweredIsNoSecret(TrimSpace(s), TrimSpace(t)); }
    }
    DeniedIffSecretNotListedLowered(r, n, profile, policy);
  }

  /** The policy lists the lowered name of the secret. */
  ghost predicate LoweredListed(s: string, policy: Policy) {
    exists t :: t in policy.secrets && TrimSpace(t) == Lower(TrimSpace(s))
  }

  lemma NormalSecret(r: SandboxRequirements, n: SandboxRequirements, x: string)
    requires NormalForm(r, n)
    ensures x in n.secrets <==> exists s :: s in r.secrets && Token(s) == x != ""
  {
    hide Listing, Token;
    assert x in Listing(Tokens(r.secrets)) <==> x in Tokens(r.secrets);
  }

  lemma SecretHasName(r: SandboxRequirements, s: string)
    requires Valid(r) && s in r.secrets
    ensures Token(s) != ""
  {
    hide TrimSpace, Lower, ProbeOk, SegmentsDiffer, Tokenlike;
    assert SecretShape(TrimSpace(s));
  }

  /**
  The exact condition on requests: after normalization a request is denied precisely when something other than its
  secrets is refused, or the policy does not list the lowered name of one of them.
  */
  lemma DeniedIffSecretNotListedLowered(r: SandboxRequirements, n: SandboxRequirements, profile: Profile, policy: Policy)
    requires Valid(r) && NormalForm(r, n)
    ensures AdmissionOf(n, profile, policy).outcome == Denied <==>
            Refused(n.(secrets := []), profile, policy) || exists s :: s in r.secrets && !LoweredListed(s, policy)
  {
    hide Valid, NormalForm, AdmissionOf, Token, TrimSpace, Lower;
    OutcomeIs(n, profile, policy);
    RefusedParts(n, profile, policy);
    forall s | s in r.secrets ensures Token(s) in n.secrets && (Unlisted(Token(s), policy) <==> !LoweredListed(s, policy)) {
      SecretHasName(r, s);
      NormalSecret(r, n, Token(s));
      TokenListed(s, policy);
    }
    if x :| x in n.secrets && Unlisted(x, policy) {
      NormalSecret(r, n, x);
      var s :| s in r.secrets && Token(s) == x;
    }
  }

  ghost predicate Unlisted(x: string, policy: Policy) {
    forall t | t in policy.secrets :: TrimSpace(t) != TrimSpace(x)
  }

  lemma RefusedParts(n: SandboxRequirements, profile: Profile, policy: Policy)
    ensures Refused(n, profile, policy) <==>
            Refused(n.(secrets := []), profile, policy) || exists x :: x in n.secrets && Unlisted(x, policy)
  {
    hide TrimSpace;
  }

  lemma TokenListed(s: string, policy: Policy)
    ensures Unlisted(Token(s), policy) <==> !LoweredListed(s, policy)
  {
    hide TrimSpace, Lower;
    TokenTrimmed(s);
  }

  const KEY_WANTED := SandboxRequirements([], [], [], "", ["KEY"], [], [], [])
  const KEY_LISTED := Policy(true, true, ["KEY"])

  /** A validated request for one secret is denied by a policy that lists that very secret. */
  lemma ListedSecretIsDenied(n: SandboxRequirements, profile: Profile)
    requires NormalForm(KEY_WANTED, n)
    ensures Valid(KEY_WANTED) && KEY_WANTED.secrets == KEY_LISTED.secrets
    ensures AdmissionOf(n, profile, KEY_LISTED).outcome == Denied
  {
    hide NormalForm, AdmissionOf, TrimSpace;
    KeyShape();
    assert Valid(KEY_WANTED) by { KeyIsValid(); }
    assert "KEY" in KEY_WANTED.secrets;
    UpperCasePolicyDeniesLetters(KEY_WANTED, n, "KEY", profile, KEY_LISTED);
  }

  lemma KeyShape()
    ensures TrimSpace("KEY") == "KEY" && SecretShape("KEY") && HasLetter("KEY")
  {
    TrimmedStays("KEY");
    assert "KEY"[0] == 'K';
  }

  lemma KeyIsValid()
    ensures Valid(KEY_WANTED)
  {
    hide TrimSpace, SecretShape, ProbeOk, Kebab;
    KeyShape();
  }

  // ---------------------------------------------------------------------------------------
  // Dropping repetitions in place
  // ---------------------------------------------------------------------------------------

  function Dedup(xs: seq<string>): seq<string> {
    if xs == [] then []
    else
      var init, last := xs[..|xs| - 1], xs[|xs| - 1];
      if init != [] && init[|init| - 1] == last then Dedup(init) else Dedup(init) + [last]
  }

  ghost predicate Ascending(xs: seq<string>) {
    forall i, j | 0 <= i < j < |xs| :: Leq(xs[i], xs[j])
  }

  lemma {:induction false} SortedAscending(xs: seq<string>)
    ensures Sorted(xs) <==> Ascending(xs)
  {
    hide Leq;
    if xs != [] {
      SortedAscending(xs[1..]);
      if Sorted(xs) {
        forall i, j | 0 <= i < j < |xs| ensures Leq(xs[i], xs[j]) {
          assert xs[j] == xs[1..][j - 1];
          if i > 0 { assert xs[i] == xs[1..][i - 1]; }
        }
      }
      if Ascending(xs) {
        forall y | y in xs[1..] ensures Leq(xs[0], y) {
          var j :| 0 <= j < |xs| - 1 && xs[1..][j] == y;
          assert xs[j + 1] == y;
        }
        assert forall i | 0 <= i < |xs| - 1 :: xs[1..][i] == xs[i + 1];
      }
    }
  }

  lemma LastOfDedup(xs: seq<string>)
    requires xs != []
    ensures Dedup(xs) != [] && Dedup(xs)[|Dedup(xs)| - 1] == xs[|xs| - 1] && |Dedup(xs)| <= |xs|
  {
    if |xs| > 1 { LastOfDedup(xs[..|xs| - 1]); }
  }

  lemma DedupLast(xs: seq<string>)
    requires xs != []
    ensures var init, last := xs[..|xs| - 1], xs[|xs| - 1];
            Dedup(xs) == if init != [] && init[|init| - 1] == last then Dedup(init) else Dedup(init) + [last]
  {
  }

  lemma {:induction false} DedupMembers(xs: seq<string>)
    ensures forall x :: x in Dedup(xs) <==> x in xs
  {
    if xs != [] {
      var init, last := xs[..|xs| - 1], xs[|xs| - 1];
      DedupMembers(init);
      DedupLast(xs);
      hide Dedup;
      assert xs == init + [last];
      if init != [] && init[|init| - 1] == last { assert last in init; }
    }
  }

  ghost predicate Climbing(xs: seq<string>) {
    Ascending(xs) && forall i, j | 0 <= i < j < |xs| :: xs[i] != xs[j]
  }

  lemma ClimbOn(ys: seq<string>, last: string)
    requires Climbing(ys) && forall y | y in ys :: Leq(y, last) && y != last
    ensures Climbing(ys + [last])
  {
    hide Leq;
    forall i | 0 <= i < |ys| ensures Leq(ys[i], last) && ys[i] != last { assert ys[i] in ys; }
  }

  lemma {:induction false} DedupClimbs(xs: seq<string>)
    requires Ascending(xs)
    ensures Climbing(Dedup(xs))
  {
    if xs != [] {
      var init, last := xs[..|xs| - 1], xs[|xs| - 1];
      DedupClimbs(init);
      DedupLast(xs);
      DedupMembers(init);
      hide Leq, Dedup, Climbing;
      if init == [] || init[|init| - 1] != last {
        forall y | y in Dedup(init) ensures Leq(y, last) && y != last { LastIsNew(xs, y); }
        ClimbOn(Dedup(init), last);
      }
    }
  }

  lemma LastIsNew(xs: seq<string>, y: string)
    requires xs != [] && Ascending(xs) && y in xs[..|xs| - 1] && xs[..|xs| - 1][|xs| - 2] != xs[|xs| - 1]
    ensures Leq(y, xs[|xs| - 1]) && y != xs[|xs| - 1]
  {
    hide Leq;
    var i :| 0 <= i < |xs| - 1 && xs[i] == y;
    NotRepeated(xs, i);
  }

  /** In order, an element that differs from its right neighbour never comes back. */
  lemma NotRepeated(xs: seq<string>, i: nat)
    requires Ascending(xs) && i < |xs| - 1 && xs[|xs| - 2] != xs[|xs| - 1]
    ensures Leq(xs[i], xs[|xs| - 1]) && xs[i] != xs[|xs| - 1]
  {
    hide Leq;
    if i < |xs| - 2 && xs[i] == xs[|xs| - 1] {
      LeqAntisymmetric(xs[i], xs[|xs| - 2]);
    }
  }

  lemma DedupLists(xs: seq<string>, s: set<string>)
    requires Sorted(xs) && forall x :: x in xs <==> x in s
    ensures Dedup(xs) == Listing(s)
  {
    hide Leq, Dedup, Listing, Sorted, Distinct;
    SortedAscending(xs);
    DedupMembers(xs);
    DedupClimbs(xs);
    SortedAscending(Dedup(xs));
    PairwiseDistinct(Dedup(xs));
    StrictUnique(Dedup(xs), Listing(s));
  }

  /** Writes the kept elements over the front of the same array while reading ahead of them. */
  method DedupSorted(a: array<string>) returns (out: seq<string>)
    modifies a
    ensures out == Dedup(old(a[..]))
  {
    ghost var was := a[..];
    var k := 0;
    for i := 0 to a.Length
      invariant k <= i && a[..k] == Dedup(was[..i])
      invariant forall j | i <= j < a.Length :: a[j] == was[j]
      invariant i > 0 ==> a[i - 1] == was[i - 1]
    {
      var s := a[i];
      assert was[..i + 1][..i] == was[..i];
      if !(i > 0 && s == a[i - 1]) {
        a[k] := s;
        k := k + 1;
        assert a[..k] == a[..k - 1] + [s];
      }
    }
    assert was[..a.Length] == was;
    out := a[..k];
  }

  // ---------------------------------------------------------------------------------------
  // The check
  // ---------------------------------------------------------------------------------------

  method Tidy(reasons: seq<string>, ghost s: set<string>) returns (out: seq<string>)
    requires forall x :: x in reasons <==> x in s
    ensures out == Listing(s)
  {
    hide Listing, Sort, Dedup, Sorted;
    var sorted := Sort(reasons);
    SortSorts(reasons);
    SameElements(sorted, reasons);
    var a := new string[|sorted|](i requires 0 <= i < |sorted| => sorted[i]);
    assert a[..] == sorted;
    out := DedupSorted(a);
    DedupLists(sorted, s);
  }

  method AdmissionCheck(r: SandboxRequirements, profile: Profile, policy: Policy) returns (a: Admission)
    ensures a == AdmissionOf(r, profile, policy)
    ensures forall m :: (m in a.denied <==> DeniedFor(r, profile, policy, m)) && (m in a.pending <==> PendingFor(r, profile, policy, m))
  {
    hide Judge, Items, Listing, DeniedFor, PendingFor;
    var xs := Items(r);
    var pending: seq<string>, denied: seq<string> := [], [];
    for i := 0 to |xs|
      invariant forall m :: m in pending <==> m in PendingReasons(xs[..i], profile, policy)
      invariant forall m :: m in denied <==> m in DeniedReasons(xs[..i], profile, policy)
    {
      var v := Judge(xs[i], profile, policy);
      assert xs[..i + 1] == xs[..i] + [xs[i]];
      if v.Pend? { pending := pending + [v.reason]; }
      if v.Deny? { denied := denied + [v.reason]; }
    }
    assert xs[..|xs|] == xs;
    var ps := Tidy(pending, PendingReasons(xs, profile, policy));
    var ds := Tidy(denied, DeniedReasons(xs, profile, policy));
    assert ps == [] <==> PendingReasons(xs, profile, policy) == {} by { EmptyListing(PendingReasons(xs, profile, policy)); }
    assert ds == [] <==> DeniedReasons(xs, profile, policy) == {} by { EmptyListing(DeniedReasons(xs, profile, policy)); }
    a := Admission(if |ds| > 0 then Denied else if |ps| > 0 then Pending else Admitted, ps, ds);
    forall m ensures (m in a.denied <==> DeniedFor(r, profile, policy, m)) && (m in a.pending <==> PendingFor(r, profile, policy, m)) {
      ReasonsAre(r, profile, policy, m);
    }
  }

  lemma EmptyListing(s: set<string>)
    ensures Listing(s) == [] <==> s == {}
  {
    hide Listing;
    if s != {} {
      var x :| x in s;
      assert x in Listing(s);
    }
    if Listing(s) != [] {
      assert Listing(s)[0] in s;
    }
  }
}

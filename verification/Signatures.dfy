/** Content addresses of requests: the hash of the normal form, the signature with a profile, and the workspace path. */
module Signatures {
  import opened Requirements
  import opened Admission
  import opened Numerals
  import ShellQuoting

  /** The encoding of a requirement and the digest of a text; what they compute is left open. */
  datatype Codec = Codec(encode: SandboxRequirements -> string, digest: string -> string)

  ghost predicate Injective(encode: SandboxRequirements -> string) {
    forall r, s :: encode(r) == encode(s) ==> r == s
  }

  // An encoding that tells all requirements apart exists.

  function ProbeTexts(ps: seq<Probe>): seq<string> {
    seq(|ps|, i requires 0 <= i < |ps| => ShellQuoting.CommandLine([ps[i].name, ps[i].command, Decimal(ps[i].expectExit)]))
  }

  function Parts(r: SandboxRequirements): seq<string> {
    [ShellQuoting.CommandLine(r.languages), ShellQuoting.CommandLine(r.tools), ShellQuoting.CommandLine(r.services), r.network,
     ShellQuoting.CommandLine(r.secrets), ShellQuoting.CommandLine(r.mounts), ShellQuoting.CommandLine(r.privileges),
     ShellQuoting.CommandLine(ProbeTexts(r.verification))]
  }

  function Encoded(r: SandboxRequirements): string {
    ShellQuoting.CommandLine(Parts(r))
  }

  lemma ProbeTextsInjective(ps: seq<Probe>, qs: seq<Probe>)
    requires ProbeTexts(ps) == ProbeTexts(qs)
    ensures ps == qs
  {
    hide ShellQuoting.CommandLine, Decimal;
    assert |ps| == |ProbeTexts(ps)| == |qs|;
    forall i | 0 <= i < |ps| ensures ps[i] == qs[i] {
      var a, b := [ps[i].name, ps[i].command, Decimal(ps[i].expectExit)], [qs[i].name, qs[i].command, Decimal(qs[i].expectExit)];
      assert ProbeTexts(ps)[i] == ProbeTexts(qs)[i];
      ShellQuoting.JoinInjective(a, b);
      assert a[0] == b[0] && a[1] == b[1] && a[2] == b[2];
      DecimalInjective(ps[i].expectExit, qs[i].expectExit);
    }
  }

  lemma PartsInjective(r: SandboxRequirements, s: SandboxRequirements)
    requires Parts(r) == Parts(s)
    ensures r == s
  {
    hide ShellQuoting.CommandLine, ProbeTexts;
    var a, b := Parts(r), Parts(s);
    assert a[0] == b[0] && a[1] == b[1] && a[2] == b[2] && a[3] == b[3] && a[4] == b[4] && a[5] == b[5] && a[6] == b[6] && a[7] == b[7];
    ShellQuoting.JoinInjective(r.languages, s.languages);
    ShellQuoting.JoinInjective(r.tools, s.tools);
    ShellQuoting.JoinInjective(r.services, s.services);
    ShellQuoting.JoinInjective(r.secrets, s.secrets);
    ShellQuoting.JoinInjective(r.mounts, s.mounts);
    ShellQuoting.JoinInjective(r.privileges, s.privileges);
    ShellQuoting.JoinInjective(ProbeTexts(r.verification), ProbeTexts(s.verification));
    ProbeTextsInjective(r.verification, s.verification);
  }

  lemma EncodingExists()
    ensures Injective(Encoded)
  {
    hide ShellQuoting.CommandLine, Parts;
    forall r, s | Encoded(r) == Encoded(s) ensures r == s {
      ShellQuoting.JoinInjective(Parts(r), Parts(s));
      PartsInjective(r, s);
    }
  }

  /** Two texts with one digest. */
  ghost predicate Collides(digest: string -> string) {
    exists x, y :: x != y && digest(x) == digest(y)
  }

  const DEFAULT_TTL := 86400

  function ResolvedTtl(p: Profile): int {
    if p.ttl <= 0 then DEFAULT_TTL else p.ttl
  }

  /** A hash of the requirement: it is normalized first, whether it is in normal form or not. */
  ghost predicate HashOf(codec: Codec, r: SandboxRequirements, h: string) {
    exists n :: NormalForm(r, n) && h == codec.digest(codec.encode(n))
  }

  function Signature(codec: Codec, profileId: string, hash: string): string {
    codec.digest(profileId + ":" + hash)
  }

  ghost predicate SignatureOf(codec: Codec, profile: Profile, r: SandboxRequirements, sig: string) {
    exists h :: HashOf(codec, r, h) && sig == Signature(codec, ProfileId(profile), h)
  }

  function CutSlashes(s: string): string {
    if s != "" && s[|s| - 1] == '/' then CutSlashes(s[..|s| - 1]) else s
  }

  /** At most sixteen characters of the signature name the workspace under the tenant root. */
  function Workspace(root: string, sig: string): string {
    CutSlashes(root) + "/" + (if |sig| > 16 then sig[..16] else sig) + "/workspace"
  }

  ghost predicate WorkspaceOf(codec: Codec, root: string, profile: Profile, r: SandboxRequirements, path: string) {
    exists sig :: SignatureOf(codec, profile, r, sig) && path == Workspace(root, sig)
  }

  // ---------------------------------------------------------------------------------------
  // Where workspaces lie, and when they are one
  // ---------------------------------------------------------------------------------------

  /** The part of a signature that names its workspace. */
  function Short(sig: string): string {
    sig[..if |sig| < 16 then |sig| else 16]
  }

  /** `base` is `root` without the slashes at its end. */
  predicate Trims(root: string, base: string) {
    && base <= root && (forall i | |base| <= i < |root| :: root[i] == '/')
    && (base != "" ==> base[|base| - 1] != '/')
  }

  lemma {:induction false} CutSlashesTrims(root: string)
    ensures Trims(root, CutSlashes(root))
  {
    if root != "" && root[|root| - 1] == '/' {
      CutSlashesTrims(root[..|root| - 1]);
    }
  }

  lemma TrimsOnce(root: string, a: string, b: string)
    requires Trims(root, a) && Trims(root, b)
    ensures a == b
  {
    NoLonger(root, a, b);
    NoLonger(root, b, a);
    assert a == root[..|a|] && b == root[..|b|];
  }

  lemma NoLonger(root: string, a: string, b: string)
    requires Trims(root, a) && Trims(root, b)
    ensures |a| <= |b|
  {
    if a != "" {
      assert root[|a| - 1] == a[|a| - 1];
    }
  }

  /** Every workspace is the folder "workspace" of a folder below the root that the signature names. */
  lemma WorkspaceIs(root: string, base: string, sig: string)
    requires Trims(root, base)
    ensures Workspace(root, sig) == base + "/" + Short(sig) + "/workspace"
    ensures base + "/" < Workspace(root, sig)
  {
    hide CutSlashes, Trims;
    CutSlashesTrims(root);
    TrimsOnce(root, base, CutSlashes(root));
    assert sig[..|sig|] == sig;
    var lead := base + "/";
    assert Workspace(root, sig) == lead + (Short(sig) + "/workspace");
  }

  /** Under one root two workspaces are one exactly when the first sixteen characters of the signatures are. */
  lemma WorkspacesEqualIff(root: string, a: string, b: string)
    ensures Workspace(root, a) == Workspace(root, b) <==> Short(a) == Short(b)
  {
    hide Workspace, Short, Trims;
    var base := CutSlashes(root);
    CutSlashesTrims(root);
    WorkspaceIs(root, base, a);
    WorkspaceIs(root, base, b);
    var lead, tail := base + "/", "/workspace";
    if Workspace(root, a) == Workspace(root, b) {
      var p := Workspace(root, a);
      assert p == lead + Short(a) + tail && p == lead + Short(b) + tail;
      assert |Short(a)| == |Short(b)|;
      assert Short(a) == p[|lead|..|lead| + |Short(a)|] && Short(b) == p[|lead|..|lead| + |Short(b)|];
    }
  }

  /** Two texts whose digests begin alike. */
  ghost predicate BeginAlike(digest: string -> string) {
    exists x, y :: x != y && Short(digest(x)) == Short(digest(y))
  }

  /** A digest spelled in hexadecimal digits, say. */
  ghost predicate ColonFree(digest: string -> string) {
    forall x :: ':' !in digest(x)
  }

  /** A profile and a hash without colons are told apart in the text that is signed. */
  lemma SignedParts(a: string, h: string, b: string, k: string)
    requires ':' !in h && ':' !in k && a + ":" + h == b + ":" + k
    ensures a == b && h == k
  {
    var t := a + ":" + h;
    assert t[|a|] == ':' && t[|b|] == ':';
    assert forall i | |a| < i < |t| :: t[i] == h[i - |a| - 1];
    assert forall i | |b| < i < |t| :: t[i] == k[i - |b| - 1];
    assert |a| == |b|;
    assert a == t[..|a|] && h == t[|a| + 1..] && k == t[|b| + 1..];
  }

  lemma Collision(codec: Codec, x: string, y: string)
    requires x != y && codec.digest(x) == codec.digest(y)
    ensures Collides(codec.digest) && BeginAlike(codec.digest)
  {
  }

  /**
  Requests that differ in content or profile share a signature only if the digest collides, and share a workspace only if
  two texts have digests with the same first sixteen characters.
  */
  lemma DifferentRequestsApart(codec: Codec, root: string, p: Profile, r: SandboxRequirements, sig: string, q: Profile,
                               s: SandboxRequirements, sig': string)
    requires SegmentsDiffer(r.verification) && SegmentsDiffer(s.verification)
    requires Injective(codec.encode) && ColonFree(codec.digest)
    requires SignatureOf(codec, p, r, sig) && SignatureOf(codec, q, s, sig')
    requires !SameContent(r, s) || ProfileId(p) != ProfileId(q)
    ensures sig == sig' ==> Collides(codec.digest)
    ensures Workspace(root, sig) == Workspace(root, sig') ==> BeginAlike(codec.digest)
  {
    hide NormalForm, SegmentsDiffer, SameContent, Injective, Short, Workspace, ProfileId;
    WorkspacesEqualIff(root, sig, sig');
    var h :| HashOf(codec, r, h) && sig == Signature(codec, ProfileId(p), h);
    var k :| HashOf(codec, s, k) && sig' == Signature(codec, ProfileId(q), k);
    var x, y := ProfileId(p) + ":" + h, ProfileId(q) + ":" + k;
    if x == y {
      SignedParts(ProfileId(p), h, ProfileId(q), k);
      HashesEqualIffSameContent(codec, r, h, s, k);
      var u, v :| u != v && codec.digest(u) == codec.digest(v);
      Collision(codec, u, v);
    }
  }

  /** Requests of the same content have the same hash, and only a collision gives requests of different content one. */
  lemma HashesEqualIffSameContent(codec: Codec, r: SandboxRequirements, h: string, s: SandboxRequirements, k: string)
    requires SegmentsDiffer(r.verification) && SegmentsDiffer(s.verification)
    requires HashOf(codec, r, h) && HashOf(codec, s, k)
    ensures SameContent(r, s) ==> h == k
    ensures Injective(codec.encode) && h == k && !SameContent(r, s) ==> Collides(codec.digest)
  {
    hide NormalForm, SegmentsDiffer, SameContent;
    var n :| NormalForm(r, n) && h == codec.digest(codec.encode(n));
    var m :| NormalForm(s, m) && k == codec.digest(codec.encode(m));
    NormalFormsEqualIffSameContent(r, n, s, m);
    if Injective(codec.encode) && h == k && !SameContent(r, s) {
      assert codec.encode(n) != codec.encode(m);
    }
  }

  /** Hashing a requirement and hashing its normal form agree. */
  lemma HashOfNormalForm(codec: Codec, r: SandboxRequirements, h: string, n: SandboxRequirements, k: string)
    requires SegmentsDiffer(r.verification) && NormalForm(r, n) && HashOf(codec, r, h) && HashOf(codec, n, k)
    ensures h == k == codec.digest(codec.encode(n))
  {
    hide NormalForm, SegmentsDiffer, SameContent;
    var n' :| NormalForm(r, n') && h == codec.digest(codec.encode(n'));
    SameContentRefl(r);
    NormalFormsEqualIffSameContent(r, n, r, n');
    var m :| NormalForm(n, m) && k == codec.digest(codec.encode(m));
    NormalizeIdempotent(r, n, m);
  }

  lemma SameContentRefl(r: SandboxRequirements)
    ensures SameContent(r, r)
  {
  }

  /**
  Two validated requests of the same content, matched to one profile, have one signature and one workspace: however the
  second is written, it finds the files of the first.
  */
  lemma SameContentSameWorkspace(codec: Codec, root: string, profile: Profile, r: SandboxRequirements, n: SandboxRequirements,
                                 s: SandboxRequirements, m: SandboxRequirements, sig: string, sig': string)
    requires SegmentsDiffer(r.verification) && SegmentsDiffer(s.verification) && SameContent(r, s)
    requires NormalForm(r, n) && NormalForm(s, m)
    requires SignatureOf(codec, profile, n, sig) && SignatureOf(codec, profile, m, sig')
    ensures sig == sig' && Workspace(root, sig) == Workspace(root, sig')
    ensures SignatureOf(codec, profile, r, sig)
  {
    hide NormalForm, SegmentsDiffer, SameContent;
    var h :| HashOf(codec, n, h) && sig == Signature(codec, ProfileId(profile), h);
    var k :| HashOf(codec, m, k) && sig' == Signature(codec, ProfileId(profile), k);
    var h' := codec.digest(codec.encode(n));
    assert HashOf(codec, r, h') && HashOf(codec, s, codec.digest(codec.encode(m)));
    HashOfNormalForm(codec, r, h', n, h);
    HashOfNormalForm(codec, s, codec.digest(codec.encode(m)), m, k);
    HashesEqualIffSameContent(codec, r, h', s, codec.digest(codec.encode(m)));
  }

  method Hash(codec: Codec, r: SandboxRequirements) returns (h: string)
    ensures HashOf(codec, r, h)
  {
    hide NormalForm;
    var n := Normalize(r);
    h := codec.digest(codec.encode(n));
  }
}

/** The validation of requirements, with the first fault that it reports. */
module Validation {
  import opened Text
  import opened Numerals
  import opened Requirements

  datatype Field = Languages | Tools | Services | Secrets | Mounts | Privileges

  datatype Fault =
    | BlankEntry(field: Field, at: nat)
    | BadEntry(field: Field, at: nat, text: string)
    | BadNetwork(text: string)
    | Unnamed(at: nat)
    | BadName(at: nat, text: string)
    | Repeated(at: nat, text: string, segment: string)
    | NoCommand(at: nat)
    | HasNul(at: nat)
    | HasControl(at: nat, c: char)
    | HasDel(at: nat)

  // ---------------------------------------------------------------------------------------
  // The words of a fault
  // ---------------------------------------------------------------------------------------

  function FieldName(field: Field): string {
    match field
    case Languages => "languages"
    case Tools => "tools"
    case Services => "services"
    case Secrets => "secrets"
    case Mounts => "mounts"
    case Privileges => "privileges"
  }

  function Rule(field: Field): string {
    match field
    case Secrets => "must match [A-Z_][A-Z0-9_]* (env-var identifier shape)"
    case Mounts => "must be one of {workspace-write, workspace-read}"
    case Privileges => "must be one of {docker-socket, privileged}"
    case _ => "must match [a-z0-9][a-z0-9._-]* (identifier shape)"
  }

  function At(name: string, i: nat): string {
    name + "[" + Itoa(i) + "]"
  }

  function Hex(n: nat): string {
    if n < 16 then [HexDigit(n)] else Hex(n / 16) + [HexDigit(n % 16)]
  }

  function FaultText(f: Fault): string {
    match f
    case BlankEntry(field, i) => At(FieldName(field), i) + ": must not be empty / whitespace"
    case BadEntry(field, i, text) => At(FieldName(field), i) + "=" + Quoted(text) + ": " + Rule(field)
    case BadNetwork(text) => "network " + Quoted(text) + ": must be one of {restricted, public, none}"
    case Unnamed(i) => At("verification", i) + ".name: must not be empty"
    case BadName(i, text) =>
      At("verification", i) + ".name=" + Quoted(text) + ": must match [a-z0-9][a-z0-9._-]* (composes into attestation predicate)"
    case Repeated(i, text, segment) =>
      At("verification", i) + ".name=" + Quoted(text) + ": duplicate (normalizes to the same attestation predicate " + Quoted(segment) + ")"
    case NoCommand(i) => At("verification", i) + ".command: must not be empty"
    case HasNul(i) => At("verification", i) + ".command: contains NUL byte"
    case HasControl(i, c) => At("verification", i) + ".command: contains control character 0x" + Hex(c as int)
    case HasDel(i) => At("verification", i) + ".command: contains DEL (0x7f)"
  }

  // What is said of an entry, of the network and of a probe.

  lemma TokenWords(i: nat, x: string)
    ensures FaultText(BadEntry(Languages, i, x)) ==
            "languages" + "[" + Itoa(i) + "]" + "=" + Quoted(x) + ": " + "must match [a-z0-9][a-z0-9._-]* (identifier shape)"
    ensures FaultText(BlankEntry(Languages, i)) == "languages" + "[" + Itoa(i) + "]" + ": must not be empty / whitespace"
    ensures FaultText(BadEntry(Tools, i, x)) ==
            "tools" + "[" + Itoa(i) + "]" + "=" + Quoted(x) + ": " + "must match [a-z0-9][a-z0-9._-]* (identifier shape)"
    ensures FaultText(BlankEntry(Tools, i)) == "tools" + "[" + Itoa(i) + "]" + ": must not be empty / whitespace"
    ensures FaultText(BadEntry(Services, i, x)) ==
            "services" + "[" + Itoa(i) + "]" + "=" + Quoted(x) + ": " + "must match [a-z0-9][a-z0-9._-]* (identifier shape)"
    ensures FaultText(BlankEntry(Services, i)) == "services" + "[" + Itoa(i) + "]" + ": must not be empty / whitespace"
  {
    hide Itoa, Quoted;
  }

  lemma ClassWords(i: nat, x: string)
    ensures FaultText(BadEntry(Secrets, i, x)) ==
            "secrets" + "[" + Itoa(i) + "]" + "=" + Quoted(x) + ": " + "must match [A-Z_][A-Z0-9_]* (env-var identifier shape)"
    ensures FaultText(BlankEntry(Secrets, i)) == "secrets" + "[" + Itoa(i) + "]" + ": must not be empty / whitespace"
    ensures FaultText(BadEntry(Mounts, i, x)) ==
            "mounts" + "[" + Itoa(i) + "]" + "=" + Quoted(x) + ": " + "must be one of {workspace-write, workspace-read}"
    ensures FaultText(BadEntry(Privileges, i, x)) ==
            "privileges" + "[" + Itoa(i) + "]" + "=" + Quoted(x) + ": " + "must be one of {docker-socket, privileged}"
    ensures FaultText(BadNetwork(x)) == "network " + Quoted(x) + ": must be one of {restricted, public, none}"
  {
    hide Itoa, Quoted;
  }

  // ---------------------------------------------------------------------------------------
  // Which fault is the first
  // ---------------------------------------------------------------------------------------

  /** The first fault of a list of judgements. */
  function First(fs: seq<Option<Fault>>): (f: Option<Fault>)
    ensures f == None <==> forall i | 0 <= i < |fs| :: fs[i] == None
    ensures f.Some? ==> exists i :: 0 <= i < |fs| && fs[i] == f && forall j | 0 <= j < i :: fs[j] == None
  {
    if fs == [] then None
    else if fs[0].Some? then fs[0]
    else
      var f := First(fs[1..]);
      assert f.Some? ==> exists i :: 0 <= i < |fs| && fs[i] == f && forall j | 0 <= j < i :: fs[j] == None by {
        if i :| 0 <= i < |fs[1..]| && fs[1..][i] == f && forall j | 0 <= j < i :: fs[1..][j] == None {
          assert fs[i + 1] == f && forall j | 0 <= j < i + 1 :: fs[j] == None;
        }
      }
      f
  }

  lemma {:induction false} FirstAt(fs: seq<Option<Fault>>, i: nat)
    requires i < |fs| && fs[i].Some? && forall j | 0 <= j < i :: fs[j] == None
    ensures First(fs) == fs[i]
  {
    if i > 0 { FirstAt(fs[1..], i - 1); }
  }

  function EntryFault(field: Field, i: nat, x: string): Option<Fault> {
    match field
    case Mounts => if x in ["workspace-write", "workspace-read"] then None else Some(BadEntry(field, i, x))
    case Privileges => if x in ["docker-socket", "privileged"] then None else Some(BadEntry(field, i, x))
    case Secrets =>
      if TrimSpace(x) == "" then Some(BlankEntry(field, i))
      else if SecretShape(TrimSpace(x)) then None else Some(BadEntry(field, i, x))
    case _ =>
      if TrimSpace(x) == "" then Some(BlankEntry(field, i))
      else if TokenShape(Token(x)) then None else Some(BadEntry(field, i, x))
  }

  function EntryFaults(field: Field, xs: seq<string>): (fs: seq<Option<Fault>>)
    ensures |fs| == |xs| && forall i | 0 <= i < |xs| :: fs[i] == EntryFault(field, i, xs[i])
  {
    seq(|xs|, i requires 0 <= i < |xs| => EntryFault(field, i, xs[i]))
  }

  function NetworkFault(network: string): Option<Fault> {
    if network in ["", "restricted", "public", "none"] then None else Some(BadNetwork(network))
  }

  function CharFault(i: nat, c: char): Option<Fault> {
    if c == '\0' then Some(HasNul(i))
    else if c < ' ' && c != '\t' && c != '\n' then Some(HasControl(i, c))
    else if c == '\U{7f}' then Some(HasDel(i))
    else None
  }

  function CharFaults(i: nat, cmd: string): (fs: seq<Option<Fault>>)
    ensures |fs| == |cmd| && forall k | 0 <= k < |cmd| :: fs[k] == CharFault(i, cmd[k])
  {
    seq(|cmd|, k requires 0 <= k < |cmd| => CharFault(i, cmd[k]))
  }

  function Segment(p: Probe): string {
    Kebab(TrimSpace(p.name))
  }

  /** Whether an earlier probe is stamped under the same segment. */
  predicate Taken(ps: seq<Probe>, i: nat)
    requires i < |ps|
  {
    exists j :: 0 <= j < i && Segment(ps[j]) == Segment(ps[i])
  }

  /** The tests of one probe, in order; `taken` tells whether its segment is in use. */
  function ProbeFault(p: Probe, i: nat, taken: bool): Option<Fault> {
    var name, cmd := TrimSpace(p.name), TrimSpace(p.command);
    if name == "" then Some(Unnamed(i))
    else if !TokenShape(Lower(name)) then Some(BadName(i, name))
    else if taken then Some(Repeated(i, name, Kebab(name)))
    else if cmd == "" then Some(NoCommand(i))
    else First(CharFaults(i, cmd))
  }

  function ProbeFaults(ps: seq<Probe>): (fs: seq<Option<Fault>>)
    ensures |fs| == |ps| && forall i | 0 <= i < |ps| :: fs[i] == ProbeFault(ps[i], i, Taken(ps, i))
  {
    seq(|ps|, i requires 0 <= i < |ps| => ProbeFault(ps[i], i, Taken(ps, i)))
  }

  function ListFault(field: Field, xs: seq<string>): Option<Fault> {
    First(EntryFaults(field, xs))
  }

  function ProbesFault(ps: seq<Probe>): Option<Fault> {
    First(ProbeFaults(ps))
  }

  /** The first fault of each field, in the order the fields are looked at. */
  function FieldFaults(r: SandboxRequirements): seq<Option<Fault>> {
    [ListFault(Languages, r.languages), ListFault(Tools, r.tools), ListFault(Services, r.services),
     NetworkFault(r.network), ListFault(Secrets, r.secrets), ListFault(Mounts, r.mounts),
     ListFault(Privileges, r.privileges), ProbesFault(r.verification)]
  }

  function FaultOf(r: SandboxRequirements): Option<Fault> {
    First(FieldFaults(r))
  }

  // ---------------------------------------------------------------------------------------
  // The shapes
  // ---------------------------------------------------------------------------------------

  predicate SmallOrDigit(c: char) {
    'a' <= c <= 'z' || '0' <= c <= '9'
  }

  /** A small letter or digit, then small letters, digits, dots, underscores and hyphens. */
  lemma TokenShapeIs(s: string)
    ensures TokenShape(s) <==>
            exists c, rest :: s == [c] + rest && SmallOrDigit(c) &&
              forall i | 0 <= i < |rest| :: SmallOrDigit(rest[i]) || rest[i] == '.' || rest[i] == '_' || rest[i] == '-'
  {
    if TokenShape(s) {
      var c, rest := s[0], s[1..];
      assert s == [c] + rest;
      assert forall i | 0 <= i < |rest| :: rest[i] == s[i + 1];
    }
  }

  /** A capital letter or underscore, then capital letters, digits and underscores. */
  lemma SecretShapeIs(s: string)
    ensures SecretShape(s) <==>
            exists c, rest :: s == [c] + rest && ('A' <= c <= 'Z' || c == '_') &&
              forall i | 0 <= i < |rest| :: 'A' <= rest[i] <= 'Z' || '0' <= rest[i] <= '9' || rest[i] == '_'
  {
    if SecretShape(s) {
      var c, rest := s[0], s[1..];
      assert s == [c] + rest;
      assert forall i | 0 <= i < |rest| :: rest[i] == s[i + 1];
    }
  }

  /** Something, without control characters other than tabs and newlines. */
  lemma CommandShapeIs(s: string)
    ensures CommandShape(s) <==> s != "" && forall c | c in s :: c as int == 9 || c as int == 10 || (32 <= c as int && c as int != 127)
  {
    if CommandShape(s) {
      forall c | c in s ensures c as int == 9 || c as int == 10 || (32 <= c as int && c as int != 127) {
        var i :| 0 <= i < |s| && s[i] == c;
      }
    }
    assert forall i | 0 <= i < |s| :: s[i] in s;
  }

  // ---------------------------------------------------------------------------------------
  // No fault means valid
  // ---------------------------------------------------------------------------------------

  lemma TokenEntry(field: Field, i: nat, x: string)
    requires field.Languages? || field.Tools? || field.Services?
    ensures EntryFault(field, i, x) == None <==> TokenShape(Token(x))
  {
    hide TokenShape, TrimSpace, Lower;
    assert TrimSpace(x) == "" ==> Token(x) == "" by { assert Lower("") == "" by { EmptyLower(); } }
    assert !TokenShape("") by { NoEmptyToken(); }
  }

  lemma EmptyLower()
    ensures Lower("") == ""
  {
  }

  lemma NoEmptyToken()
    ensures !TokenShape("") && !SecretShape("") && !CommandShape("")
  {
  }

  lemma TokenEntries(field: Field, xs: seq<string>)
    requires field.Languages? || field.Tools? || field.Services?
    ensures ListFault(field, xs) == None <==> Tokenlike(xs)
  {
    hide EntryFault, First, TokenShape, Token;
    forall i | 0 <= i < |xs| ensures EntryFault(field, i, xs[i]) == None <==> TokenShape(Token(xs[i])) {
      TokenEntry(field, i, xs[i]);
    }
  }

  lemma SecretEntries(xs: seq<string>)
    ensures ListFault(Secrets, xs) == None <==> forall s | s in xs :: SecretShape(TrimSpace(s))
  {
    hide First, SecretShape, TrimSpace;
    NoEmptyToken();
    forall i | 0 <= i < |xs| ensures EntryFault(Secrets, i, xs[i]) == None <==> SecretShape(TrimSpace(xs[i])) { }
  }

  lemma ClassEntries(ms: seq<string>, ps: seq<string>)
    ensures ListFault(Mounts, ms) == None <==> forall m | m in ms :: m in ["workspace-write", "workspace-read"]
    ensures ListFault(Privileges, ps) == None <==> forall p | p in ps :: p in ["docker-socket", "privileged"]
  {
    hide First;
    forall i | 0 <= i < |ms| ensures EntryFault(Mounts, i, ms[i]) == None <==> ms[i] in ["workspace-write", "workspace-read"] { }
    forall i | 0 <= i < |ps| ensures EntryFault(Privileges, i, ps[i]) == None <==> ps[i] in ["docker-socket", "privileged"] { }
  }

  lemma CommandFaultless(i: nat, cmd: string)
    ensures cmd != "" && First(CharFaults(i, cmd)) == None <==> CommandShape(cmd)
  {
    hide First;
    forall k | 0 <= k < |cmd|
      ensures CharFault(i, cmd[k]) == None <==> (cmd[k] >= ' ' || cmd[k] == '\t' || cmd[k] == '\n') && cmd[k] != '\U{7f}'
    {
    }
  }

  lemma ProbeFaultless(p: Probe, i: nat, taken: bool)
    ensures ProbeFault(p, i, taken) == None <==> ProbeOk(p) && !taken
  {
    hide First, CharFaults, TokenShape, CommandShape, TrimSpace, Lower;
    CommandFaultless(i, TrimSpace(p.command));
    NoEmptyToken();
    EmptyLower();
  }

  lemma ProbesFaultless(ps: seq<Probe>)
    ensures ProbesFault(ps) == None <==> (forall p | p in ps :: ProbeOk(p)) && SegmentsDiffer(ps)
  {
    hide First, ProbeFault, ProbeOk, Kebab, TrimSpace;
    forall i | 0 <= i < |ps| ensures ProbeFault(ps[i], i, Taken(ps, i)) == None <==> ProbeOk(ps[i]) && !Taken(ps, i) {
      ProbeFaultless(ps[i], i, Taken(ps, i));
    }
    assert SegmentsDiffer(ps) <==> forall i | 0 <= i < |ps| :: !Taken(ps, i);
  }

  /** Requirements are valid exactly when they have no first fault. */
  lemma ValidIffFaultless(r: SandboxRequirements)
    ensures FaultOf(r) == None <==> Valid(r)
  {
    hide ListFault, ProbesFault, EntryFaults, ProbeFaults, Tokenlike, SegmentsDiffer, SecretShape, ProbeOk, TrimSpace, First, FaultOf;
    TokenEntries(Languages, r.languages);
    TokenEntries(Tools, r.tools);
    TokenEntries(Services, r.services);
    SecretEntries(r.secrets);
    ClassEntries(r.mounts, r.privileges);
    ProbesFaultless(r.verification);
    EachField(r);
  }

  lemma EachField(r: SandboxRequirements)
    ensures FaultOf(r) == None <==>
            && ListFault(Languages, r.languages) == None && ListFault(Tools, r.tools) == None
            && ListFault(Services, r.services) == None && NetworkFault(r.network) == None
            && ListFault(Secrets, r.secrets) == None && ListFault(Mounts, r.mounts) == None
            && ListFault(Privileges, r.privileges) == None && ProbesFault(r.verification) == None
  {
    hide ListFault, ProbesFault, EntryFaults, ProbeFaults, First, NetworkFault;
    var fs := FieldFaults(r);
    if First(fs) == None {
      assert fs[0] == None && fs[1] == None && fs[2] == None && fs[3] == None;
      assert fs[4] == None && fs[5] == None && fs[6] == None && fs[7] == None;
    }
  }

  // ---------------------------------------------------------------------------------------
  // Which fault is reported
  // ---------------------------------------------------------------------------------------

  /** A list field of the requirements. */
  function Entries(r: SandboxRequirements, field: Field): seq<string> {
    match field
    case Languages => r.languages
    case Tools => r.tools
    case Services => r.services
    case Secrets => r.secrets
    case Mounts => r.mounts
    case Privileges => r.privileges
  }

  /** Where a fault is: in the order languages, tools, services, network, secrets, mounts, privileges, probes. */
  function Place(f: Fault): nat {
    match f
    case BlankEntry(field, _) => PlaceOf(field)
    case BadEntry(field, _, _) => PlaceOf(field)
    case BadNetwork(_) => 3
    case _ => 7
  }

  function PlaceOf(field: Field): nat {
    match field
    case Languages => 0
    case Tools => 1
    case Services => 2
    case Secrets => 4
    case Mounts => 5
    case Privileges => 6
  }

  /** Everything before a place is valid. */
  ghost predicate CleanBefore(r: SandboxRequirements, place: nat) {
    && (place > 0 ==> Tokenlike(r.languages)) && (place > 1 ==> Tokenlike(r.tools)) && (place > 2 ==> Tokenlike(r.services))
    && (place > 3 ==> r.network in ["", "restricted", "public", "none"])
    && (place > 4 ==> forall s | s in r.secrets :: SecretShape(TrimSpace(s)))
    && (place > 5 ==> forall m | m in r.mounts :: m in ["workspace-write", "workspace-read"])
    && (place > 6 ==> forall p | p in r.privileges :: p in ["docker-socket", "privileged"])
  }

  /** The fault is that of an entry, and no entry before it in the same list has one. */
  ghost predicate FirstInField(r: SandboxRequirements, f: Fault) {
    match f
    case BlankEntry(field, i) => FirstEntry(field, Entries(r, field), i, f) && TrimSpace(Entries(r, field)[i]) == ""
    case BadEntry(field, i, x) => FirstEntry(field, Entries(r, field), i, f) && x == Entries(r, field)[i]
    case BadNetwork(x) => x == r.network && x !in ["", "restricted", "public", "none"]
    case _ => SomeFirstProbe(r.verification, f)
  }

  ghost predicate SomeFirstProbe(ps: seq<Probe>, f: Fault) {
    exists i :: 0 <= i < |ps| && FirstProbe(ps, i, f)
  }

  ghost predicate FirstEntry(field: Field, xs: seq<string>, i: nat, f: Fault) {
    i < |xs| && EntryFault(field, i, xs[i]) == Some(f) && forall j | 0 <= j < i :: EntryFault(field, j, xs[j]) == None
  }

  ghost predicate FirstProbe(ps: seq<Probe>, i: nat, f: Fault) {
    && i < |ps| && ProbeFault(ps[i], i, Taken(ps, i)) == Some(f)
    && forall j | 0 <= j < i :: ProbeOk(ps[j]) && !Taken(ps, j)
  }

  /** The list and the position that an entry's fault names are its own. */
  lemma EntryFaultIs(field: Field, i: nat, x: string)
    ensures EntryFault(field, i, x).Some? ==>
              var f := EntryFault(field, i, x).value;
              if TrimSpace(x) == "" && !field.Mounts? && !field.Privileges? then f == BlankEntry(field, i) else f == BadEntry(field, i, x)
  {
    hide TrimSpace, TokenShape, SecretShape, Token;
  }

  lemma EntryIsFirst(field: Field, xs: seq<string>, f: Fault)
    requires ListFault(field, xs) == Some(f)
    ensures exists i :: 0 <= i < |xs| && FirstEntry(field, xs, i, f) &&
              if f.BlankEntry? then f == BlankEntry(field, i) && TrimSpace(xs[i]) == "" else f == BadEntry(field, i, xs[i])
  {
    hide First, EntryFault, TrimSpace;
    var fs := EntryFaults(field, xs);
    var i :| 0 <= i < |fs| && fs[i] == Some(f) && forall j | 0 <= j < i :: fs[j] == None;
    EntryFaultIs(field, i, xs[i]);
    assert FirstEntry(field, xs, i, f);
  }

  lemma ProbeIsFirst(ps: seq<Probe>, f: Fault)
    requires ProbesFault(ps) == Some(f)
    ensures SomeFirstProbe(ps, f) && Place(f) == 7
  {
    hide First, ProbeFault, ProbeOk, Taken;
    var fs := ProbeFaults(ps);
    var i :| 0 <= i < |fs| && fs[i] == Some(f) && forall j | 0 <= j < i :: fs[j] == None;
    forall j | 0 <= j < i ensures ProbeOk(ps[j]) && !Taken(ps, j) { ProbeFaultless(ps[j], j, Taken(ps, j)); }
    assert FirstProbe(ps, i, f);
    ProbeFaultPlace(ps[i], i, Taken(ps, i));
  }

  lemma ProbeFaultPlace(p: Probe, i: nat, taken: bool)
    ensures ProbeFault(p, i, taken).Some? ==> Place(ProbeFault(p, i, taken).value) == 7
  {
    hide TrimSpace, TokenShape, Lower;
  }

  lemma EntryPlace(r: SandboxRequirements, field: Field, f: Fault)
    requires ListFault(field, Entries(r, field)) == Some(f)
    ensures Place(f) == PlaceOf(field) && FirstInField(r, f)
  {
    hide First, EntryFaults, FirstEntry, TrimSpace;
    EntryIsFirst(field, Entries(r, field), f);
  }

  lemma FieldPlace(r: SandboxRequirements, k: nat, f: Fault)
    requires k < |FieldFaults(r)| && FieldFaults(r)[k] == Some(f)
    ensures Place(f) == k && FirstInField(r, f)
  {
    hide ListFault, ProbesFault, First, EntryFaults, ProbeFaults, FirstEntry, FirstProbe, FirstInField, Place;
    if k == 0 { EntryPlace(r, Languages, f); }
    if k == 1 { EntryPlace(r, Tools, f); }
    if k == 2 { EntryPlace(r, Services, f); }
    if k == 3 { NetworkPlace(r, f); }
    if k == 4 { EntryPlace(r, Secrets, f); }
    if k == 5 { EntryPlace(r, Mounts, f); }
    if k == 6 { EntryPlace(r, Privileges, f); }
    if k == 7 { ProbePlace(r, f); }
  }

  lemma NetworkPlace(r: SandboxRequirements, f: Fault)
    requires NetworkFault(r.network) == Some(f)
    ensures Place(f) == 3 && FirstInField(r, f)
  {
  }

  lemma ProbePlace(r: SandboxRequirements, f: Fault)
    requires ProbesFault(r.verification) == Some(f)
    ensures Place(f) == 7 && FirstInField(r, f)
  {
    hide First, ProbeFaults, SomeFirstProbe, FirstInField;
    ProbeIsFirst(r.verification, f);
    ProbeCase(r, f);
  }

  lemma ProbeCase(r: SandboxRequirements, f: Fault)
    requires Place(f) == 7 && SomeFirstProbe(r.verification, f)
    ensures FirstInField(r, f)
  {
    hide SomeFirstProbe, FirstEntry, TrimSpace, Entries;
    NotBefore(f);
  }

  lemma NotBefore(f: Fault)
    requires Place(f) == 7
    ensures !f.BlankEntry? && !f.BadEntry? && !f.BadNetwork?
  {
  }

  /** The fault that is reported is the first one: all fields before its own are valid, and so is all before it in its own. */
  lemma FirstFaultIsReported(r: SandboxRequirements, f: Fault)
    requires FaultOf(r) == Some(f)
    ensures CleanBefore(r, Place(f)) && FirstInField(r, f)
  {
    hide First, FieldFaults, CleanBefore, FirstInField, Place;
    var fs := FieldFaults(r);
    var k :| 0 <= k < |fs| && fs[k] == Some(f) && forall j | 0 <= j < k :: fs[j] == None;
    CleanUpTo(r, k);
    FieldPlace(r, k, f);
  }

  lemma CleanUpTo(r: SandboxRequirements, k: nat)
    requires k < |FieldFaults(r)| && forall j | 0 <= j < k :: FieldFaults(r)[j] == None
    ensures CleanBefore(r, k)
  {
    hide ListFault, ProbesFault, First, EntryFaults, ProbeFaults, Tokenlike, SecretShape, TrimSpace;
    var fs := FieldFaults(r);
    TokenEntries(Languages, r.languages);
    TokenEntries(Tools, r.tools);
    TokenEntries(Services, r.services);
    SecretEntries(r.secrets);
    ClassEntries(r.mounts, r.privileges);
    assert k > 0 ==> fs[0] == None;
    assert k > 1 ==> fs[1] == None;
    assert k > 2 ==> fs[2] == None;
    assert k > 3 ==> fs[3] == None;
    assert k > 4 ==> fs[4] == None;
    assert k > 5 ==> fs[5] == None;
    assert k > 6 ==> fs[6] == None;
  }

  // ---------------------------------------------------------------------------------------
  // The loops
  // ---------------------------------------------------------------------------------------

  method ValidateEntries(field: Field, xs: seq<string>) returns (f: Option<Fault>)
    ensures f == ListFault(field, xs)
  {
    hide EntryFault, First;
    for i := 0 to |xs|
      invariant forall j | 0 <= j < i :: EntryFault(field, j, xs[j]) == None
    {
      f := EntryFault(field, i, xs[i]);
      if f.Some? {
        FirstAt(EntryFaults(field, xs), i);
        return;
      }
    }
    f := None;
  }

  method ValidateCommand(i: nat, cmd: string) returns (f: Option<Fault>)
    ensures f == First(CharFaults(i, cmd))
  {
    hide CharFault, First;
    for k := 0 to |cmd|
      invariant forall j | 0 <= j < k :: CharFault(i, cmd[j]) == None
    {
      f := CharFault(i, cmd[k]);
      if f.Some? {
        FirstAt(CharFaults(i, cmd), k);
        return;
      }
    }
    f := None;
  }

  /** The tests of one probe against the segments seen so far. */
  method ValidateProbe(p: Probe, i: nat, seen: set<string>) returns (f: Option<Fault>)
    ensures f == ProbeFault(p, i, Segment(p) in seen)
  {
    hide CharFaults, First, Kebab, TokenShape;
    var name := TrimSpace(p.name);
    if name == "" { return Some(Unnamed(i)); }
    if !TokenShape(Lower(name)) { return Some(BadName(i, name)); }
    if Kebab(name) in seen { return Some(Repeated(i, name, Kebab(name))); }
    var cmd := TrimSpace(p.command);
    if cmd == "" { return Some(NoCommand(i)); }
    f := ValidateCommand(i, cmd);
  }

  /** The probe loop: each one's tests in order, and a segment seen before is a duplicate. */
  method ValidateProbes(ps: seq<Probe>) returns (f: Option<Fault>)
    ensures f == ProbesFault(ps)
    ensures f == None <==> (forall p | p in ps :: ProbeOk(p)) && SegmentsDiffer(ps)
  {
    hide ProbeFault, First, Segment, ProbeOk, SegmentsDiffer;
    ProbesFaultless(ps);
    var seen: set<string> := {};
    for i := 0 to |ps|
      invariant forall j | 0 <= j < i :: ProbeFault(ps[j], j, Taken(ps, j)) == None
      invariant forall k :: k in seen <==> exists j :: 0 <= j < i && Segment(ps[j]) == k
    {
      assert Segment(ps[i]) in seen <==> Taken(ps, i);
      f := ValidateProbe(ps[i], i, seen);
      if f.Some? {
        FirstAt(ProbeFaults(ps), i);
        return;
      }
      seen := seen + {Segment(ps[i])};
    }
    f := None;
  }

  lemma EightFields(r: SandboxRequirements)
    ensures var fs := FieldFaults(r);
            && |fs| == 8
            && fs[0] == ListFault(Languages, r.languages) && fs[1] == ListFault(Tools, r.tools)
            && fs[2] == ListFault(Services, r.services) && fs[3] == NetworkFault(r.network)
            && fs[4] == ListFault(Secrets, r.secrets) && fs[5] == ListFault(Mounts, r.mounts)
            && fs[6] == ListFault(Privileges, r.privileges) && fs[7] == ProbesFault(r.verification)
  {
    hide ListFault, ProbesFault, EntryFaults, ProbeFaults, First, NetworkFault;
  }

  ghost predicate ClearUpTo(fs: seq<Option<Fault>>, k: nat) {
    k <= |fs| && forall j | 0 <= j < k :: fs[j] == None
  }

  lemma NoneYet(fs: seq<Option<Fault>>)
    ensures ClearUpTo(fs, 0)
  {
  }

  lemma Stage(fs: seq<Option<Fault>>, k: nat, f: Option<Fault>)
    requires ClearUpTo(fs, k) && k < |fs| && fs[k] == f
    ensures if f.Some? then First(fs) == f else ClearUpTo(fs, k + 1)
  {
    hide First;
    if f.Some? { FirstAt(fs, k); }
  }

  lemma AllClear(fs: seq<Option<Fault>>)
    ensures ClearUpTo(fs, |fs|) ==> First(fs) == None
  {
    hide First;
  }

  /** The first four fields. */
  method ValidateTokens(r: SandboxRequirements) returns (f: Option<Fault>)
    ensures if f.Some? then f == FaultOf(r) else ClearUpTo(FieldFaults(r), 4)
  {
    hide ListFault, ProbesFault, EntryFaults, ProbeFaults, First, NetworkFault, FieldFaults, ClearUpTo;
    EightFields(r);
    ghost var all := FieldFaults(r);
    NoneYet(all);
    f := ValidateEntries(Languages, r.languages);
    Stage(all, 0, f);
    if f.Some? { return; }
    f := ValidateEntries(Tools, r.tools);
    Stage(all, 1, f);
    if f.Some? { return; }
    f := ValidateEntries(Services, r.services);
    Stage(all, 2, f);
    if f.Some? { return; }
    f := NetworkFault(r.network);
    Stage(all, 3, f);
  }

  /** Accepts exactly the valid requirements, and reports the first fault of any other. */
  method Validate(r: SandboxRequirements) returns (f: Option<Fault>)
    ensures f == FaultOf(r) && (f == None <==> Valid(r))
    ensures f.Some? ==> CleanBefore(r, Place(f.value)) && FirstInField(r, f.value)
  {
    hide FaultOf, Valid, CleanBefore, FirstInField, Place;
    f := ValidateFields(r);
    ValidIffFaultless(r);
    if f.Some? { FirstFaultIsReported(r, f.value); }
  }

  method ValidateFields(r: SandboxRequirements) returns (f: Option<Fault>)
    ensures f == FaultOf(r)
  {
    hide ListFault, ProbesFault, EntryFaults, ProbeFaults, Valid, First, ProbeOk, SegmentsDiffer, FieldFaults, ClearUpTo;
    EightFields(r);
    ghost var all := FieldFaults(r);
    f := ValidateTokens(r);
    if f.Some? { return; }
    f := ValidateEntries(Secrets, r.secrets);
    Stage(all, 4, f);
    if f.Some? { return; }
    f := ValidateEntries(Mounts, r.mounts);
    Stage(all, 5, f);
    if f.Some? { return; }
    f := ValidateEntries(Privileges, r.privileges);
    Stage(all, 6, f);
    if f.Some? { return; }
    f := ValidateProbes(r.verification);
    Stage(all, 7, f);
    AllClear(all);
  }
}

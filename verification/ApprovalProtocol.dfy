module ApprovalProtocol {
  // Any number of RecordApproval calls, in any number of processes, against one run entity.
  //
  // Every call reads the entity at an exact revision, computes the approval tuples from that read and asks the
  // graph owner to store them if the revision still stands. The graph owner is upstream code; the one thing assumed
  // of it is its compare-and-set: it stores a request exactly when the expected revision is the current one, moves
  // the revision up whenever it changes anything, keeps other predicates, and answers truthfully. Requests and
  // replies may be lost or late, calls may give up waiting at any time, and lifecycle writers, which own other
  // predicates, move the revision at will.

  import opened ApprovalFacts

  const MAX_ATTEMPTS := 8

  datatype Store = Store(revision: nat, receipts: multiset<Triple>, others: multiset<Triple>)

  datatype Request = Request(expected: nat, desired: multiset<Triple>)

  datatype Reply = Mismatch | Refusal | Receipt(applied: bool, revision: nat, receipts: multiset<Triple>)

  /** How a call ends: recorded, failed before sending, declined by the owner, outcome unknown, or out of attempts. */
  datatype Result = Recorded(already: bool) | Failed | Declined | Unknown | Conflict

  datatype Phase =
    | Top
    | Fenced(request: Request, already: bool)
    | Waiting(request: Request, already: bool)
    | Done(result: Result)

  /** `conflicts` is history: the expected revisions of the attempts that met a mismatch. */
  datatype Call = Call(event: Event, attempt: nat, phase: Phase, conflicts: seq<nat>)

  /** The log of stored writes is history; no participant reads it. */
  datatype Write =
    | Commit(caller: nat, event: Event, before: Store, after: Store)
    | Foreign(before: Store, after: Store)

  datatype World = World(store: Store, calls: map<nat, Call>, wire: map<nat, Request>, replies: map<nat, Reply>, log: seq<Write>)

  datatype Action =
    | Begin(c: nat, event: Event)
    | Read(c: nat)
    | Abort(c: nat)
    | Send(c: nat)
    | Apply(c: nat, revision: nat)
    | Unchanged(c: nat)
    | Reject(c: nat)
    | Refuse(c: nat)
    | LoseRequest(c: nat)
    | LoseReply(c: nat)
    | Deliver(c: nat)
    | GiveUp(c: nat)
    | Lifecycle(revision: nat, others: multiset<Triple>)

  predicate ReceiptOk(q: Request, r: Reply)
    requires r.Receipt?
  {
    && ((r.applied && r.revision > q.expected) || (!r.applied && r.revision == q.expected))
    && q.desired == r.receipts
  }

  /** The request on the wire names a revision that has passed. */
  predicate Stale(w: World, c: nat) {
    c in w.wire && w.wire[c].expected != w.store.revision
  }

  ghost predicate Enabled(w: World, a: Action) {
    match a
    case Begin(c, e) => c !in w.calls && ValidPair(e.gate)
    case Read(c) => c in w.calls && w.calls[c].phase.Top?
    case Abort(c) => c in w.calls && (w.calls[c].phase.Top? || w.calls[c].phase.Fenced?)
    case Send(c) => c in w.calls && w.calls[c].phase.Fenced?
    case Apply(c, revision) => c in w.calls && c in w.wire && w.wire[c].expected == w.store.revision < revision
    case Unchanged(c) => c in w.calls && c in w.wire && w.wire[c].expected == w.store.revision && w.wire[c].desired == w.store.receipts
    case Reject(c) => Stale(w, c)
    case Refuse(c) => c in w.wire
    case LoseRequest(c) => c in w.wire
    case LoseReply(c) => c in w.replies
    case Deliver(c) => c in w.calls && c in w.replies && w.calls[c].phase.Waiting?
    case GiveUp(c) => c in w.calls && w.calls[c].phase.Waiting?
    case Lifecycle(revision, _) => w.store.revision < revision
  }

  /** One pass through the read: fence the facts computed from this very read, or fail on an invalid entity. */
  ghost function AfterRead(id: string, k: Call, s: Store): Call {
    if Valid(id, s.receipts) then
      k.(phase := Fenced(Request(s.revision, multiset(Record(id, View(s.receipts), k.event))),
                         k.event.gate in Gates(View(s.receipts), Answered)))
    else
      k.(phase := Done(Failed))
  }

  function AfterReply(k: Call, r: Reply): Call
    requires k.phase.Waiting?
  {
    match r
    case Mismatch =>
      Call(k.event, k.attempt + 1, if k.attempt + 1 < MAX_ATTEMPTS then Top else Done(Conflict),
           k.conflicts + [k.phase.request.expected])
    case Refusal => k.(phase := Done(Declined))
    case Receipt(_, _, _) =>
      k.(phase := Done(if ReceiptOk(k.phase.request, r) then Recorded(k.phase.already) else Unknown))
  }

  ghost function Step(id: string, w: World, a: Action): World
    requires Enabled(w, a)
  {
    match a
    case Begin(c, e) => w.(calls := w.calls[c := Call(e, 0, Top, [])])
    case Read(c) => w.(calls := w.calls[c := AfterRead(id, w.calls[c], w.store)])
    case Abort(c) =>
      w.(calls := w.calls[c := w.calls[c].(phase := Done(if w.calls[c].phase.Top? then Failed else Declined))])
    case Send(c) =>
      var p := w.calls[c].phase;
      w.(calls := w.calls[c := w.calls[c].(phase := Waiting(p.request, p.already))], wire := w.wire[c := p.request])
    case Apply(c, revision) =>
      var after := Store(revision, w.wire[c].desired, w.store.others);
      w.(store := after, wire := w.wire - {c}, replies := w.replies[c := Receipt(true, revision, after.receipts)],
         log := w.log + [Commit(c, w.calls[c].event, w.store, after)])
    case Unchanged(c) =>
      w.(wire := w.wire - {c}, replies := w.replies[c := Receipt(false, w.store.revision, w.store.receipts)],
         log := w.log + [Commit(c, w.calls[c].event, w.store, w.store)])
    case Reject(c) => w.(wire := w.wire - {c}, replies := w.replies[c := Mismatch])
    case Refuse(c) => w.(wire := w.wire - {c}, replies := w.replies[c := Refusal])
    case LoseRequest(c) => w.(wire := w.wire - {c})
    case LoseReply(c) => w.(replies := w.replies - {c})
    case Deliver(c) => w.(calls := w.calls[c := AfterReply(w.calls[c], w.replies[c])], replies := w.replies - {c})
    case GiveUp(c) => w.(calls := w.calls[c := w.calls[c].(phase := Done(Unknown))])
    case Lifecycle(revision, others) =>
      var after := Store(revision, w.store.receipts, others);
      w.(store := after, log := w.log + [Foreign(w.store, after)])
  }

  /** `acts` is an interleaving that leads from `w` to `w'`. */
  ghost predicate Runs(id: string, w: World, acts: seq<Action>, w': World)
    decreases |acts|
  {
    if acts == [] then w == w'
    else Enabled(w, acts[0]) && Runs(id, Step(id, w, acts[0]), acts[1..], w')
  }

  ghost function Start(s: Store): World {
    World(s, map[], map[], map[], [])
  }

  // ---------------------------------------------------------------------------------------
  // What holds of every call
  // ---------------------------------------------------------------------------------------

  ghost predicate By(l: Write, c: nat) {
    l.Commit? && l.caller == c
  }

  ghost predicate Uncommitted(log: seq<Write>, c: nat) {
    forall l | l in log :: !By(l, c)
  }

  /** Another writer moved the entity off revision `revision`. */
  ghost predicate Overwritten(log: seq<Write>, c: nat, revision: nat) {
    exists l :: l in log && !By(l, c) && l.before.revision == revision < l.after.revision
  }

  ghost predicate CommittedAs(log: seq<Write>, c: nat, e: Event, already: bool) {
    exists l :: l in log && By(l, c) && l.event == e && already == (e.gate in Gates(View(l.before.receipts), Answered))
  }

  /** A request either still fits the entity it was computed from, or has been overtaken by another writer. */
  ghost predicate Tied(id: string, w: World, c: nat, e: Event, q: Request) {
    if q.expected == w.store.revision then q.desired == multiset(Record(id, View(w.store.receipts), e))
    else q.expected < w.store.revision && Overwritten(w.log, c, q.expected)
  }

  ghost predicate AlreadyTied(w: World, e: Event, q: Request, already: bool) {
    q.expected == w.store.revision ==> already == (e.gate in Gates(View(w.store.receipts), Answered))
  }

  predicate Rising(xs: seq<nat>) {
    forall i, j | 0 <= i < j < |xs| :: xs[i] < xs[j]
  }

  predicate AllBelow(xs: seq<nat>, n: nat) {
    forall x | x in xs :: x < n
  }

  ghost predicate ConflictsOk(w: World, c: nat, k: Call) {
    && |k.conflicts| == k.attempt
    && Rising(k.conflicts)
    && AllBelow(k.conflicts, w.store.revision)
    && forall x | x in k.conflicts :: Overwritten(w.log, c, x)
  }

  ghost predicate InFlightOk(id: string, w: World, c: nat, k: Call) {
    c in w.wire ==> c !in w.replies && Uncommitted(w.log, c) && Tied(id, w, c, k.event, w.wire[c])
  }

  ghost predicate ReplyOk(w: World, c: nat, k: Call, q: Request, already: bool, r: Reply) {
    match r
    case Mismatch => Uncommitted(w.log, c) && q.expected < w.store.revision && Overwritten(w.log, c, q.expected)
    case Refusal => Uncommitted(w.log, c)
    case Receipt(_, _, _) => ReceiptOk(q, r) && CommittedAs(w.log, c, k.event, already)
  }

  ghost predicate PhaseOk(id: string, w: World, c: nat, k: Call) {
    match k.phase
    case Top => k.attempt < MAX_ATTEMPTS && Uncommitted(w.log, c) && c !in w.wire && c !in w.replies
    case Fenced(q, already) =>
      && k.attempt < MAX_ATTEMPTS && Uncommitted(w.log, c) && c !in w.wire && c !in w.replies
      && Tied(id, w, c, k.event, q) && AlreadyTied(w, k.event, q, already) && AllBelow(k.conflicts, q.expected)
    case Waiting(q, already) =>
      && k.attempt < MAX_ATTEMPTS && AllBelow(k.conflicts, q.expected)
      && (c in w.wire ==> w.wire[c] == q && AlreadyTied(w, k.event, q, already))
      && (c in w.replies ==> ReplyOk(w, c, k, q, already, w.replies[c]))
    case Done(r) =>
      && (c in w.wire || c in w.replies ==> r == Unknown)
      && match r
         case Recorded(already) => CommittedAs(w.log, c, k.event, already)
         case Failed => Uncommitted(w.log, c)
         case Declined => Uncommitted(w.log, c)
         case Conflict => Uncommitted(w.log, c) && k.attempt == MAX_ATTEMPTS
         case Unknown => true
  }

  ghost predicate CallOk(id: string, w: World, c: nat)
    requires c in w.calls
  {
    var k := w.calls[c];
    ValidPair(k.event.gate) && ConflictsOk(w, c, k) && InFlightOk(id, w, c, k) && PhaseOk(id, w, c, k)
  }

  // ---------------------------------------------------------------------------------------
  // What holds of the log
  // ---------------------------------------------------------------------------------------

  ghost predicate WriteOk(id: string, l: Write) {
    && Valid(id, l.before.receipts)
    && l.before.revision <= l.after.revision
    && (l.before.revision == l.after.revision ==> l.before == l.after)
    && match l
       case Commit(_, e, before, after) =>
         ValidPair(e.gate) && after.others == before.others && after.receipts == multiset(Record(id, View(before.receipts), e))
       case Foreign(before, after) => after.receipts == before.receipts
  }

  /** The log is a chain of writes from `first` to `last`. */
  ghost predicate Chain(id: string, first: Store, log: seq<Write>, last: Store) {
    if log == [] then first == last
    else
      var l := log[|log| - 1];
      l.after == last && WriteOk(id, l) && Chain(id, first, log[..|log| - 1], l.before)
  }

  /** No call commits twice. */
  ghost predicate OnceEach(log: seq<Write>) {
    forall i, j | 0 <= i < j < |log| && log[i].Commit? && log[j].Commit? :: log[i].caller != log[j].caller
  }

  ghost predicate CommitsKnown(w: World) {
    forall l | l in w.log && l.Commit? :: l.caller in w.calls && w.calls[l.caller].event == l.event
  }

  ghost predicate Inv(id: string, first: Store, w: World) {
    && Valid(id, first.receipts)
    && Valid(id, w.store.receipts)
    && Chain(id, first, w.log, w.store)
    && OnceEach(w.log)
    && CommitsKnown(w)
    && w.wire.Keys <= w.calls.Keys
    && w.replies.Keys <= w.calls.Keys
    && forall c | c in w.calls :: CallOk(id, w, c)
  }

  lemma RecordedValid(id: string, ms: multiset<Triple>, e: Event)
    requires Valid(id, ms) && ValidPair(e.gate)
    ensures Valid(id, multiset(Record(id, View(ms), e)))
  {
    hide Record, ValidSet, ValidPair;
    RecordKeepsValid(id, View(ms), e);
    ViewOfSet(Record(id, View(ms), e));
  }

  // ---------------------------------------------------------------------------------------
  // A write leaves the other calls in order
  // ---------------------------------------------------------------------------------------

  ghost predicate Wrote(w: World, w': World, l: Write) {
    && w'.log == w.log + [l] && l.before == w.store && l.after == w'.store
    && w.store.revision <= w'.store.revision
    && (w.store.revision == w'.store.revision ==> w.store == w'.store)
  }

  ghost predicate SameCall(w: World, w': World, c: nat) {
    && c in w.calls && c in w'.calls && w.calls[c] == w'.calls[c]
    && (c in w.wire <==> c in w'.wire) && (c in w.wire ==> w.wire[c] == w'.wire[c])
    && (c in w.replies <==> c in w'.replies) && (c in w.replies ==> w.replies[c] == w'.replies[c])
  }

  lemma LogGrows(log: seq<Write>, l: Write, c: nat)
    requires !By(l, c)
    ensures Uncommitted(log, c) ==> Uncommitted(log + [l], c)
    ensures forall r: nat :: Overwritten(log, c, r) ==> Overwritten(log + [l], c, r)
    ensures forall e, b :: CommittedAs(log, c, e, b) ==> CommittedAs(log + [l], c, e, b)
    ensures l.before.revision < l.after.revision ==> Overwritten(log + [l], c, l.before.revision)
  {
    hide Gates, View;
    var big := log + [l];
    assert forall m | m in log :: m in big;
    assert l in big;
    forall r: nat | Overwritten(log, c, r) ensures Overwritten(big, c, r) {
      var m :| m in log && !By(m, c) && m.before.revision == r < m.after.revision;
      assert m in big;
    }
    forall e, b | CommittedAs(log, c, e, b) ensures CommittedAs(big, c, e, b) {
      var m :| m in log && By(m, c) && m.event == e && b == (e.gate in Gates(View(m.before.receipts), Answered));
      assert m in big;
    }
  }

  lemma OtherWrite(id: string, w: World, w': World, c: nat, l: Write)
    requires SameCall(w, w', c) && CallOk(id, w, c)
    requires Wrote(w, w', l) && !By(l, c)
    ensures CallOk(id, w', c)
  {
    hide Gates, View, Uncommitted, Overwritten, CommittedAs, Record, ValidPair, ReceiptOk, Rising;
    LogGrows(w.log, l, c);
    var k := w.calls[c];
    assert ConflictsOk(w', c, k);
    assert InFlightOk(id, w', c, k);
  }

  lemma OtherQuiet(id: string, w: World, w': World, c: nat)
    requires SameCall(w, w', c) && CallOk(id, w, c)
    requires w.store == w'.store && w.log == w'.log
    ensures CallOk(id, w', c)
  {
    hide Gates, View, Uncommitted, Overwritten, CommittedAs, Record, ValidPair, ReceiptOk, Rising;
  }

  // ---------------------------------------------------------------------------------------
  // Every step keeps the invariant
  // ---------------------------------------------------------------------------------------

  /** Steps of call `c` that store nothing. */
  lemma QuietStep(id: string, first: Store, w: World, w': World, c: nat)
    requires Inv(id, first, w)
    requires w.store == w'.store && w.log == w'.log
    requires forall d | d in w.calls && d != c :: SameCall(w, w', d)
    requires w'.calls.Keys == w.calls.Keys + {c}
    requires w'.wire.Keys <= w'.calls.Keys && w'.replies.Keys <= w'.calls.Keys
    requires c in w.calls ==> w'.calls[c].event == w.calls[c].event
    requires CallOk(id, w', c)
    ensures Inv(id, first, w')
  {
    hide CallOk, Valid, Chain, OnceEach;
    forall d | d in w'.calls ensures CallOk(id, w', d) {
      if d != c { OtherQuiet(id, w, w', d); }
    }
  }

  /** Steps that store a write. */
  lemma WriteStep(id: string, first: Store, w: World, w': World, l: Write)
    requires Inv(id, first, w)
    requires Wrote(w, w', l) && WriteOk(id, l)
    requires Valid(id, w'.store.receipts)
    requires w'.calls == w.calls && w'.wire.Keys <= w.wire.Keys && w'.replies.Keys <= w.calls.Keys
    requires forall d | d in w.calls && !By(l, d) :: SameCall(w, w', d)
    requires l.Commit? ==> l.caller in w.calls && l.event == w.calls[l.caller].event && Uncommitted(w.log, l.caller) && CallOk(id, w', l.caller)
    ensures Inv(id, first, w')
  {
    hide CallOk, Valid, Wrote, WriteOk;
    assert w'.log == w.log + [l] && l.before == w.store && l.after == w'.store by { assert Wrote(w, w', l); WroteIs(w, w', l); }
    assert w'.log[..|w'.log| - 1] == w.log;
    assert Chain(id, first, w'.log, w'.store);
    assert OnceEach(w'.log) by { OnceMore(w.log, l); }
    forall d | d in w'.calls ensures CallOk(id, w', d) {
      if !By(l, d) { OtherWrite(id, w, w', d, l); }
    }
  }

  lemma WroteIs(w: World, w': World, l: Write)
    requires Wrote(w, w', l)
    ensures w'.log == w.log + [l] && l.before == w.store && l.after == w'.store
  {
  }

  lemma OnceMore(log: seq<Write>, l: Write)
    requires OnceEach(log)
    requires l.Commit? ==> Uncommitted(log, l.caller)
    ensures OnceEach(log + [l])
  {
    var big := log + [l];
    forall i, j | 0 <= i < j < |big| && big[i].Commit? && big[j].Commit? ensures big[i].caller != big[j].caller {
      if j == |log| {
        assert log[i] in log;
      }
    }
  }

  lemma BeginStep(id: string, first: Store, w: World, c: nat, e: Event)
    requires Inv(id, first, w) && Enabled(w, Begin(c, e))
    ensures Inv(id, first, Step(id, w, Begin(c, e)))
  {
    hide ValidPair, Valid, Chain, Overwritten, CommittedAs, Gates;
    var w' := Step(id, w, Begin(c, e));
    QuietStep(id, first, w, w', c);
  }

  lemma ReadStep(id: string, first: Store, w: World, c: nat)
    requires Inv(id, first, w) && Enabled(w, Read(c))
    ensures Inv(id, first, Step(id, w, Read(c)))
  {
    hide ValidPair, Valid, Chain, Overwritten, CommittedAs, Gates, Record, View, OnceEach, CommitsKnown;
    var w' := Step(id, w, Read(c));
    assert CallOk(id, w, c);
    assert CallOk(id, w', c);
    QuietStep(id, first, w, w', c);
  }

  /** The call gives up before sending, sends, or gives up waiting. */
  lemma AbortStep(id: string, first: Store, w: World, c: nat)
    requires Inv(id, first, w) && Enabled(w, Abort(c))
    ensures Inv(id, first, Step(id, w, Abort(c)))
  {
    hide ValidPair, Valid, Chain, Overwritten, CommittedAs, Gates, Record, View, OnceEach, CommitsKnown;
    var w' := Step(id, w, Abort(c));
    assert CallOk(id, w, c);
    assert CallOk(id, w', c);
    QuietStep(id, first, w, w', c);
  }

  lemma SendStep(id: string, first: Store, w: World, c: nat)
    requires Inv(id, first, w) && Enabled(w, Send(c))
    ensures Inv(id, first, Step(id, w, Send(c)))
  {
    hide ValidPair, Valid, Chain, Overwritten, CommittedAs, Gates, Record, View, OnceEach, CommitsKnown;
    var w' := Step(id, w, Send(c));
    assert CallOk(id, w, c);
    assert CallOk(id, w', c);
    QuietStep(id, first, w, w', c);
  }

  lemma GiveUpStep(id: string, first: Store, w: World, c: nat)
    requires Inv(id, first, w) && Enabled(w, GiveUp(c))
    ensures Inv(id, first, Step(id, w, GiveUp(c)))
  {
    hide ValidPair, Valid, Chain, Overwritten, CommittedAs, Gates, Record, View, OnceEach, CommitsKnown;
    var w' := Step(id, w, GiveUp(c));
    assert CallOk(id, w, c);
    assert CallOk(id, w', c);
    QuietStep(id, first, w, w', c);
  }

  /** The owner turns a request down, or the network drops a request or a reply. */
  lemma RejectStep(id: string, first: Store, w: World, c: nat)
    requires Inv(id, first, w) && Enabled(w, Reject(c))
    ensures Inv(id, first, Step(id, w, Reject(c)))
  {
    hide ValidPair, Valid, Chain, Overwritten, CommittedAs, Gates, Record, View, OnceEach, CommitsKnown;
    var w' := Step(id, w, Reject(c));
    assert CallOk(id, w, c);
    assert CallOk(id, w', c);
    QuietStep(id, first, w, w', c);
  }

  lemma RefuseStep(id: string, first: Store, w: World, c: nat)
    requires Inv(id, first, w) && Enabled(w, Refuse(c))
    ensures Inv(id, first, Step(id, w, Refuse(c)))
  {
    hide ValidPair, Valid, Chain, Overwritten, CommittedAs, Gates, Record, View, OnceEach, CommitsKnown;
    var w' := Step(id, w, Refuse(c));
    assert CallOk(id, w, c);
    assert CallOk(id, w', c);
    QuietStep(id, first, w, w', c);
  }

  lemma LoseRequestStep(id: string, first: Store, w: World, c: nat)
    requires Inv(id, first, w) && Enabled(w, LoseRequest(c))
    ensures Inv(id, first, Step(id, w, LoseRequest(c)))
  {
    hide ValidPair, Valid, Chain, Overwritten, CommittedAs, Gates, Record, View, OnceEach, CommitsKnown;
    var w' := Step(id, w, LoseRequest(c));
    assert CallOk(id, w, c);
    assert CallOk(id, w', c);
    QuietStep(id, first, w, w', c);
  }

  lemma LoseReplyStep(id: string, first: Store, w: World, c: nat)
    requires Inv(id, first, w) && Enabled(w, LoseReply(c))
    ensures Inv(id, first, Step(id, w, LoseReply(c)))
  {
    hide ValidPair, Valid, Chain, Overwritten, CommittedAs, Gates, Record, View, OnceEach, CommitsKnown;
    var w' := Step(id, w, LoseReply(c));
    assert CallOk(id, w, c);
    assert CallOk(id, w', c);
    QuietStep(id, first, w, w', c);
  }

  lemma RisingSnoc(xs: seq<nat>, n: nat)
    requires Rising(xs) && AllBelow(xs, n)
    ensures Rising(xs + [n])
  {
    forall i | 0 <= i < |xs| ensures xs[i] < n {
      assert xs[i] in xs;
    }
  }

  lemma DeliverStep(id: string, first: Store, w: World, c: nat)
    requires Inv(id, first, w) && Enabled(w, Deliver(c))
    ensures Inv(id, first, Step(id, w, Deliver(c)))
  {
    hide ValidPair, Valid, Chain, Overwritten, CommittedAs, Gates, Record, View, OnceEach, CommitsKnown, ReceiptOk;
    var w' := Step(id, w, Deliver(c));
    var k, k' := w.calls[c], w'.calls[c];
    assert CallOk(id, w, c);
    assert ConflictsOk(w', c, k') by {
      if w.replies[c].Mismatch? {
        var e := k.phase.request.expected;
        RisingSnoc(k.conflicts, e);
        forall x | x in k.conflicts + [e] ensures x < w.store.revision && Overwritten(w.log, c, x) {
          assert x in k.conflicts || x == e;
        }
      }
    }
    assert CallOk(id, w', c);
    QuietStep(id, first, w, w', c);
  }

  lemma ApplyStep(id: string, first: Store, w: World, c: nat, revision: nat)
    requires Inv(id, first, w) && Enabled(w, Apply(c, revision))
    ensures Inv(id, first, Step(id, w, Apply(c, revision)))
  {
    hide ValidPair, Valid, Chain, Gates, Record, View, OnceEach, CommitsKnown;
    var w' := Step(id, w, Apply(c, revision));
    var k, l := w.calls[c], w'.log[|w.log|];
    assert CallOk(id, w, c);
    RecordedValid(id, w.store.receipts, k.event);
    assert l in w'.log;
    assert Wrote(w, w', l) && WriteOk(id, l) && By(l, c);
    assert Valid(id, w'.store.receipts);
    CommitterOk(id, w, w', c, l);
    WriteStep(id, first, w, w', l);
  }

  lemma UnchangedStep(id: string, first: Store, w: World, c: nat)
    requires Inv(id, first, w) && Enabled(w, Unchanged(c))
    ensures Inv(id, first, Step(id, w, Unchanged(c)))
  {
    hide ValidPair, Valid, Chain, Gates, Record, View, OnceEach, CommitsKnown;
    var w' := Step(id, w, Unchanged(c));
    var k, l := w.calls[c], w'.log[|w.log|];
    assert CallOk(id, w, c);
    RecordedValid(id, w.store.receipts, k.event);
    assert l in w'.log;
    assert Wrote(w, w', l) && WriteOk(id, l) && By(l, c);
    assert Valid(id, w'.store.receipts);
    CommitterOk(id, w, w', c, l);
    WriteStep(id, first, w, w', l);
  }

  /** The committing call itself: its receipt is the honest one and passes the check. */
  lemma CommitterOk(id: string, w: World, w': World, c: nat, l: Write)
    requires c in w.calls && CallOk(id, w, c) && c in w.wire && w.wire[c].expected == w.store.revision
    requires Wrote(w, w', l) && By(l, c) && l.event == w.calls[c].event
    requires w'.calls == w.calls && c !in w'.wire && c in w'.replies
    requires w'.replies[c] == Receipt(w.store.revision < w'.store.revision, w'.store.revision, w'.store.receipts)
    requires w'.store.receipts == w.wire[c].desired
    ensures CallOk(id, w', c)
  {
    hide ValidPair, Gates, Record, View;
    var k := w.calls[c];
    assert l in w'.log;
    forall x | x in k.conflicts ensures Overwritten(w'.log, c, x) {
      var m :| m in w.log && !By(m, c) && m.before.revision == x < m.after.revision;
      assert m in w'.log;
    }
    if k.phase.Waiting? {
      assert CommittedAs(w'.log, c, k.event, k.phase.already);
    }
  }

  lemma LifecycleStep(id: string, first: Store, w: World, revision: nat, others: multiset<Triple>)
    requires Inv(id, first, w) && Enabled(w, Lifecycle(revision, others))
    ensures Inv(id, first, Step(id, w, Lifecycle(revision, others)))
  {
    hide ValidPair, Valid, Chain, Gates, Record, View, OnceEach, CommitsKnown, CallOk;
    var w' := Step(id, w, Lifecycle(revision, others));
    WriteStep(id, first, w, w', w'.log[|w.log|]);
  }

  lemma StepKeepsInv(id: string, first: Store, w: World, a: Action)
    requires Inv(id, first, w) && Enabled(w, a)
    ensures Inv(id, first, Step(id, w, a))
  {
    hide *;
    match a
    case Begin(c, e) => BeginStep(id, first, w, c, e);
    case Read(c) => ReadStep(id, first, w, c);
    case Abort(c) => AbortStep(id, first, w, c);
    case Send(c) => SendStep(id, first, w, c);
    case Apply(c, revision) => ApplyStep(id, first, w, c, revision);
    case Unchanged(c) => UnchangedStep(id, first, w, c);
    case Reject(c) => RejectStep(id, first, w, c);
    case Refuse(c) => RefuseStep(id, first, w, c);
    case LoseRequest(c) => LoseRequestStep(id, first, w, c);
    case LoseReply(c) => LoseReplyStep(id, first, w, c);
    case Deliver(c) => DeliverStep(id, first, w, c);
    case GiveUp(c) => GiveUpStep(id, first, w, c);
    case Lifecycle(revision, others) => LifecycleStep(id, first, w, revision, others);
  }

  // ---------------------------------------------------------------------------------------
  // Whole runs
  // ---------------------------------------------------------------------------------------

  lemma {:induction false} RunKeepsInv(id: string, first: Store, w: World, acts: seq<Action>, w': World)
    requires Inv(id, first, w) && Runs(id, w, acts, w')
    ensures Inv(id, first, w')
    decreases |acts|
  {
    hide Inv, Enabled, Step;
    if acts != [] {
      StepKeepsInv(id, first, w, acts[0]);
      RunKeepsInv(id, first, Step(id, w, acts[0]), acts[1..], w');
    }
  }

  lemma StartOk(id: string, s: Store)
    requires Valid(id, s.receipts)
    ensures Inv(id, s, Start(s))
  {
  }

  /**
  Safety over every interleaving: answered gates were observed, and the one stored count is exactly the number
  of observed gates without an answer; it is absent only while there is no history.
  */
  lemma SafeInEveryInterleaving(id: string, s: Store, acts: seq<Action>, w: World)
    requires Valid(id, s.receipts) && Runs(id, Start(s), acts, w)
    ensures var v := View(w.store.receipts);
            && w.store.receipts == multiset(v) && WellKeyed(id, v)
            && Gates(v, Answered) <= Gates(v, Pending)
            && (forall t | t in v && t.pred == Outstanding :: t.obj == Number(|Gates(v, Pending)| - |Gates(v, Answered)|))
            && (Of(v, Outstanding) == {} ==> v == {})
  {
    hide Runs, WellKeyed, Chain, OnceEach, CommitsKnown, CallOk, Start;
    StartOk(id, s);
    RunKeepsInv(id, s, Start(s), acts, w);
    var v := View(w.store.receipts);
    if Of(v, Outstanding) == {} && v != {} {
      OnlyApproval(id, v);
    }
  }

  lemma OnlyApproval(id: string, v: set<Triple>)
    requires WellKeyed(id, v) && Of(v, Pending) == {} && Of(v, Answered) == {} && Of(v, Outstanding) == {}
    ensures v == {}
  {
    assert v == Of(v, Pending) + Of(v, Answered) + Of(v, Outstanding);
  }

  lemma StepKeepsReceipts(id: string, first: Store, w: World, a: Action)
    requires Inv(id, first, w) && Enabled(w, a)
    ensures Receipts(View(w.store.receipts)) <= Receipts(View(Step(id, w, a).store.receipts))
  {
    hide Receipts, Record, Valid, Chain, OnceEach, CommitsKnown, Gates, View;
    if a.Apply? {
      assert CallOk(id, w, a.c);
      var r := Record(id, View(w.store.receipts), w.calls[a.c].event);
      RecordGates(id, View(w.store.receipts), w.calls[a.c].event);
      ViewOfSet(r);
    }
  }

  /** Both gate sets only grow, and a stored receipt keeps its source, timestamp and confidence for ever. */
  lemma {:induction false} ReceiptsArePermanent(id: string, first: Store, w: World, acts: seq<Action>, w': World)
    requires Inv(id, first, w) && Runs(id, w, acts, w')
    ensures Receipts(View(w.store.receipts)) <= Receipts(View(w'.store.receipts))
    decreases |acts|
  {
    hide Inv, Enabled, Step, Receipts, View;
    if acts != [] {
      StepKeepsReceipts(id, first, w, acts[0]);
      StepKeepsInv(id, first, w, acts[0]);
      ReceiptsArePermanent(id, first, Step(id, w, acts[0]), acts[1..], w');
    }
  }

  ghost function Committed(log: seq<Write>): set<Event> {
    set l | l in log && l.Commit? :: l.event
  }

  ghost function Observed(es: set<Event>): set<Value> {
    set e | e in es :: e.gate
  }

  ghost function Resolved(es: set<Event>): set<Value> {
    set e | e in es && e.answered :: e.gate
  }

  lemma CommittedSnoc(log: seq<Write>, l: Write)
    ensures Committed(log + [l]) == Committed(log) + (if l.Commit? then {l.event} else {})
    ensures Observed(Committed(log + [l])) == Observed(Committed(log)) + (if l.Commit? then {l.event.gate} else {})
    ensures Resolved(Committed(log + [l])) == Resolved(Committed(log)) + (if l.Commit? && l.event.answered then {l.event.gate} else {})
  {
    CommittedElements(log, l);
    hide Committed;
  }

  lemma CommittedElements(log: seq<Write>, l: Write)
    ensures Committed(log + [l]) == Committed(log) + (if l.Commit? then {l.event} else {})
  {
    forall m | m in log ensures m in log + [l] {}
    assert l in log + [l];
  }

  lemma {:induction false} ChainGates(id: string, first: Store, log: seq<Write>, last: Store)
    requires Chain(id, first, log, last)
    ensures Gates(View(last.receipts), Pending) == Gates(View(first.receipts), Pending) + Observed(Committed(log))
    ensures Gates(View(last.receipts), Answered) == Gates(View(first.receipts), Answered) + Resolved(Committed(log))
  {
    hide Gates, View, Record, WriteOk, Committed, Observed, Resolved;
    if log == [] {
      NothingCommitted();
    } else {
      var init, l := log[..|log| - 1], log[|log| - 1];
      ChainGates(id, first, init, l.before);
      assert log == init + [l];
      CommittedSnoc(init, l);
      WriteGates(id, l);
    }
  }

  lemma WriteGates(id: string, l: Write)
    requires WriteOk(id, l)
    ensures Gates(View(l.after.receipts), Pending) ==
            Gates(View(l.before.receipts), Pending) + (if l.Commit? then {l.event.gate} else {})
    ensures Gates(View(l.after.receipts), Answered) ==
            Gates(View(l.before.receipts), Answered) + (if l.Commit? && l.event.answered then {l.event.gate} else {})
  {
    hide Gates, View, Record, Valid, ValidPair;
    if l.Commit? {
      RecordGates(id, View(l.before.receipts), l.event);
      ViewOfSet(Record(id, View(l.before.receipts), l.event));
    }
  }

  lemma NothingCommitted()
    ensures Observed(Committed([])) == {} && Resolved(Committed([])) == {}
  {
  }

  /** No lost update: the stored gates are exactly the initial ones and those of the committed events. */
  lemma NoLostUpdate(id: string, first: Store, w: World)
    requires Inv(id, first, w)
    ensures Gates(View(w.store.receipts), Pending) == Gates(View(first.receipts), Pending) + Observed(Committed(w.log))
    ensures Gates(View(w.store.receipts), Answered) == Gates(View(first.receipts), Answered) + Resolved(Committed(w.log))
  {
    hide Gates, View, Chain, CallOk, OnceEach, CommitsKnown, Valid, Observed, Resolved, Committed;
    ChainGates(id, first, w.log, w.store);
  }

  /** Convergence: two runs that committed the same events agree on both gate sets and the count, whatever the order. */
  lemma Convergence(id: string, s: Store, acts: seq<Action>, w: World, acts': seq<Action>, w': World)
    requires Valid(id, s.receipts)
    requires Runs(id, Start(s), acts, w) && Runs(id, Start(s), acts', w')
    requires Committed(w.log) == Committed(w'.log)
    ensures var v, v' := View(w.store.receipts), View(w'.store.receipts);
            Gates(v, Pending) == Gates(v', Pending) && Gates(v, Answered) == Gates(v', Answered) && Left(v) == Left(v')
  {
    hide *;
    StartOk(id, s);
    RunKeepsInv(id, s, Start(s), acts, w);
    RunKeepsInv(id, s, Start(s), acts', w');
    NoLostUpdate(id, s, w);
    NoLostUpdate(id, s, w');
    SameGatesSameLeft(View(w.store.receipts), View(w'.store.receipts));
  }

  // ---------------------------------------------------------------------------------------
  // What a call may conclude from its result
  // ---------------------------------------------------------------------------------------

  /** The writes of call `c`. */
  function Commits(log: seq<Write>, c: nat): nat {
    if log == [] then 0
    else Commits(log[..|log| - 1], c) + if log[|log| - 1].Commit? && log[|log| - 1].caller == c then 1 else 0
  }

  lemma {:induction false} CommitsAtMostOnce(log: seq<Write>, c: nat)
    requires OnceEach(log)
    ensures Commits(log, c) <= 1
    ensures Commits(log, c) == 0 <==> Uncommitted(log, c)
  {
    if log != [] {
      var init, l := log[..|log| - 1], log[|log| - 1];
      CommitsAtMostOnce(init, c);
      assert forall m :: m in log <==> m in init || m == l by { assert log == init + [l]; }
      if By(l, c) {
        forall m | m in init ensures !By(m, c) {
          var i :| 0 <= i < |init| && init[i] == m;
          assert log[i] == m && log[|log| - 1] == l;
        }
      }
    }
  }

  /**
  What a finished call may conclude. Success: it committed exactly once, its gate is recorded, and `already` is
  whether the gate was answered just before that commit. Failure, refusal, conflict: it never committed.
  An unknown outcome: at most one commit.
  */
  lemma ResultIsHonest(id: string, first: Store, w: World, c: nat)
    requires Inv(id, first, w) && c in w.calls && w.calls[c].phase.Done?
    ensures Commits(w.log, c) <= 1
    ensures match w.calls[c].phase.result
            case Unknown => true
            case Recorded(already) =>
              && Commits(w.log, c) == 1
              && CommittedAs(w.log, c, w.calls[c].event, already)
              && w.calls[c].event.gate in Gates(View(w.store.receipts), Pending)
              && (w.calls[c].event.answered ==> w.calls[c].event.gate in Gates(View(w.store.receipts), Answered))
            case _ => Commits(w.log, c) == 0 && c !in w.wire
  {
    hide Gates, View, Chain, OnceEach, CommitsKnown, Valid, Observed, Resolved, Committed, Tied, ConflictsOk;
    assert CallOk(id, w, c);
    CommitsAtMostOnce(w.log, c);
    NoLostUpdate(id, first, w);
    var k := w.calls[c];
    if k.phase.result.Recorded? {
      var l :| l in w.log && By(l, c) && l.event == k.event;
      CommitCounts(w.log, l);
    }
  }

  lemma CommitCounts(log: seq<Write>, l: Write)
    requires l in log && l.Commit?
    ensures l.event.gate in Observed(Committed(log))
    ensures l.event.answered ==> l.event.gate in Resolved(Committed(log))
    ensures !Uncommitted(log, l.caller)
  {
    assert l.event in Committed(log);
    assert By(l, l.caller);
  }

  /** An entity that no call could read: tuples as at the start, nothing sent, and every call still to read or failed. */
  ghost predicate Frozen(s: Store, w: World) {
    && w.store.receipts == s.receipts && w.wire == map[] && w.replies == map[]
    && (forall c | c in w.calls :: w.calls[c].phase == Top || w.calls[c].phase == Done(Failed))
    && (forall l | l in w.log :: l.Foreign?)
  }

  lemma FrozenStep(id: string, s: Store, w: World, a: Action)
    requires !Valid(id, s.receipts) && Frozen(s, w) && Enabled(w, a)
    ensures Frozen(s, Step(id, w, a))
  {
    hide Valid, Record, Gates, View, ValidPair;
  }

  /** On an entity that is invalid at the start no call ever commits, the gate tuples never change, and calls only fail. */
  lemma {:induction false} InvalidEntityStaysUntouched(id: string, s: Store, w: World, acts: seq<Action>, w': World)
    requires !Valid(id, s.receipts) && Frozen(s, w) && Runs(id, w, acts, w')
    ensures Frozen(s, w')
    decreases |acts|
  {
    hide Valid, Frozen, Step, Enabled;
    if acts != [] {
      FrozenStep(id, s, w, acts[0]);
      InvalidEntityStaysUntouched(id, s, Step(id, w, acts[0]), acts[1..], w');
    }
  }

  lemma NoCommitOnInvalidEntity(id: string, s: Store, acts: seq<Action>, w: World, c: nat)
    requires !Valid(id, s.receipts) && Runs(id, Start(s), acts, w)
    ensures w.store.receipts == s.receipts && Commits(w.log, c) == 0
    ensures c in w.calls && w.calls[c].phase.Done? ==> w.calls[c].phase.result == Failed
  {
    hide Valid, Runs;
    InvalidEntityStaysUntouched(id, s, Start(s), acts, w);
    NoCommits(w.log, c);
  }

  lemma {:induction false} NoCommits(log: seq<Write>, c: nat)
    requires forall l | l in log :: l.Foreign?
    ensures Commits(log, c) == 0
  {
    if log != [] {
      assert log[|log| - 1] in log;
      NoCommits(log[..|log| - 1], c);
    }
  }

  lemma DoneStep(id: string, w: World, a: Action, c: nat)
    requires Enabled(w, a) && c in w.calls && w.calls[c].phase.Done?
    ensures var w' := Step(id, w, a);
            c in w'.calls && w'.calls[c] == w.calls[c] && (c in w'.wire ==> c in w.wire && w'.wire[c] == w.wire[c])
  {
    hide AfterRead, AfterReply, ValidPair, Stale;
  }

  /** A finished call stays finished and never sends again, so its verdict holds in every continuation. */
  lemma {:induction false} DoneIsFinal(id: string, w: World, acts: seq<Action>, w': World, c: nat)
    requires Runs(id, w, acts, w') && c in w.calls && w.calls[c].phase.Done?
    ensures c in w'.calls && w'.calls[c] == w.calls[c]
    ensures c in w'.wire ==> c in w.wire && w'.wire[c] == w.wire[c]
    decreases |acts|
  {
    hide Step, Enabled;
    if acts != [] {
      DoneStep(id, w, acts[0], c);
      DoneIsFinal(id, Step(id, w, acts[0]), acts[1..], w', c);
    }
  }

  lemma InFlight(id: string, first: Store, w: World, c: nat)
    requires Inv(id, first, w) && c in w.wire
    ensures c in w.calls && Tied(id, w, c, w.calls[c].event, w.wire[c])
  {
    hide Chain, OnceEach, CommitsKnown, Valid, Tied, PhaseOk, ConflictsOk, ValidPair, Uncommitted;
    assert CallOk(id, w, c);
  }

  /** A request is turned down only when another writer moved the entity since the read it is fenced by. */
  lemma MismatchIsCharged(id: string, first: Store, w: World, c: nat)
    requires Inv(id, first, w) && Stale(w, c)
    ensures Overwritten(w.log, c, w.wire[c].expected)
  {
    hide Inv, Overwritten, Record, View;
    InFlight(id, first, w, c);
  }

  /** The writes by others that moved the revision. */
  function Overtakings(log: seq<Write>, c: nat): nat {
    if log == [] then 0
    else
      var l := log[|log| - 1];
      Overtakings(log[..|log| - 1], c) +
      if !(l.Commit? && l.caller == c) && l.before.revision < l.after.revision then 1 else 0
  }

  ghost function LeftBehind(log: seq<Write>, c: nat): set<nat> {
    set l | l in log && !By(l, c) && l.before.revision < l.after.revision :: l.before.revision
  }

  lemma LeftBehindSnoc(log: seq<Write>, l: Write, c: nat)
    ensures LeftBehind(log + [l], c) ==
            LeftBehind(log, c) + (if !By(l, c) && l.before.revision < l.after.revision then {l.before.revision} else {})
  {
    forall m | m in log ensures m in log + [l] {}
    assert l in log + [l];
  }

  lemma {:induction false} LeftBehindCount(log: seq<Write>, c: nat)
    ensures |LeftBehind(log, c)| <= Overtakings(log, c)
  {
    hide LeftBehind;
    if log == [] {
      NothingLeftBehind(c);
    } else {
      var init, l := log[..|log| - 1], log[|log| - 1];
      LeftBehindCount(init, c);
      assert log == init + [l];
      LeftBehindSnoc(init, l, c);
      if !By(l, c) && l.before.revision < l.after.revision {
        var a, r := LeftBehind(init, c), l.before.revision;
        assert |a + {r}| <= |a| + 1;
      } else {
        assert LeftBehind(log, c) == LeftBehind(init, c);
      }
    }
  }

  lemma NothingLeftBehind(c: nat)
    ensures LeftBehind([], c) == {}
  {
  }

  ghost function Elements(xs: seq<nat>): set<nat> {
    set x | x in xs
  }

  lemma ElementsSnoc(xs: seq<nat>, n: nat)
    ensures Elements(xs + [n]) == Elements(xs) + {n}
  {
  }

  lemma {:induction false} RisingSize(xs: seq<nat>)
    requires Rising(xs)
    ensures |Elements(xs)| == |xs|
  {
    if xs != [] {
      var init, n := xs[..|xs| - 1], xs[|xs| - 1];
      RisingSize(init);
      assert n !in Elements(init);
      assert xs == init + [n];
      ElementsSnoc(init, n);
    }
  }

  /**
  Progress: a call that gives up for conflict met eight distinct revisions, each moved on by another writer, so at
  least eight writes by others went through. More generally every retry is paid for by a distinct such write.
  */
  lemma RetriesArePaidFor(id: string, first: Store, w: World, c: nat)
    requires Inv(id, first, w) && c in w.calls
    ensures w.calls[c].attempt <= Overtakings(w.log, c)
    ensures w.calls[c].phase == Done(Conflict) ==> Overtakings(w.log, c) >= 8
  {
    hide Gates, View, Chain, OnceEach, CommitsKnown, Valid, Tied;
    var k := w.calls[c];
    assert CallOk(id, w, c);
    RisingSize(k.conflicts);
    LeftBehindCount(w.log, c);
    var xs := Elements(k.conflicts);
    forall x | x in xs ensures x in LeftBehind(w.log, c) {
      assert Overwritten(w.log, c, x);
    }
    SubsetSize(xs, LeftBehind(w.log, c));
  }

  lemma SubsetSize(a: set<nat>, b: set<nat>)
    requires a <= b
    ensures |a| <= |b|
  {
    assert b == a + (b - a);
  }
}

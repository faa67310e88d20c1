module ApprovalClient {
  // The retry loop of RecordApproval, run inside the protocol.
  //
  // `Deployment` is everything the call talks to. What upstream code and other processes may do is in the contracts of
  // its methods: they promise no more than that the world moved on by protocol steps that leave this call alone. Their
  // bodies are one well-behaved deployment; the loop is verified against the contracts only.

  import opened Text
  import opened ApprovalFacts
  import opened ApprovalProtocol

  /** What comes back from one request: an error class, something unreadable, or a decoded response. */
  datatype Answer =
    | RevisionMismatch
    | Classified
    | Transport
    | Response(applied: bool, revision: nat, triples: seq<Triple>)

  /** What a call is told, in order: about its context, by its reads, and in answer to its requests. */
  datatype Heard =
    | Context(ended: bool)
    | Unreadable
    | Entity(revision: nat, triples: seq<Triple>)
    | Reply(request: Request, answer: Answer)

  // ---------------------------------------------------------------------------------------
  // The result that a call owes to what it was told
  // ---------------------------------------------------------------------------------------

  /** The stored approval tuples that a read returned. */
  ghost function Stored(h: Heard): multiset<Triple>
    requires h.Entity?
  {
    multiset(Select(h.triples))
  }

  /** A live context, a read of a valid entity, and a context that is still alive. */
  ghost predicate Fences(run: string, hs: seq<Heard>) {
    |hs| >= 3 && hs[0] == Context(false) && hs[1].Entity? && Valid(run, Stored(hs[1])) && hs[2] == Context(false)
  }

  /** One attempt that sent something: the facts computed from its own read, fenced by that read's revision. */
  ghost predicate Asks(run: string, e: Event, hs: seq<Heard>) {
    && Fences(run, hs) && |hs| == 4 && hs[3].Reply?
    && hs[3].request == Request(hs[1].revision, multiset(Record(run, View(Stored(hs[1])), e)))
  }

  /** A receipt that answers the request. */
  predicate Passes(q: Request, answer: Answer) {
    && answer.Response?
    && (if answer.applied then answer.revision > q.expected else answer.revision == q.expected)
    && multiset(Select(answer.triples)) == q.desired
  }

  /** An attempt that is followed by another one. */
  ghost predicate Overtaken(run: string, e: Event, hs: seq<Heard>) {
    Asks(run, e, hs) && hs[3].answer == RevisionMismatch
  }

  /** An attempt that is the last one, and how the call ends. */
  ghost predicate Ends(run: string, e: Event, hs: seq<Heard>, r: Result) {
    match r
    case Failed =>
      || hs == [Context(true)]
      || hs == [Context(false), Unreadable]
      || (|hs| == 2 && hs[0] == Context(false) && hs[1].Entity? && !Valid(run, Stored(hs[1])))
    case Declined =>
      || (|hs| == 3 && hs[0] == Context(false) && hs[1].Entity? && Valid(run, Stored(hs[1])) && hs[2] == Context(true))
      || (Asks(run, e, hs) && hs[3].answer == Classified)
    case Unknown => Asks(run, e, hs) && (hs[3].answer == Transport || (hs[3].answer.Response? && !Passes(hs[3].request, hs[3].answer)))
    case Recorded(already) =>
      && Asks(run, e, hs) && Passes(hs[3].request, hs[3].answer)
      && already == exists t :: t in Stored(hs[1]) && t.pred == Answered && t.obj == e.gate
    case Conflict => false
  }

  /** With `left` attempts to go, a call that is told `hs` ends with `r`. */
  ghost predicate Owes(run: string, e: Event, left: nat, hs: seq<Heard>, r: Result) {
    if left == 0 then hs == [] && r == Conflict
    else Ends(run, e, hs, r) || (|hs| >= 4 && Overtaken(run, e, hs[..4]) && Owes(run, e, left - 1, hs[4..], r))
  }

  lemma {:induction false} OvertakenFirst(run: string, e: Event, left: nat, attempt: seq<Heard>, hs: seq<Heard>, r: Result)
    requires left > 0 && Overtaken(run, e, attempt) && Owes(run, e, left - 1, hs, r)
    ensures Owes(run, e, left, attempt + hs, r)
  {
    hide Overtaken, Ends;
    assert |attempt| == 4 by { Four(run, e, attempt); }
    assert (attempt + hs)[..4] == attempt && (attempt + hs)[4..] == hs;
  }

  lemma Four(run: string, e: Event, hs: seq<Heard>)
    requires Overtaken(run, e, hs)
    ensures |hs| == 4
  {
    hide Fences;
  }

  lemma EndsOnce(run: string, e: Event, hs: seq<Heard>, r: Result, r': Result)
    requires Ends(run, e, hs, r) && (Ends(run, e, hs, r') || (|hs| >= 4 && Overtaken(run, e, hs[..4])))
    ensures |hs| <= 4 && !(|hs| >= 4 && Overtaken(run, e, hs[..4])) && r == r'
  {
    hide Valid, Record, View, Select;
    if |hs| >= 4 { assert hs[..4] == hs; }
  }

  /** What a call is told decides its result. */
  lemma {:induction false} OneResult(run: string, e: Event, left: nat, hs: seq<Heard>, r: Result, r': Result)
    requires Owes(run, e, left, hs, r) && Owes(run, e, left, hs, r')
    ensures r == r'
  {
    hide Ends, Overtaken;
    if left > 0 {
      if Ends(run, e, hs, r) {
        EndsOnce(run, e, hs, r, r');
      } else if Ends(run, e, hs, r') {
        EndsOnce(run, e, hs, r', r);
      } else {
        OneResult(run, e, left - 1, hs[4..], r, r');
      }
    }
  }

  /** What the last thing heard says, `n` being how many things were heard. */
  ghost predicate Said(run: string, n: nat, last: Heard, r: Result) {
    match r
    case Failed => (last == Context(true) && n % 4 == 1) || last == Unreadable || (last.Entity? && !Valid(run, Stored(last)))
    case Declined => (last == Context(true) && n % 4 == 3) || (last.Reply? && last.answer == Classified)
    case Unknown =>
      last.Reply? && (last.answer == Transport || (last.answer.Response? && !Passes(last.request, last.answer)))
    case Recorded(_) => last.Reply? && Passes(last.request, last.answer)
    case Conflict => last.Reply? && last.answer == RevisionMismatch
  }

  lemma EndSays(run: string, e: Event, hs: seq<Heard>, r: Result)
    requires Ends(run, e, hs, r)
    ensures 0 < |hs| <= 4 && Said(run, |hs|, hs[|hs| - 1], r) && r != Conflict
  {
    hide Valid, Record, View, Select;
  }

  lemma OvertakenSays(run: string, e: Event, hs: seq<Heard>)
    requires Overtaken(run, e, hs)
    ensures |hs| == 4 && Said(run, 4, hs[3], Conflict)
  {
    hide Fences;
  }

  /** The `k`th attempt of what was heard. */
  function Nth(hs: seq<Heard>, k: nat): seq<Heard>
    requires 4 * k + 4 <= |hs|
  {
    hs[4 * k..4 * k + 4]
  }

  /**
  The last thing heard fixes how the call ends, and it gives up for conflict only after `left` whole attempts. Every
  attempt before the last one read afresh, asked for the facts of that very read, and met a mismatch.
  */
  lemma {:induction false} LastWord(run: string, e: Event, left: nat, hs: seq<Heard>, r: Result)
    requires Owes(run, e, left, hs, r) && left > 0
    ensures 0 < |hs| <= 4 * left && Said(run, |hs|, hs[|hs| - 1], r)
    ensures r == Conflict ==> |hs| == 4 * left
    ensures forall k: nat | 4 * k + 4 < |hs| || (r == Conflict && 4 * k + 4 == |hs|) :: Overtaken(run, e, Nth(hs, k))
  {
    hide Ends, Overtaken, Said, Valid;
    if Ends(run, e, hs, r) {
      EndSays(run, e, hs, r);
    } else {
      var first, rest := hs[..4], hs[4..];
      OvertakenSays(run, e, first);
      assert Nth(hs, 0) == first;
      if left > 1 {
        LastWord(run, e, left - 1, rest, r);
        SaidLater(run, |rest|, rest[|rest| - 1], r);
        assert rest[|rest| - 1] == hs[|hs| - 1];
        forall k: nat | 0 < k && (4 * k + 4 < |hs| || (r == Conflict && 4 * k + 4 == |hs|)) ensures Overtaken(run, e, Nth(hs, k)) {
          assert Nth(hs, k) == Nth(rest, k - 1);
        }
      }
    }
  }

  lemma SaidLater(run: string, n: nat, last: Heard, r: Result)
    ensures Said(run, n, last, r) <==> Said(run, n + 4, last, r)
  {
    hide Valid, Passes;
  }

  /** Nothing went wrong: the context lived, reads were valid, and answers were read and not refusals. */
  ghost predicate Smooth(run: string, hs: seq<Heard>) {
    forall h | h in hs ::
      && h != Context(true) && h != Unreadable
      && (h.Entity? ==> Valid(run, Stored(h)))
      && (h.Reply? ==> h.answer == RevisionMismatch || Passes(h.request, h.answer))
  }

  /** A call to which nothing bad happens records its gate, or meets a mismatch on every attempt. */
  lemma SmoothRecords(run: string, e: Event, left: nat, hs: seq<Heard>, r: Result)
    requires Owes(run, e, left, hs, r) && left > 0 && Smooth(run, hs)
    ensures r.Recorded? || r == Conflict
  {
    hide Valid, Owes;
    LastWord(run, e, left, hs, r);
    assert hs[|hs| - 1] in hs;
  }

  lemma {:induction false} RunsOn(id: string, w: World, acts: seq<Action>, w': World, a: Action)
    requires Runs(id, w, acts, w') && Enabled(w', a)
    ensures Runs(id, w, acts + [a], Step(id, w', a))
    decreases |acts|
  {
    hide Step, Enabled;
    if acts == [] {
      assert ([] + [a])[1..] == [];
    } else {
      RunsOn(id, Step(id, w, acts[0]), acts[1..], w', a);
      assert (acts + [a])[1..] == acts[1..] + [a];
    }
  }

  lemma {:induction false} SelectOnly(ts: seq<Triple>)
    requires forall t | t in ts :: IsApproval(t)
    ensures Select(ts) == ts
  {
    if ts != [] {
      var init := ts[..|ts| - 1];
      forall t | t in init ensures t in ts {}
      SelectOnly(init);
      assert ts == init + [ts[|ts| - 1]];
    }
  }

  /** Recorded tuples are approval tuples, so a store holding exactly them selects all of them. */
  lemma DesiredSelected(id: string, v: set<Triple>, e: Event, desired: seq<Triple>)
    requires ValidSet(id, v) && ValidPair(e.gate) && multiset(desired) == multiset(Record(id, v, e))
    ensures Select(desired) == desired
  {
    hide Record, ValidPair, Select;
    RecordKeepsValid(id, v, e);
    forall t | t in desired ensures IsApproval(t) {
      assert t in multiset(desired);
    }
    SelectOnly(desired);
  }

  class Deployment {
    const run: string
    var revision: nat
    var triples: seq<Triple>
    ghost const first: Store
    ghost var world: World
    ghost var acts: seq<Action>

    /** What this caller has been told so far. */
    ghost var heard: seq<Heard>

    /** The world was reached by an interleaving of protocol steps, and the entity is what it holds. */
    ghost predicate Consistent()
      reads this`revision, this`triples, this`world, this`acts
    {
      && ApprovalFacts.Valid(run, first.receipts)
      && Runs(run, Start(first), acts, world)
      && revision == world.store.revision
      && multiset(Select(triples)) == world.store.receipts
    }

    constructor (run: string)
      ensures Consistent() && world == Start(first) && heard == []
    {
      this.run := run;
      revision, triples := 1, [];
      first := Store(1, multiset{}, multiset{});
      world := Start(Store(1, multiset{}, multiset{}));
      acts, heard := [], [];
    }

    /** One protocol step that does not touch the entity. */
    ghost method Take(a: Action)
      requires Consistent() && Enabled(world, a) && Step(run, world, a).store == world.store
      modifies this`world, this`acts
      ensures Consistent() && world == Step(run, old(world), a) && acts == old(acts) + [a]
    {
      hide Step, Enabled, Start, ApprovalFacts.Valid, Select;
      RunsOn(run, Start(first), acts, world, a);
      world, acts := Step(run, world, a), acts + [a];
    }

    /** Other calls, the owner, the network and lifecycle writers run; call `me` takes no step. */
    method Interference(ghost me: nat)
      requires Consistent() && me in world.calls
      modifies this
      ensures Consistent() && old(acts) <= acts && SameCall(old(world), world, me) && heard == old(heard)
    {
    }

    /** The context may be cancelled or expire at any time. */
    method ContextDone() returns (done: bool)
      modifies this`heard
      ensures heard == old(heard) + [Context(done)]
    {
      done := false;
      heard := heard + [Context(done)];
    }

    /** An exact read may fail; otherwise it returns the entity as it is now, its tuples in any order. */
    method ReadExact() returns (ok: bool, at: nat, ts: seq<Triple>)
      requires Consistent()
      modifies this`heard
      ensures ok ==> at == world.store.revision && multiset(Select(ts)) == world.store.receipts
      ensures heard == old(heard) + [if ok then Entity(at, ts) else Unreadable]
    {
      ok, at, ts := true, revision, triples;
      heard := heard + [Entity(at, ts)];
    }

    /** The owner stores the request that fits the current revision. */
    method ApplyRequest(me: nat, desired: seq<Triple>)
      requires Consistent() && me in world.calls && me in world.wire
      requires world.wire[me] == Request(revision, multiset(desired))
      modifies this
      ensures Consistent() && acts == old(acts) + [Apply(me, old(revision) + 1)]
      ensures world == Step(run, old(world), Apply(me, old(revision) + 1))
      ensures revision == old(revision) + 1 && triples == desired && Select(triples) == triples && heard == old(heard)
    {
      hide Start, ApprovalFacts.Valid, Select, Record, Gates, View, ValidPair, Runs, Inv;
      StartOk(run, first);
      RunKeepsInv(run, first, Start(first), acts, world);
      ghost var before := world;
      FencedIsApproval(run, first, before, me, desired);
      RunsOn(run, Start(first), acts, world, Apply(me, revision + 1));
      world, acts := Step(run, before, Apply(me, revision + 1)), acts + [Apply(me, revision + 1)];
      revision, triples := revision + 1, desired;
    }

    /**
    Sends the fenced request of call `me` and waits. Others run meanwhile; whatever comes back is what the owner
    answered, or nothing readable at all.
    */
    method Ask(me: nat, expected: nat, desired: seq<Triple>) returns (answer: Answer)
      requires Consistent() && me in world.calls
      requires world.calls[me].phase.Fenced? && world.calls[me].phase.request == Request(expected, multiset(desired))
      modifies this
      ensures Consistent() && old(acts) <= acts
      ensures me in world.calls
      ensures world.calls[me] == old(world.calls[me].(phase := Waiting(world.calls[me].phase.request, world.calls[me].phase.already)))
      ensures answer.RevisionMismatch? ==> me in world.replies && world.replies[me] == Mismatch
      ensures answer.Classified? ==> me in world.replies && world.replies[me] == Refusal
      ensures answer.Response? ==>
                me in world.replies && world.replies[me] == Receipt(answer.applied, answer.revision, multiset(Select(answer.triples)))
      ensures heard == old(heard) + [Reply(Request(expected, multiset(desired)), answer)]
    {
      hide Start, ApprovalFacts.Valid, Select, Record, Gates, View, ValidPair, Runs;
      Take(Send(me));
      if expected != revision {
        Take(Reject(me));
        answer := RevisionMismatch;
      } else {
        ApplyRequest(me, desired);
        answer := Response(true, revision, triples);
      }
      heard := heard + [Reply(Request(expected, multiset(desired)), answer)];
    }
  }

  lemma FencedIsApproval(id: string, first: Store, w: World, me: nat, desired: seq<Triple>)
    requires Inv(id, first, w) && me in w.calls && me in w.wire
    requires w.wire[me].expected == w.store.revision && w.wire[me].desired == multiset(desired)
    ensures Select(desired) == desired
  {
    hide Chain, OnceEach, CommitsKnown, Select, Record, Gates, ValidPair, ValidSet;
    assert CallOk(id, w, me);
    DesiredSelected(id, View(w.store.receipts), w.calls[me].event, desired);
  }

  /** What a call has heard since. */
  function Since(heard: seq<Heard>, n: nat): seq<Heard> {
    if n <= |heard| then heard[n..] else []
  }

  /**
  Records one gate event. Each attempt fences the facts computed from its own read by that read's revision; only a
  definite mismatch is retried, at most eight attempts in all; any other end is final. The result is the one that the
  call owes to what it was told.
  */
  method RecordApproval(net: Deployment, me: nat, key: Triple -> string, text: Value -> string, e: Event) returns (r: Result)
    requires net.Consistent() && me !in net.world.calls && Injective(key) && Tells(text)
    modifies net
    ensures net.Consistent() && old(net.acts) <= net.acts && old(net.heard) < net.heard
    ensures var hs := Since(net.heard, |old(net.heard)|);
            if hs[0] == Context(true) || !ValidPair(e.gate) then |hs| == 1 && r == Failed && net.acts == old(net.acts)
            else
              && hs[0] == Context(false) && Owes(net.run, e, 8, hs[1..], r)
              && me in net.world.calls && net.world.calls[me].event == e && net.world.calls[me].phase == Done(r)
    ensures Commits(net.world.log, me) <= 1
    ensures r.Recorded? ==>
              && Commits(net.world.log, me) == 1
              && CommittedAs(net.world.log, me, e, r.already)
              && e.gate in Gates(View(net.world.store.receipts), Pending)
              && (e.answered ==> e.gate in Gates(View(net.world.store.receipts), Answered))
    ensures r.Failed? || r.Declined? || r.Conflict? ==> Commits(net.world.log, me) == 0
    ensures r.Conflict? ==> Overtakings(net.world.log, me) >= 8
    ensures ValidPair(e.gate) && Smooth(net.run, Since(net.heard, |old(net.heard)|)) && Overtakings(net.world.log, me) < 8 ==> r.Recorded?
  {
    hide Injective, Tells, Owes, Smooth, ValidPair, Gates, View, Inv, CommittedAs, Deployment.Consistent, Commits;
    ghost var before := net.heard;
    var done := net.ContextDone();
    if done || !ValidPair(e.gate) {
      StrangerCommitsNothing(net, me);
      if done { BadStart(net.run, net.heard, |before|); }
      return Failed;
    }
    r := Attempts(net, me, key, text, e);
    ghost var hs := Since(net.heard, |before|);
    assert hs[1..] == Since(net.heard, |before| + 1);
    HonestEnd(net, me);
    if Smooth(net.run, hs) {
      assert Smooth(net.run, hs[1..]) by { SmoothRest(net.run, hs); }
      SmoothRecords(net.run, e, 8, hs[1..], r);
    }
  }

  lemma SmoothRest(run: string, hs: seq<Heard>)
    requires Smooth(run, hs) && hs != []
    ensures Smooth(run, hs[1..]) && hs[0] != Context(true)
  {
    hide Valid, Passes;
    assert hs[0] in hs;
  }

  lemma BadStart(run: string, heard: seq<Heard>, n: nat)
    requires n < |heard| && heard[n] == Context(true)
    ensures !Smooth(run, Since(heard, n))
  {
    hide Valid, Passes;
    var hs := Since(heard, n);
    assert hs[0] == heard[n] && hs[0] in hs;
  }

  lemma StrangerCommitsNothing(net: Deployment, me: nat)
    requires net.Consistent() && me !in net.world.calls
    ensures Commits(net.world.log, me) == 0
  {
    hide CallOk, Chain, Start, Runs, ApprovalFacts.Valid;
    StartOk(net.run, net.first);
    RunKeepsInv(net.run, net.first, Start(net.first), net.acts, net.world);
    CommitsAtMostOnce(net.world.log, me);
  }

  /** What holds of a call of this deployment that has ended. */
  lemma HonestEnd(net: Deployment, me: nat)
    requires net.Consistent() && me in net.world.calls && net.world.calls[me].phase.Done?
    ensures var r, e := net.world.calls[me].phase.result, net.world.calls[me].event;
            && Commits(net.world.log, me) <= 1
            && (r.Recorded? ==>
                  && Commits(net.world.log, me) == 1
                  && CommittedAs(net.world.log, me, e, r.already)
                  && e.gate in Gates(View(net.world.store.receipts), Pending)
                  && (e.answered ==> e.gate in Gates(View(net.world.store.receipts), Answered)))
            && (r.Failed? || r.Declined? || r.Conflict? ==> Commits(net.world.log, me) == 0)
            && (r.Conflict? ==> Overtakings(net.world.log, me) >= 8)
  {
    hide Inv, Start, Runs, ApprovalFacts.Valid, Gates, View, Commits, CommittedAs;
    StartOk(net.run, net.first);
    RunKeepsInv(net.run, net.first, Start(net.first), net.acts, net.world);
    ResultIsHonest(net.run, net.first, net.world, me);
    RetriesArePaidFor(net.run, net.first, net.world, me);
  }

  /** What one answer means: retry on a definite mismatch (`None`), otherwise a final result. */
  method Settle(net: Deployment, me: nat, key: Triple -> string, q: Request, facts: Computed, answer: Answer)
    returns (end: Option<Result>)
    requires net.Consistent() && me in net.world.calls && Injective(key)
    requires facts.Facts? && q.desired == multiset(facts.desired)
    requires net.world.calls[me].phase == Waiting(q, facts.already)
    requires answer.RevisionMismatch? ==> me in net.world.replies && net.world.replies[me] == Mismatch
    requires answer.Classified? ==> me in net.world.replies && net.world.replies[me] == Refusal
    requires answer.Response? ==>
               me in net.world.replies && net.world.replies[me] == Receipt(answer.applied, answer.revision, multiset(Select(answer.triples)))
    modifies net`world, net`acts
    ensures net.Consistent() && old(net.acts) <= net.acts
    ensures me in net.world.calls
    ensures end.Some? ==> net.world.calls[me] == old(net.world).calls[me].(phase := Done(end.value))
    ensures end.None? ==> net.world.calls[me] == AfterReply(old(net.world).calls[me], Mismatch)
    ensures end == match answer
                   case RevisionMismatch => None
                   case Classified => Some(Declined)
                   case Transport => Some(Unknown)
                   case Response(_, _, _) => Some(if Passes(q, answer) then Recorded(facts.already) else Unknown)
  {
    hide Start, ApprovalFacts.Valid, Select, Record, Gates, View, ValidPair, Injective, Runs, Deployment.Consistent;
    match answer {
      case RevisionMismatch =>
        net.Take(Deliver(me));
        return None;
      case Classified =>
        net.Take(Deliver(me));
        return Some(Declined);
      case Transport =>
        net.Take(GiveUp(me));
        return Some(Unknown);
      case Response(applied, revision, triples) =>
        var validRevision := (applied && revision > q.expected) || (!applied && revision == q.expected);
        var same := SameApprovalFacts(key, facts.desired, triples);
        net.Take(Deliver(me));
        return Some(if validRevision && same then Recorded(facts.already) else Unknown);
    }
  }

  /** What a read and the facts computed from it have to do with each other. */
  ghost predicate ComputedFrom(run: string, e: Event, h: Heard, at: nat, facts: Computed) {
    && h.Entity? && Valid(run, Stored(h)) && h.revision == at && facts.Facts?
    && multiset(facts.desired) == multiset(Record(run, View(Stored(h)), e))
    && facts.already == exists t :: t in Stored(h) && t.pred == Answered && t.obj == e.gate
  }

  lemma GateAnswered(ms: multiset<Triple>, g: Value)
    ensures g in Gates(View(ms), Answered) <==> exists t :: t in ms && t.pred == Answered && t.obj == g
  {
    if t :| t in ms && t.pred == Answered && t.obj == g { assert t in View(ms); }
  }

  /** The part of an attempt before anything is sent: read, compute, fence, or stop with a result. */
  method Prepare(net: Deployment, me: nat, text: Value -> string, e: Event) returns (end: Option<Result>, at: nat, facts: Computed)
    requires net.Consistent() && me in net.world.calls && net.world.calls[me].phase == Top && net.world.calls[me].event == e
    requires ValidPair(e.gate) && Tells(text)
    modifies net
    ensures net.Consistent() && old(net.acts) <= net.acts && me in net.world.calls
    ensures end.Some? ==> net.world.calls[me] == old(net.world.calls[me]).(phase := Done(end.value))
    ensures end.None? ==> facts.Facts?
    ensures end.None? ==>
              net.world.calls[me] == old(net.world.calls[me]).(phase := Fenced(Request(at, multiset(facts.desired)), facts.already))
    ensures end.Some? ==> old(net.heard) <= net.heard && Ends(net.run, e, Since(net.heard, |old(net.heard)|), end.value)
    ensures end.None? ==>
              exists h :: net.heard == old(net.heard) + [Context(false), h] && ComputedFrom(net.run, e, h, at, facts)
  {
    hide Start, ApprovalFacts.Valid, Select, Record, Gates, View, ValidPair, Runs, Tells, Arranged, Since;
    at, facts := 0, Invalid;
    ghost var before := net.heard;
    net.Interference(me);
    var done := net.ContextDone();
    if done {
      net.Take(Abort(me));
      HeardSince(before, [Context(true)]);
      return Some(Failed), at, facts;
    }
    var ok, rev, ts := net.ReadExact();
    if !ok {
      net.Take(Abort(me));
      HeardSince(before, [Context(false), Unreadable]);
      assert net.heard == before + [Context(false), Unreadable];
      return Some(Failed), at, facts;
    }
    at := rev;
    facts := ApprovalFacts.ApprovalFacts(text, net.run, ts, e);
    net.Take(Read(me));
    end := if facts.Invalid? then Some(Failed) else None;
    ghost var h := Entity(rev, ts);
    HeardSince(before, [Context(false), h]);
    GateAnswered(Stored(h), e.gate);
    assert net.heard == before + [Context(false), h];
    assert facts.Facts? ==> ComputedFrom(net.run, e, h, at, facts);
  }

  lemma HeardSince(before: seq<Heard>, hs: seq<Heard>)
    ensures before <= before + hs && Since(before + hs, |before|) == hs
  {
  }

  /** `n` attempts, each of them overtaken. */
  ghost predicate Tried(run: string, e: Event, n: nat, hs: seq<Heard>) {
    |hs| == 4 * n && (n > 0 ==> Overtaken(run, e, hs[4 * n - 4..]) && Tried(run, e, n - 1, hs[..4 * n - 4]))
  }

  lemma NothingTried(run: string, e: Event)
    ensures Tried(run, e, 0, [])
  {
  }

  lemma TriedMore(run: string, e: Event, n: nat, tried: seq<Heard>, hs: seq<Heard>)
    requires Tried(run, e, n, tried) && Overtaken(run, e, hs)
    ensures Tried(run, e, n + 1, tried + hs)
  {
    hide Overtaken;
    Four(run, e, hs);
    assert (tried + hs)[4 * n..] == hs && (tried + hs)[..4 * n] == tried;
  }

  /** After overtaken attempts, what is owed is what the rest owes. */
  lemma {:induction false} TriedOwes(run: string, e: Event, n: nat, left: nat, tried: seq<Heard>, hs: seq<Heard>, r: Result)
    requires Tried(run, e, n, tried) && Owes(run, e, left, hs, r)
    ensures Owes(run, e, n + left, tried + hs, r)
  {
    hide Overtaken, Owes;
    if n == 0 {
      assert tried + hs == hs;
    } else {
      var init, last := tried[..4 * n - 4], tried[4 * n - 4..];
      OvertakenFirst(run, e, left + 1, last, hs, r);
      TriedOwes(run, e, n - 1, left + 1, init, last + hs, r);
      assert init + (last + hs) == tried + hs;
    }
  }

  /** After overtaken attempts, the end of the last attempt is the end of the call. */
  lemma TriedThen(run: string, e: Event, n: nat, tried: seq<Heard>, before: seq<Heard>, heard: seq<Heard>, r: Result)
    requires n < 8 && Tried(run, e, n, tried) && before + tried <= heard && Ends(run, e, Since(heard, |before + tried|), r)
    ensures before <= heard && Owes(run, e, 8, Since(heard, |before|), r)
  {
    hide Overtaken, Ends, Tried;
    var hs := Since(heard, |before + tried|);
    TriedOwes(run, e, n, 8 - n, tried, hs, r);
    assert heard[..|before|] == (before + tried)[..|before|];
    assert Since(heard, |before|) == tried + hs;
  }

  lemma AllTried(run: string, e: Event, tried: seq<Heard>, before: seq<Heard>)
    requires Tried(run, e, 8, tried)
    ensures Owes(run, e, 8, Since(before + tried, |before|), Conflict)
  {
    hide Overtaken, Ends, Tried;
    TriedOwes(run, e, 8, 0, tried, [], Conflict);
    assert tried + [] == tried;
    HeardSince(before, tried);
  }

  /** A context that ends between the read and the request ends the call. */
  lemma CutShort(run: string, e: Event, h: Heard, at: nat, facts: Computed)
    requires ComputedFrom(run, e, h, at, facts)
    ensures Ends(run, e, [Context(false), h, Context(true)], Declined)
  {
    hide Valid, Record, View, Select;
  }

  /** One whole attempt: overtaken, or the end of the call. */
  lemma AskedAndTold(run: string, e: Event, h: Heard, at: nat, facts: Computed, answer: Answer)
    requires ComputedFrom(run, e, h, at, facts)
    ensures var q := Request(at, multiset(facts.desired));
            var hs := [Context(false), h, Context(false), Reply(q, answer)];
            match answer
            case RevisionMismatch => Overtaken(run, e, hs)
            case Classified => Ends(run, e, hs, Declined)
            case Transport => Ends(run, e, hs, Unknown)
            case Response(_, _, _) => Ends(run, e, hs, if Passes(q, answer) then Recorded(facts.already) else Unknown)
  {
    hide Valid, Record, View, Passes, Select;
  }

  /** One attempt: it ends the call, or meets a mismatch and leaves it to the next one. */
  method Attempt(net: Deployment, me: nat, key: Triple -> string, text: Value -> string, e: Event) returns (end: Option<Result>)
    requires net.Consistent() && me in net.world.calls && net.world.calls[me].phase == Top && net.world.calls[me].event == e
    requires Injective(key) && Tells(text) && ValidPair(e.gate)
    modifies net
    ensures net.Consistent() && old(net.acts) <= net.acts && me in net.world.calls && old(net.heard) <= net.heard
    ensures end.Some? ==>
              && net.world.calls[me] == old(net.world.calls[me]).(phase := Done(end.value))
              && Ends(net.run, e, Since(net.heard, |old(net.heard)|), end.value)
    ensures end.None? ==>
              && Overtaken(net.run, e, Since(net.heard, |old(net.heard)|))
              && net.world.calls[me].event == e && net.world.calls[me].attempt == old(net.world.calls[me].attempt) + 1
              && net.world.calls[me].phase == (if net.world.calls[me].attempt < MAX_ATTEMPTS then Top else Done(Conflict))
  {
    hide Start, ApprovalFacts.Valid, Select, Record, Gates, View, ValidPair, Injective, Tells, Runs, Deployment.Consistent, Since;
    hide Ends, Overtaken, ComputedFrom, Passes;
    ghost var before := net.heard;
    var at, facts;
    end, at, facts := Prepare(net, me, text, e);
    if end.Some? { return; }
    ghost var h :| net.heard == before + [Context(false), h] && ComputedFrom(net.run, e, h, at, facts);
    net.Interference(me);
    var done := net.ContextDone();
    if done {
      net.Take(Abort(me));
      CutShort(net.run, e, h, at, facts);
      HeardSince(before, [Context(false), h, Context(true)]);
      assert net.heard == before + [Context(false), h, Context(true)];
      return Some(Declined);
    }
    var answer := net.Ask(me, at, facts.desired);
    end := Settle(net, me, key, Request(at, multiset(facts.desired)), facts, answer);
    ghost var hs := [Context(false), h, Context(false), Reply(Request(at, multiset(facts.desired)), answer)];
    AskedAndTold(net.run, e, h, at, facts, answer);
    HeardSince(before, hs);
    assert net.heard == before + hs;
  }

  /** At most eight attempts; the result is the one owed to what was told. */
  method Attempts(net: Deployment, me: nat, key: Triple -> string, text: Value -> string, e: Event) returns (r: Result)
    requires net.Consistent() && me !in net.world.calls && Injective(key) && Tells(text) && ValidPair(e.gate)
    modifies net
    ensures net.Consistent() && old(net.acts) <= net.acts
    ensures me in net.world.calls && net.world.calls[me].event == e && net.world.calls[me].phase == Done(r)
    ensures old(net.heard) <= net.heard && Owes(net.run, e, 8, Since(net.heard, |old(net.heard)|), r)
  {
    hide Start, ApprovalFacts.Valid, Select, Record, Gates, View, ValidPair, Injective, Tells, Runs, Deployment.Consistent, Since;
    hide Ends, Overtaken, Owes, Tried;
    ghost var before, tried := net.heard, [];
    net.Take(Begin(me, e));
    NothingTried(net.run, e);
    var attempt := 0;
    while attempt < MAX_ATTEMPTS
      invariant 0 <= attempt <= MAX_ATTEMPTS
      invariant net.Consistent() && old(net.acts) <= net.acts
      invariant me in net.world.calls && net.world.calls[me].event == e && net.world.calls[me].attempt == attempt
      invariant net.world.calls[me].phase == if attempt < MAX_ATTEMPTS then Top else Done(Conflict)
      invariant net.heard == before + tried && Tried(net.run, e, attempt, tried)
    {
      ghost var mark := net.heard;
      var end := Attempt(net, me, key, text, e);
      ghost var hs := Since(net.heard, |mark|);
      SinceIs(mark, net.heard);
      if end.Some? {
        TriedThen(net.run, e, attempt, tried, before, net.heard, end.value);
        return end.value;
      }
      TriedMore(net.run, e, attempt, tried, hs);
      attempt, tried := attempt + 1, tried + hs;
    }
    AllTried(net.run, e, tried, before);
    return Conflict;
  }

  lemma SinceIs(before: seq<Heard>, heard: seq<Heard>)
    requires before <= heard
    ensures heard == before + Since(heard, |before|)
  {
  }
}

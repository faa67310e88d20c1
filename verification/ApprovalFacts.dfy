module ApprovalFacts {
  // The approval projection of one run entity: every observed gate ("pending"), every answered gate
  // ("answered") and the derived outstanding count, kept as graph tuples.
  //
  // A gate is a canonical JSON pair of loop token and execution id, so it is modelled as the pair itself.
  // An int and a float64 of the same whole value are one `Number`: the code compares and encodes them alike. A count that
  // is no whole number is `Opaque`, like everything else that the code refuses. A confidence is
  // the number that its 64 bits spell; FULL is that of 1.0.

  import Ordering
  import opened Text

  datatype Value =
    | Gate(loop: string, execution: string)
    | Text(text: string)
    | Number(number: int)
    | Opaque(id: int)

  datatype Predicate = Pending | Answered | Outstanding | Other(name: string)

  datatype Triple = Triple(subject: string, pred: Predicate, obj: Value,
                           source: string, timestamp: int, confidence: int)

  /** One observed gate event; `now` is its provenance, stable over retries. */
  datatype Event = Event(gate: Value, answered: bool, now: int)

  datatype Computed = Invalid | Facts(desired: seq<Triple>, already: bool)

  const PAUSER_SOURCE := "approvalpause"
  const FULL := 0x3FF0_0000_0000_0000

  predicate IsApproval(t: Triple) {
    !t.pred.Other?
  }

  predicate IsLowerHex(c: char) {
    '0' <= c <= '9' || 'a' <= c <= 'f'
  }

  /** The one spelling that survives parsing and re-printing a UUID. */
  predicate CanonicalToken(s: string) {
    && |s| == 36
    && forall i | 0 <= i < |s| :: if i in {8, 13, 18, 23} then s[i] == '-' else IsLowerHex(s[i])
  }

  predicate HexDigits(s: string, n: nat) {
    |s| == n && forall i | 0 <= i < n :: '0' <= s[i] <= '9' || 'a' <= s[i] <= 'f'
  }

  /** Five groups of lower-case hexadecimal digits joined by hyphens. */
  lemma TokenIsGroups(s: string)
    ensures CanonicalToken(s) <==>
            exists a, b, c, d, e :: HexDigits(a, 8) && HexDigits(b, 4) && HexDigits(c, 4) && HexDigits(d, 4) && HexDigits(e, 12) &&
              s == a + "-" + b + "-" + c + "-" + d + "-" + e
  {
    if CanonicalToken(s) {
      var a, b, c, d, e := s[..8], s[9..13], s[14..18], s[19..23], s[24..];
      assert HexDigits(a, 8) && HexDigits(b, 4) && HexDigits(c, 4) && HexDigits(d, 4) && HexDigits(e, 12);
      assert s == a + "-" + b + "-" + c + "-" + d + "-" + e;
    }
  }

  predicate ValidPair(v: Value) {
    v.Gate? && CanonicalToken(v.loop) && v.execution != ""
  }

  function MakeFact(id: string, pred: Predicate, obj: Value, now: int): Triple {
    Triple(id, pred, obj, PAUSER_SOURCE, now, FULL)
  }

  // ---------------------------------------------------------------------------------------
  // What stored tuples mean
  // ---------------------------------------------------------------------------------------

  /** The tuples of the three approval predicates. */
  function Select(ts: seq<Triple>): seq<Triple> {
    if ts == [] then []
    else
      var rest := Select(ts[..|ts| - 1]);
      var t := ts[|ts| - 1];
      if IsApproval(t) then rest + [t] else rest
  }

  ghost function Of(s: set<Triple>, p: Predicate): set<Triple> {
    set t | t in s && t.pred == p
  }

  ghost function Gates(s: set<Triple>, p: Predicate): set<Value> {
    set t | t in s && t.pred == p :: t.obj
  }

  /** The number of observed gates that have no answer. */
  ghost function Left(s: set<Triple>): int {
    |Gates(s, Pending)| - |Gates(s, Answered)|
  }

  ghost predicate WellKeyed(id: string, s: set<Triple>) {
    && (forall t | t in s :: IsApproval(t) && t.subject == id && (t.pred != Outstanding ==> ValidPair(t.obj)))
    && (forall t, u | t in s && u in s && t.pred == u.pred && (t.obj == u.obj || t.pred == Outstanding) :: t == u)
  }

  /** Answered gates were observed, and the stored count is the derived one; it is absent only without history. */
  ghost predicate Consistent(s: set<Triple>) {
    && Gates(s, Answered) <= Gates(s, Pending)
    && (forall t | t in s && t.pred == Outstanding :: t.obj == Number(Left(s)))
    && (Of(s, Outstanding) == {} ==> Of(s, Pending) == {} && Of(s, Answered) == {})
  }

  ghost predicate ValidSet(id: string, s: set<Triple>) {
    WellKeyed(id, s) && Consistent(s)
  }

  ghost function View(ms: multiset<Triple>): set<Triple> {
    set t | t in ms
  }

  /** What the code demands of the stored approval tuples before it extends them. */
  ghost predicate Valid(id: string, ms: multiset<Triple>) {
    ms == multiset(View(ms)) && ValidSet(id, View(ms))
  }

  lemma ViewOfSet(s: set<Triple>)
    ensures View(multiset(s)) == s
  {
  }

  // ---------------------------------------------------------------------------------------
  // Recording an event
  // ---------------------------------------------------------------------------------------

  ghost function Receipts(s: set<Triple>): set<Triple> {
    Of(s, Pending) + Of(s, Answered)
  }

  ghost function Note(id: string, s: set<Triple>, p: Predicate, e: Event): set<Triple> {
    if e.gate in Gates(s, p) then {} else {MakeFact(id, p, e.gate, e.now)}
  }

  /** The receipts after event `e`: the gate is observed, and answered if the event says so. */
  ghost function Extended(id: string, s: set<Triple>, e: Event): set<Triple> {
    Receipts(s) + Note(id, s, Pending, e) + (if e.answered then Note(id, s, Answered, e) else {})
  }

  /** The count tuple to store with `receipts`: the old one while its value stays, a new one otherwise. */
  ghost function CountFor(id: string, s: set<Triple>, e: Event): set<Triple> {
    var left := Left(Extended(id, s, e));
    if Of(s, Outstanding) != {} && left == Left(s) then Of(s, Outstanding)
    else {MakeFact(id, Outstanding, Number(left), e.now)}
  }

  /** The tuples after event `e`; tuples already stored keep their annotations. */
  ghost function Record(id: string, s: set<Triple>, e: Event): set<Triple> {
    Extended(id, s, e) + CountFor(id, s, e)
  }

  lemma ExtendedGates(id: string, s: set<Triple>, e: Event)
    ensures Gates(Extended(id, s, e), Pending) == Gates(s, Pending) + {e.gate}
    ensures Gates(Extended(id, s, e), Answered) == Gates(s, Answered) + (if e.answered then {e.gate} else {})
    ensures Of(Extended(id, s, e), Outstanding) == {}
    ensures Receipts(Extended(id, s, e)) == Extended(id, s, e) >= Receipts(s)
  {
    var x := Extended(id, s, e);
    forall g ensures g in Gates(x, Pending) <==> g in Gates(s, Pending) || g == e.gate {
      if g in Gates(s, Pending) {
        var t :| t in s && t.pred == Pending && t.obj == g;
        assert t in x;
      } else if g == e.gate {
        assert MakeFact(id, Pending, e.gate, e.now) in x;
      }
    }
    forall g ensures g in Gates(x, Answered) <==> g in Gates(s, Answered) || (e.answered && g == e.gate) {
      if g in Gates(s, Answered) {
        var t :| t in s && t.pred == Answered && t.obj == g;
        assert t in x;
      } else if e.answered && g == e.gate {
        assert MakeFact(id, Answered, e.gate, e.now) in x;
      }
    }
  }

  lemma ExtendedKeyed(id: string, s: set<Triple>, e: Event)
    requires WellKeyed(id, s) && ValidPair(e.gate)
    ensures WellKeyed(id, Extended(id, s, e))
  {
  }

  lemma CountIsOutstanding(id: string, s: set<Triple>, e: Event)
    ensures CountFor(id, s, e) != {}
    ensures forall t | t in CountFor(id, s, e) :: t.pred == Outstanding
  {
    hide Extended, Left;
  }

  /** Adding a count tuple to receipts does not change what the receipts say. */
  lemma CountApart(r: set<Triple>, c: set<Triple>)
    requires forall t | t in c :: t.pred == Outstanding
    ensures Gates(r + c, Pending) == Gates(r, Pending) && Gates(r + c, Answered) == Gates(r, Answered)
    ensures Left(r + c) == Left(r)
    ensures Of(r + c, Outstanding) == Of(r, Outstanding) + c
    ensures Receipts(r + c) == Receipts(r)
  {
    forall p | p == Pending || p == Answered ensures Gates(r + c, p) == Gates(r, p) {
      forall t | t in r && t.pred == p ensures t in r + c {}
    }
  }

  /** What recording does to the gates, and what it keeps: no stored receipt is lost or re-annotated. */
  lemma RecordGates(id: string, s: set<Triple>, e: Event)
    ensures Gates(Record(id, s, e), Pending) == Gates(s, Pending) + {e.gate}
    ensures Gates(Record(id, s, e), Answered) == Gates(s, Answered) + (if e.answered then {e.gate} else {})
    ensures Left(Record(id, s, e)) == Left(Extended(id, s, e))
    ensures Receipts(s) <= Receipts(Record(id, s, e))
    ensures Of(Record(id, s, e), Outstanding) == CountFor(id, s, e) != {}
  {
    hide Extended, Gates, Of, Left, CountFor, Receipts;
    CountIsOutstanding(id, s, e);
    ExtendedGates(id, s, e);
    CountApart(Extended(id, s, e), CountFor(id, s, e));
  }

  /** The number of observed gates without an answer once `e` is recorded. */
  ghost function LeftAfter(s: set<Triple>, e: Event): int {
    var observed := (set t | t in s && t.pred == Pending :: t.obj) + {e.gate};
    var answered := (set t | t in s && t.pred == Answered :: t.obj) + if e.answered then {e.gate} else {};
    |observed| - |answered|
  }

  /**
  The recorded tuples, one by one: stored receipts as they are, a new tuple for a gate not yet observed or answered, with
  the pauser's source, the event's time and full confidence, and the count, the stored tuple if it already says so.
  */
  lemma RecordHolds(id: string, s: set<Triple>, e: Event, t: Triple)
    requires ValidSet(id, s)
    ensures t in Record(id, s, e) <==>
            || (t in s && (t.pred == Pending || t.pred == Answered))
            || (t == Triple(id, Pending, e.gate, "approvalpause", e.now, 0x3FF0_0000_0000_0000) &&
                forall u | u in s && u.pred == Pending :: u.obj != e.gate)
            || (t == Triple(id, Answered, e.gate, "approvalpause", e.now, 0x3FF0_0000_0000_0000) && e.answered &&
                forall u | u in s && u.pred == Answered :: u.obj != e.gate)
            || (if exists u :: u in s && u.pred == Outstanding && u.obj == Number(LeftAfter(s, e)) then t in s && t.pred == Outstanding
                else t == Triple(id, Outstanding, Number(LeftAfter(s, e)), "approvalpause", e.now, 0x3FF0_0000_0000_0000))
  {
    hide Extended, ValidPair, CountFor;
    assert LeftAfter(s, e) == Left(Extended(id, s, e)) by { ExtendedGates(id, s, e); }
    ExtendedHolds(id, s, e, t);
    CountHolds(id, s, e, t);
  }

  lemma ExtendedHolds(id: string, s: set<Triple>, e: Event, t: Triple)
    ensures t in Extended(id, s, e) <==>
            || (t in s && (t.pred == Pending || t.pred == Answered))
            || (t == MakeFact(id, Pending, e.gate, e.now) && forall u | u in s && u.pred == Pending :: u.obj != e.gate)
            || (t == MakeFact(id, Answered, e.gate, e.now) && e.answered && forall u | u in s && u.pred == Answered :: u.obj != e.gate)
  {
  }

  lemma CountHolds(id: string, s: set<Triple>, e: Event, t: Triple)
    requires ValidSet(id, s)
    ensures var left := Left(Extended(id, s, e));
            t in CountFor(id, s, e) <==>
            if exists u :: u in s && u.pred == Outstanding && u.obj == Number(left) then t in s && t.pred == Outstanding
            else t == MakeFact(id, Outstanding, Number(left), e.now)
  {
    hide Extended, Left, ValidPair;
    if u :| u in s && u.pred == Outstanding { assert u in Of(s, Outstanding); }
  }

  lemma CountForFits(id: string, s: set<Triple>, e: Event)
    requires ValidSet(id, s)
    ensures forall t | t in CountFor(id, s, e) ::
              t.subject == id && t.pred == Outstanding && t.obj == Number(Left(Extended(id, s, e)))
    ensures forall t, u | t in CountFor(id, s, e) && u in CountFor(id, s, e) :: t == u
  {
    hide Extended, Gates, Left;
  }

  lemma KeyedUnion(id: string, x: set<Triple>, c: set<Triple>)
    requires WellKeyed(id, x) && Of(x, Outstanding) == {}
    requires forall t | t in c :: t.subject == id && t.pred == Outstanding
    requires forall t, u | t in c && u in c :: t == u
    ensures WellKeyed(id, x + c)
  {
    hide ValidPair;
    forall t | t in x ensures t.pred != Outstanding {
      assert t.pred == Outstanding ==> t in Of(x, Outstanding);
    }
  }

  /** Every state the code writes passes the checks of the next read. */
  lemma RecordKeepsValid(id: string, s: set<Triple>, e: Event)
    requires ValidSet(id, s) && ValidPair(e.gate)
    ensures ValidSet(id, Record(id, s, e))
  {
    hide Extended, Gates, Of, Left, CountFor, Receipts, WellKeyed, ValidPair;
    ExtendedGates(id, s, e);
    ExtendedKeyed(id, s, e);
    RecordGates(id, s, e);
    CountForFits(id, s, e);
    KeyedUnion(id, Extended(id, s, e), CountFor(id, s, e));
    OutstandingOf(Record(id, s, e), CountFor(id, s, e));
  }

  lemma OutstandingOf(s: set<Triple>, c: set<Triple>)
    requires Of(s, Outstanding) == c
    ensures forall t | t in s && t.pred == Outstanding :: t in c
  {
  }

  lemma SameGatesSameLeft(s: set<Triple>, u: set<Triple>)
    requires Gates(s, Pending) == Gates(u, Pending) && Gates(s, Answered) == Gates(u, Answered)
    ensures Left(s) == Left(u)
  {
  }

  lemma Grow(a: set<Value>, g: Value)
    ensures |a + {g}| == |a| + if g in a then 0 else 1
  {
    if g in a {
      assert a + {g} == a;
    }
  }

  /** Two events in either order give the same gates and the same count. */
  lemma EventsCommute(id: string, s: set<Triple>, e: Event, f: Event)
    ensures var ef, fe := Record(id, Record(id, s, e), f), Record(id, Record(id, s, f), e);
            && Gates(ef, Pending) == Gates(fe, Pending)
            && Gates(ef, Answered) == Gates(fe, Answered)
            && Left(ef) == Left(fe)
  {
    hide *;
    RecordGates(id, s, e);
    RecordGates(id, Record(id, s, e), f);
    RecordGates(id, s, f);
    RecordGates(id, Record(id, s, f), e);
    var ef, fe := Record(id, Record(id, s, e), f), Record(id, Record(id, s, f), e);
    assert Gates(ef, Pending) == Gates(fe, Pending);
    assert Gates(ef, Answered) == Gates(fe, Answered);
    SameGatesSameLeft(ef, fe);
  }

  /** A replayed event, or a late pending event for a gate already observed, changes nothing at all. */
  lemma ReplayChangesNothing(id: string, s: set<Triple>, e: Event)
    requires ValidSet(id, s)
    requires e.gate in Gates(s, Pending) && (e.answered ==> e.gate in Gates(s, Answered))
    ensures Record(id, s, e) == s
  {
    var x := Extended(id, s, e);
    assert x == Receipts(s);
    assert s == Receipts(s) + Of(s, Outstanding);
    CountApart(x, Of(s, Outstanding));
  }

  /** Only a gate seen for the first time, unanswered, raises the count; only a first answer to a seen gate lowers it. */
  lemma OutstandingMoves(id: string, s: set<Triple>, e: Event)
    requires ValidSet(id, s)
    ensures Left(Record(id, s, e)) > Left(s) <==> e.gate !in Gates(s, Pending) && !e.answered
    ensures Left(Record(id, s, e)) < Left(s) <==> e.gate in Gates(s, Pending) && e.gate !in Gates(s, Answered) && e.answered
  {
    hide Gates, Record, Of;
    RecordGates(id, s, e);
    var p, a := Gates(s, Pending), Gates(s, Answered);
    Grow(p, e.gate);
    Grow(a, e.gate);
    assert a + {} == a;
  }

  /** A stored outstanding count of zero means that every observed gate is answered, and only then. */
  lemma ZeroMeansAllAnswered(id: string, s: set<Triple>, count: Triple)
    requires ValidSet(id, s) && count in s && count.pred == Outstanding
    ensures count.obj == Number(0) <==> Gates(s, Pending) == Gates(s, Answered)
  {
    hide Gates;
    var p, a := Gates(s, Pending), Gates(s, Answered);
    assert |p| == |p - a| + |a| by {
      assert p == (p - a) + a;
    }
    assert p == a <==> p - a == {};
  }

  // ---------------------------------------------------------------------------------------
  // The imperative computation
  // ---------------------------------------------------------------------------------------

  /** Different values have different texts. */
  ghost predicate Tells(text: Value -> string) {
    forall a, b :: text(a) == text(b) ==> a == b
  }

  function Texts(text: Value -> string, ts: seq<Triple>): seq<string> {
    seq(|ts|, i requires 0 <= i < |ts| => text(ts[i].obj))
  }

  /** Lists the tuples of a map by the text of their keys. */
  method ListTuples(text: Value -> string, m: map<Value, Triple>) returns (out: seq<Triple>)
    requires Tells(text) && forall k | k in m :: m[k].obj == k
    ensures multiset(out) == multiset(set k | k in m :: m[k])
    ensures Ordering.Strict(Texts(text, out))
  {
    hide Ordering.Strict, Ordering.Listing;
    var keyOf := map k | k in m :: text(k) := k;
    var sorted := Ordering.SortedList(keyOf.Keys);
    out := [];
    for i := 0 to |sorted|
      invariant |out| == i && forall j | 0 <= j < i :: sorted[j] in keyOf && out[j] == m[keyOf[sorted[j]]]
    {
      assert sorted[i] in sorted;
      out := out + [m[keyOf[sorted[i]]]];
    }
    assert Texts(text, out) == sorted;
    AllListed(text, m, sorted, out);
  }

  lemma AllListed(text: Value -> string, m: map<Value, Triple>, sorted: seq<string>, out: seq<Triple>)
    requires Tells(text) && (forall k | k in m :: m[k].obj == k) && Texts(text, out) == sorted && Ordering.Strict(sorted)
    requires (forall t | t in out :: t.obj in m && m[t.obj] == t) && forall k | k in m :: text(k) in sorted
    ensures multiset(out) == multiset(set k | k in m :: m[k])
  {
    hide Ordering.Strict;
    forall k | k in m ensures m[k] in out {
      var i :| 0 <= i < |sorted| && sorted[i] == text(k);
      assert text(out[i].obj) == text(k);
      assert out[i] in out;
    }
    OnceEachByText(text, out);
    ListedOnce(out, set k | k in m :: m[k]);
  }

  lemma OnceEachByText(text: Value -> string, ts: seq<Triple>)
    requires Ordering.Strict(Texts(text, ts))
    ensures forall i, j | 0 <= i < j < |ts| :: ts[i] != ts[j]
  {
    hide Ordering.Sorted, Ordering.Distinct;
    OnceEachText(Texts(text, ts));
    forall i, j | 0 <= i < j < |ts| ensures ts[i] != ts[j] {
      assert Texts(text, ts)[i] != Texts(text, ts)[j];
    }
  }

  lemma {:induction false} CountOnce(ts: seq<Triple>, t: Triple)
    requires forall i, j | 0 <= i < j < |ts| :: ts[i] != ts[j]
    ensures multiset(ts)[t] == if t in ts then 1 else 0
  {
    if ts != [] {
      var init, last := ts[..|ts| - 1], ts[|ts| - 1];
      assert ts == init + [last];
      CountOnce(init, t);
    }
  }

  lemma ListedOnce(ts: seq<Triple>, s: set<Triple>)
    requires forall i, j | 0 <= i < j < |ts| :: ts[i] != ts[j]
    requires forall t :: t in ts <==> t in s
    ensures multiset(ts) == multiset(s)
  {
    forall t ensures multiset(ts)[t] == multiset(s)[t] { CountOnce(ts, t); }
  }

  /** The loop state after the tuples `ts`: two gate maps and the count tuple, standing for the selected tuples. */
  ghost predicate Scanned(id: string, ts: seq<Triple>, pending: map<Value, Triple>, answered: map<Value, Triple>,
                          prior: Option<Triple>)
  {
    var s := View(multiset(Select(ts)));
    && multiset(Select(ts)) == multiset(s)
    && WellKeyed(id, s)
    && Mirrors(s, Pending, pending)
    && Mirrors(s, Answered, answered)
    && Of(s, Outstanding) == (if prior.Some? then {prior.value} else {})
  }

  ghost predicate Mirrors(s: set<Triple>, p: Predicate, m: map<Value, Triple>) {
    && (forall k | k in m :: m[k] in s && m[k].obj == k && m[k].pred == p)
    && (forall t | t in s && t.pred == p :: t.obj in m && m[t.obj] == t)
  }

  lemma MirrorsGates(s: set<Triple>, p: Predicate, m: map<Value, Triple>)
    requires Mirrors(s, p, m)
    ensures Gates(s, p) == m.Keys
    ensures forall k | k in m :: m[k].obj == k
    ensures Of(s, p) == set k | k in m :: m[k]
  {
    forall k | k in m ensures k in Gates(s, p) {
      assert m[k] in s && m[k].pred == p;
    }
  }

  lemma SelectSnoc(ts: seq<Triple>, t: Triple)
    ensures Select(ts + [t]) == if IsApproval(t) then Select(ts) + [t] else Select(ts)
    ensures IsApproval(t) ==> multiset(Select(ts + [t])) == multiset(Select(ts)) + multiset{t}
    ensures IsApproval(t) ==> View(multiset(Select(ts + [t]))) == View(multiset(Select(ts))) + {t}
  {
    assert (ts + [t])[..|ts|] == ts;
  }

  /** A selected tuple that breaks the keying makes the whole list invalid. */
  lemma {:induction false} SelectedStays(ts: seq<Triple>, i: nat)
    requires i <= |ts|
    ensures multiset(Select(ts[..i])) <= multiset(Select(ts))
    decreases |ts|
  {
    if i == |ts| {
      assert ts[..i] == ts;
    } else {
      var init := ts[..|ts| - 1];
      assert init[..i] == ts[..i];
      SelectedStays(init, i);
      assert multiset(Select(init)) <= multiset(Select(ts));
    }
  }

  ghost predicate Refused(id: string, ms: multiset<Triple>) {
    !(ms == multiset(View(ms)) && WellKeyed(id, View(ms)))
  }

  lemma RefusedGrows(id: string, small: multiset<Triple>, big: multiset<Triple>)
    requires small <= big && Refused(id, small)
    ensures !Valid(id, big)
  {
    if Valid(id, big) {
      forall t ensures small[t] == multiset(View(small))[t] {
        assert small[t] <= big[t] <= 1;
      }
      assert View(small) <= View(big);
      assert WellKeyed(id, View(small));
    }
  }

  ghost predicate Fits(id: string, t: Triple, m: map<Value, Triple>) {
    ValidPair(t.obj) && t.subject == id && t.obj !in m
  }

  lemma MirrorsInsert(s: set<Triple>, t: Triple, m: map<Value, Triple>, o: Predicate, other: map<Value, Triple>)
    requires Mirrors(s, t.pred, m) && t.obj !in m && o != t.pred && Mirrors(s, o, other)
    ensures Mirrors(s + {t}, t.pred, m[t.obj := t])
    ensures Mirrors(s + {t}, o, other)
    ensures t !in s
  {
  }

  lemma KeyedInsert(id: string, s: set<Triple>, t: Triple, m: map<Value, Triple>)
    requires WellKeyed(id, s) && Mirrors(s, t.pred, m) && Fits(id, t, m)
    requires t.pred == Pending || t.pred == Answered
    ensures WellKeyed(id, s + {t})
    ensures Of(s + {t}, Outstanding) == Of(s, Outstanding)
  {
    hide ValidPair;
  }

  /** A valid new receipt extends the scanned maps. */
  lemma ScanReceipt(id: string, ts: seq<Triple>, t: Triple, m: map<Value, Triple>, other: map<Value, Triple>, prior: Option<Triple>)
    requires t.pred == Pending || t.pred == Answered
    requires Scanned(id, ts, if t.pred == Pending then m else other, if t.pred == Pending then other else m, prior)
    ensures Fits(id, t, m) ==>
              var n := m[t.obj := t];
              Scanned(id, ts + [t], if t.pred == Pending then n else other, if t.pred == Pending then other else n, prior)
    ensures !Fits(id, t, m) ==> Refused(id, multiset(Select(ts + [t])))
  {
    hide Of, WellKeyed, Mirrors, ValidPair, Select;
    SelectSnoc(ts, t);
    var s := View(multiset(Select(ts)));
    var o := if t.pred == Pending then Answered else Pending;
    assert Mirrors(s, t.pred, m);
    if Fits(id, t, m) {
      assert Mirrors(s, o, other);
      MirrorsInsert(s, t, m, o, other);
      KeyedInsert(id, s, t, m);
      assert multiset(s + {t}) == multiset(s) + multiset{t};
    } else {
      MisfitRefused(id, s, t, m, multiset(Select(ts)));
    }
  }

  lemma MisfitRefused(id: string, s: set<Triple>, t: Triple, m: map<Value, Triple>, ms: multiset<Triple>)
    requires ms == multiset(s) && s == View(ms)
    requires t.pred == Pending || t.pred == Answered
    requires Mirrors(s, t.pred, m) && !Fits(id, t, m)
    ensures Refused(id, ms + multiset{t})
  {
    if t.obj in m {
      DuplicateRefused(id, s, m[t.obj], t, ms);
    } else {
      assert t in View(ms + multiset{t});
    }
  }

  /** A second tuple for the same gate, or a second count tuple, is refused. */
  lemma DuplicateRefused(id: string, s: set<Triple>, u: Triple, t: Triple, ms: multiset<Triple>)
    requires ms == multiset(s) && s == View(ms) && u in s
    requires u.pred == t.pred && (u.obj == t.obj || t.pred == Outstanding)
    ensures Refused(id, ms + multiset{t})
  {
    var big := ms + multiset{t};
    if u == t {
      assert big[t] == 2;
    } else {
      assert u in View(big) && t in View(big);
    }
  }

  lemma CountInsert(id: string, s: set<Triple>, t: Triple, pending: map<Value, Triple>, answered: map<Value, Triple>)
    requires WellKeyed(id, s) && Of(s, Outstanding) == {} && t.pred == Outstanding && t.subject == id
    requires Mirrors(s, Pending, pending) && Mirrors(s, Answered, answered)
    ensures t !in s && WellKeyed(id, s + {t}) && Of(s + {t}, Outstanding) == {t}
    ensures Mirrors(s + {t}, Pending, pending) && Mirrors(s + {t}, Answered, answered)
  {
    hide ValidPair;
    forall u | u in s ensures u.pred != Outstanding {
      assert u.pred == Outstanding ==> u in Of(s, Outstanding);
    }
  }

  lemma ScanCount(id: string, ts: seq<Triple>, t: Triple, pending: map<Value, Triple>, answered: map<Value, Triple>, prior: Option<Triple>)
    requires Scanned(id, ts, pending, answered, prior)
    requires t.pred == Outstanding
    ensures prior.None? && t.subject == id ==> Scanned(id, ts + [t], pending, answered, Some(t))
    ensures !(prior.None? && t.subject == id) ==> Refused(id, multiset(Select(ts + [t])))
  {
    hide WellKeyed, Mirrors, ValidPair, Select;
    SelectSnoc(ts, t);
    var s := View(multiset(Select(ts)));
    if prior.None? && t.subject == id {
      CountInsert(id, s, t, pending, answered);
      assert multiset(s + {t}) == multiset(s) + multiset{t};
    } else {
      ExtraCountRefused(id, s, t, prior, multiset(Select(ts)));
    }
  }

  lemma ExtraCountRefused(id: string, s: set<Triple>, t: Triple, prior: Option<Triple>, ms: multiset<Triple>)
    requires ms == multiset(s) && s == View(ms) && t.pred == Outstanding
    requires Of(s, Outstanding) == (if prior.Some? then {prior.value} else {})
    requires prior.Some? || t.subject != id
    ensures Refused(id, ms + multiset{t})
  {
    if prior.Some? {
      assert prior.value in Of(s, Outstanding);
      DuplicateRefused(id, s, prior.value, t, ms);
    } else {
      assert t in View(ms + multiset{t});
    }
  }

  /** The three refusals after the scan are exactly an inconsistent projection. */
  lemma ConsistentScan(s: set<Triple>, p: set<Value>, a: set<Value>, prior: Option<Triple>)
    requires p == Gates(s, Pending) && a == Gates(s, Answered)
    requires Of(s, Outstanding) == (if prior.Some? then {prior.value} else {})
    ensures Consistent(s) <==>
            && a <= p
            && (prior.Some? ==> prior.value.obj == Number(|p| - |a|))
            && (prior.None? ==> |p| == 0 && |a| == 0)
  {
    assert p == {} <==> Of(s, Pending) == {} by { GatesEmpty(s, Pending); }
    assert a == {} <==> Of(s, Answered) == {} by { GatesEmpty(s, Answered); }
    forall t ensures t in s && t.pred == Outstanding <==> prior == Some(t) {
      assert t in Of(s, Outstanding) <==> t in s && t.pred == Outstanding;
    }
  }

  lemma GatesEmpty(s: set<Triple>, p: Predicate)
    ensures Gates(s, p) == {} <==> Of(s, p) == {}
  {
    if t :| t in Of(s, p) {
      assert t.obj in Gates(s, p);
    }
    if g :| g in Gates(s, p) {
      var t :| t in s && t.pred == p && t.obj == g;
      assert t in Of(s, p);
    }
  }

  /** The two maps after the event stand for the extended receipts. */
  lemma MirrorsExtended(id: string, s: set<Triple>, e: Event, pending: map<Value, Triple>, answered: map<Value, Triple>)
    requires Mirrors(s, Pending, pending) && Mirrors(s, Answered, answered)
    ensures Mirrors(Extended(id, s, e), Pending,
                    if e.gate in pending then pending else pending[e.gate := MakeFact(id, Pending, e.gate, e.now)])
    ensures Mirrors(Extended(id, s, e), Answered,
                    if e.gate in answered || !e.answered then answered
                    else answered[e.gate := MakeFact(id, Answered, e.gate, e.now)])
  {
    MirrorsGates(s, Pending, pending);
    MirrorsGates(s, Answered, answered);
  }

  lemma JoinTuples(id: string, s: set<Triple>, e: Event, a: seq<Triple>, b: seq<Triple>, count: Triple)
    requires multiset(a) == multiset(Of(Extended(id, s, e), Pending))
    requires multiset(b) == multiset(Of(Extended(id, s, e), Answered))
    requires CountFor(id, s, e) == {count} && count.pred == Outstanding
    ensures multiset(a + b + [count]) == multiset(Record(id, s, e))
  {
    hide Extended, CountFor;
    var x := Extended(id, s, e);
    var p, q := Of(x, Pending), Of(x, Answered);
    assert x == p + q by { ExtendedGates(id, s, e); }
    assert p !! q && count !in x;
    assert multiset(p + q + {count}) == multiset(p) + multiset(q) + multiset{count};
  }

  /**
  Reads the stored tuples in whatever order they come and computes the tuples to store for event `e`.
  It refuses exactly the entities whose approval tuples are not a valid projection.
  */
  method ApprovalFacts(text: Value -> string, id: string, ts: seq<Triple>, e: Event) returns (r: Computed)
    requires ValidPair(e.gate) && Tells(text)
    ensures r.Facts? <==> Valid(id, multiset(Select(ts)))
    ensures r.Facts? ==> multiset(r.desired) == multiset(Record(id, View(multiset(Select(ts))), e))
    ensures r.Facts? ==> r.already == (e.gate in Gates(View(multiset(Select(ts))), Answered))
    ensures r.Facts? ==> Arranged(text, r.desired)
  {
    hide Tells, Arranged, CountFor, Extended, Gates, Of, Receipts, WellKeyed, ValidPair, Mirrors, Consistent, Select, Record;
    var scan := ScanTuples(id, ts);
    if scan.None? {
      return Invalid;
    }
    var (pending, answered, prior) := scan.value;
    ghost var s := View(multiset(Select(ts)));
    MirrorsGates(s, Pending, pending);
    MirrorsGates(s, Answered, answered);
    ConsistentScan(s, pending.Keys, answered.Keys, prior);
    if !(answered.Keys <= pending.Keys) {
      return Invalid;
    }
    var previous := |pending.Keys| - |answered.Keys|;
    if prior.Some? && prior.value.obj != Number(previous) {
      return Invalid;
    }
    if prior.None? && (|pending.Keys| > 0 || |answered.Keys| > 0) {
      return Invalid;
    }
    var already := e.gate in answered;
    MirrorsExtended(id, s, e, pending, answered);
    if e.gate !in pending {
      pending := pending[e.gate := MakeFact(id, Pending, e.gate, e.now)];
    }
    if e.answered && !already {
      answered := answered[e.gate := MakeFact(id, Answered, e.gate, e.now)];
    }
    ghost var x := Extended(id, s, e);
    MirrorsGates(x, Pending, pending);
    MirrorsGates(x, Answered, answered);
    var left := |pending.Keys| - |answered.Keys|;
    var count := if prior.Some? && previous == left then prior.value
                 else MakeFact(id, Outstanding, Number(left), e.now);
    CountChosen(id, s, e, previous, left, prior);
    var desired := Arrange(text, id, s, e, pending, answered, count);
    return Facts(desired, already);
  }

  lemma CountChosen(id: string, s: set<Triple>, e: Event, previous: int, left: int, prior: Option<Triple>)
    requires Of(s, Outstanding) == (if prior.Some? then {prior.value} else {})
    requires Left(s) == previous && Left(Extended(id, s, e)) == left
    ensures CountFor(id, s, e) ==
            {if prior.Some? && previous == left then prior.value else MakeFact(id, Outstanding, Number(left), e.now)}
  {
    hide Of, Extended, Left;
  }

  /** Lists both maps in order and adds the count. */
  method Arrange(text: Value -> string, id: string, ghost s: set<Triple>, e: Event, pending: map<Value, Triple>,
                 answered: map<Value, Triple>, count: Triple) returns (desired: seq<Triple>)
    requires Tells(text) && CountFor(id, s, e) == {count}
    requires Mirrors(Extended(id, s, e), Pending, pending) && Mirrors(Extended(id, s, e), Answered, answered)
    ensures multiset(desired) == multiset(Record(id, s, e)) && Arranged(text, desired)
  {
    hide Tells, Texts, Ordering.Strict, Extended, Of, Mirrors, Record, CountFor;
    ghost var x := Extended(id, s, e);
    MirrorsGates(x, Pending, pending);
    MirrorsGates(x, Answered, answered);
    CountIsOutstanding(id, s, e);
    var a := ListTuples(text, pending);
    var b := ListTuples(text, answered);
    JoinTuples(id, s, e, a, b, count);
    AllOf(x, Pending, pending, a);
    AllOf(x, Answered, answered, b);
    desired := a + b + [count];
    assert PartsOf(text, desired, a, b, count);
  }

  /** A list of all tuples of a gate map has one predicate. */
  lemma AllOf(s: set<Triple>, p: Predicate, m: map<Value, Triple>, ts: seq<Triple>)
    requires Mirrors(s, p, m) && multiset(ts) == multiset(set k | k in m :: m[k])
    ensures forall t | t in ts :: t.pred == p
  {
    forall t | t in ts ensures t.pred == p {
      assert t in multiset(ts);
    }
  }

  /** Pending tuples, then answered ones, each by the text of their gates, then the count. */
  ghost predicate PartsOf(text: Value -> string, desired: seq<Triple>, a: seq<Triple>, b: seq<Triple>, count: Triple) {
    && desired == a + b + [count] && count.pred == Outstanding
    && (forall t | t in a :: t.pred == Pending) && (forall t | t in b :: t.pred == Answered)
    && Ordering.Strict(Texts(text, a)) && Ordering.Strict(Texts(text, b))
  }

  ghost predicate Arranged(text: Value -> string, desired: seq<Triple>) {
    exists a, b, count :: PartsOf(text, desired, a, b, count)
  }

  lemma TextListed(text: Value -> string, ts: seq<Triple>, us: seq<Triple>, x: string)
    requires forall t | t in ts :: t in us
    ensures x in Texts(text, ts) ==> x in Texts(text, us)
  {
    if x in Texts(text, ts) {
      var i :| 0 <= i < |ts| && text(ts[i].obj) == x;
      assert ts[i] in us;
      var j :| 0 <= j < |us| && us[j] == ts[i];
      assert Texts(text, us)[j] == x;
    }
  }

  lemma SameInOrder(text: Value -> string, a: seq<Triple>, b: seq<Triple>)
    requires Ordering.Strict(Texts(text, a)) && Ordering.Strict(Texts(text, b)) && forall t :: t in a <==> t in b
    ensures a == b
  {
    hide Ordering.Strict;
    forall x ensures x in Texts(text, a) <==> x in Texts(text, b) {
      TextListed(text, a, b, x);
      TextListed(text, b, a, x);
    }
    Ordering.StrictUnique(Texts(text, a), Texts(text, b));
    OnceEachText(Texts(text, b));
    assert |a| == |Texts(text, a)| == |b|;
    forall i | 0 <= i < |a| ensures a[i] == b[i] {
      assert a[i] in b;
      var j :| 0 <= j < |b| && b[j] == a[i];
      assert Texts(text, b)[j] == Texts(text, a)[i] == Texts(text, b)[i];
      assert i == j;
    }
  }

  lemma OnceEachText(xs: seq<string>)
    requires Ordering.Strict(xs)
    ensures forall i, j | 0 <= i < j < |xs| :: xs[i] != xs[j]
  {
    hide Ordering.Sorted, Ordering.Distinct;
    Ordering.PairwiseDistinct(xs);
  }

  lemma PartIs(text: Value -> string, desired: seq<Triple>, a: seq<Triple>, b: seq<Triple>, count: Triple, t: Triple)
    requires PartsOf(text, desired, a, b, count)
    ensures t in a <==> t in desired && t.pred == Pending
    ensures t in b <==> t in desired && t.pred == Answered
    ensures t == count <==> t in desired && t.pred == Outstanding
  {
    hide Ordering.Strict, Texts;
  }

  /** The tuples determine the list: the request that a read leads to is one and the same, in whatever order it was read. */
  lemma DesiredDetermined(text: Value -> string, x: seq<Triple>, y: seq<Triple>)
    requires Arranged(text, x) && Arranged(text, y) && multiset(x) == multiset(y)
    ensures x == y
  {
    hide PartsOf, Ordering.Strict, Texts;
    var a, b, c :| PartsOf(text, x, a, b, c);
    var a', b', c' :| PartsOf(text, y, a', b', c');
    forall t ensures t in x <==> t in y { assert t in multiset(x) <==> t in multiset(y); }
    forall t ensures (t in a <==> t in a') && (t in b <==> t in b') && (t == c <==> t == c') {
      PartIs(text, x, a, b, c, t);
      PartIs(text, y, a', b', c', t);
    }
    PartIs(text, x, a, b, c, c);
    assert c == c';
    InParts(text, x, a, b, c);
    InParts(text, y, a', b', c');
    SameInOrder(text, a, a');
    SameInOrder(text, b, b');
  }

  lemma InParts(text: Value -> string, desired: seq<Triple>, a: seq<Triple>, b: seq<Triple>, count: Triple)
    requires PartsOf(text, desired, a, b, count)
    ensures desired == a + b + [count] && Ordering.Strict(Texts(text, a)) && Ordering.Strict(Texts(text, b))
  {
    hide Ordering.Strict, Texts;
  }

  /** Sorts the tuples into two gate maps and the count, or refuses at the first tuple that does not fit. */
  method ScanTuples(id: string, ts: seq<Triple>) returns (r: Option<(map<Value, Triple>, map<Value, Triple>, Option<Triple>)>)
    ensures r.Some? ==> Scanned(id, ts, r.value.0, r.value.1, r.value.2)
    ensures r.None? ==> !Valid(id, multiset(Select(ts)))
  {
    hide Scanned, Valid, Refused, Select;
    var pending: map<Value, Triple>, answered: map<Value, Triple>, prior: Option<Triple> := map[], map[], None;
    assert ts[..0] == [];
    NothingScanned(id);
    for i := 0 to |ts|
      invariant Scanned(id, ts[..i], pending, answered, prior)
    {
      assert ts[..i + 1] == ts[..i] + [ts[i]];
      var ok;
      ok, pending, answered, prior := ScanTuple(id, ts[..i], ts[i], pending, answered, prior);
      if !ok {
        SelectedStays(ts, i + 1);
        RefusedGrows(id, multiset(Select(ts[..i + 1])), multiset(Select(ts)));
        return None;
      }
    }
    assert ts[..|ts|] == ts;
    return Some((pending, answered, prior));
  }

  lemma NothingScanned(id: string)
    ensures Scanned(id, [], map[], map[], None)
  {
  }

  /** One tuple: a receipt joins its map, a count is remembered, and what does not fit is refused. */
  method ScanTuple(id: string, ghost ts: seq<Triple>, t: Triple, pending: map<Value, Triple>, answered: map<Value, Triple>, prior: Option<Triple>)
    returns (ok: bool, pending': map<Value, Triple>, answered': map<Value, Triple>, prior': Option<Triple>)
    requires Scanned(id, ts, pending, answered, prior)
    ensures ok ==> Scanned(id, ts + [t], pending', answered', prior')
    ensures !ok ==> Refused(id, multiset(Select(ts + [t])))
  {
    hide Scanned, Refused, ValidPair, Select;
    pending', answered', prior' := pending, answered, prior;
    if t.pred == Outstanding {
      ScanCount(id, ts, t, pending, answered, prior);
      ok := prior.None? && t.subject == id;
      prior' := Some(t);
    } else if t.pred == Pending {
      ScanReceipt(id, ts, t, pending, answered, prior);
      ok := t.subject == id && ValidPair(t.obj) && t.obj !in pending;
      pending' := pending[t.obj := t];
    } else if t.pred == Answered {
      ScanReceipt(id, ts, t, answered, pending, prior);
      ok := t.subject == id && ValidPair(t.obj) && t.obj !in answered;
      answered' := answered[t.obj := t];
    } else {
      ok := true;
      OtherScanned(id, ts, t, pending, answered, prior);
    }
  }

  lemma OtherScanned(id: string, ts: seq<Triple>, t: Triple, pending: map<Value, Triple>, answered: map<Value, Triple>, prior: Option<Triple>)
    requires Scanned(id, ts, pending, answered, prior) && t.pred.Other?
    ensures Scanned(id, ts + [t], pending, answered, prior)
  {
    hide WellKeyed, Mirrors, Of, View;
    SelectSnoc(ts, t);
  }

  // ---------------------------------------------------------------------------------------
  // The receipt check
  // ---------------------------------------------------------------------------------------

  /** Encoding a tuple, which is JSON in the code, loses nothing. */
  ghost predicate Injective(key: Triple -> string) {
    forall t, u :: key(t) == key(u) ==> t == u
  }

  function Keys(key: Triple -> string, ts: seq<Triple>): seq<string> {
    if ts == [] then [] else Keys(key, ts[..|ts| - 1]) + [key(ts[|ts| - 1])]
  }

  lemma {:induction false} KeysCount(key: Triple -> string, ts: seq<Triple>, t: Triple)
    requires Injective(key)
    ensures multiset(Keys(key, ts))[key(t)] == multiset(ts)[t]
  {
    hide Injective;
    if ts != [] {
      var init, last := ts[..|ts| - 1], ts[|ts| - 1];
      KeysCount(key, init, t);
      Snoc(init, last, t, ts);
      Snoc(Keys(key, init), key(last), key(t), Keys(key, ts));
      assert key(last) == key(t) <==> last == t by { ToldApart(key, last, t); }
    }
  }

  lemma Snoc<T>(init: seq<T>, last: T, x: T, all: seq<T>)
    requires all == init + [last]
    ensures multiset(all)[x] == multiset(init)[x] + if last == x then 1 else 0
  {
  }

  lemma ToldApart(key: Triple -> string, t: Triple, u: Triple)
    requires Injective(key)
    ensures key(t) == key(u) <==> t == u
  {
  }

  lemma {:induction false} KeysRange(key: Triple -> string, ts: seq<Triple>, k: string)
    requires k in Keys(key, ts)
    ensures exists t :: t in ts && key(t) == k
  {
    var init, last := ts[..|ts| - 1], ts[|ts| - 1];
    assert last in ts;
    if k != key(last) {
      assert k in Keys(key, init);
      KeysRange(key, init, k);
      var t :| t in init && key(t) == k;
      assert t in ts;
    }
  }

  lemma KeysLeft(key: Triple -> string, a: seq<Triple>, b: seq<Triple>)
    requires Injective(key) && multiset(a) == multiset(b)
    ensures multiset(Keys(key, a)) <= multiset(Keys(key, b))
  {
    hide Injective;
    forall k ensures multiset(Keys(key, a))[k] <= multiset(Keys(key, b))[k] {
      if k in Keys(key, a) {
        KeysRange(key, a, k);
        var t :| t in a && key(t) == k;
        KeysCount(key, a, t);
        KeysCount(key, b, t);
      } else {
        assert k !in multiset(Keys(key, a));
      }
    }
  }

  /** Comparing the encodings as multisets compares the tuples as multisets. */
  lemma KeysFaithful(key: Triple -> string, a: seq<Triple>, b: seq<Triple>)
    requires Injective(key)
    ensures multiset(Keys(key, a)) == multiset(Keys(key, b)) <==> multiset(a) == multiset(b)
  {
    hide Injective, Keys;
    if multiset(Keys(key, a)) == multiset(Keys(key, b)) {
      forall t ensures multiset(a)[t] == multiset(b)[t] {
        KeysCount(key, a, t);
        KeysCount(key, b, t);
      }
      assert multiset(a) == multiset(b);
    } else if multiset(a) == multiset(b) {
      KeysLeft(key, a, b);
      KeysLeft(key, b, a);
    }
  }

  /**
  Sorts the encodings of both lists and compares them position by position. With a lossless encoding this is
  exactly equality of the approval tuples as multisets: a receipt with one tuple more, less or re-annotated fails.
  */
  method SameApprovalFacts(key: Triple -> string, desired: seq<Triple>, actual: seq<Triple>) returns (same: bool)
    requires Injective(key)
    ensures same <==> multiset(desired) == multiset(Select(actual))
  {
    hide *;
    var selected := SelectLoop(actual);
    var a, b := Ordering.Sort(Keys(key, desired)), Ordering.Sort(Keys(key, selected));
    Ordering.SortSorts(Keys(key, desired));
    Ordering.SortSorts(Keys(key, selected));
    KeysFaithful(key, desired, selected);
    if multiset(a) == multiset(b) {
      Ordering.SortedUnique(a, b);
    }
    same := SameLists(a, b);
  }

  method SameLists(a: seq<string>, b: seq<string>) returns (same: bool)
    ensures same <==> a == b
  {
    if |a| != |b| {
      return false;
    }
    var i := 0;
    while i < |a|
      invariant 0 <= i <= |a|
      invariant a[..i] == b[..i]
    {
      if a[i] != b[i] {
        return false;
      }
      i := i + 1;
    }
    assert a == a[..i] && b == b[..i];
    return true;
  }

  method SelectLoop(ts: seq<Triple>) returns (out: seq<Triple>)
    ensures out == Select(ts)
  {
    out := [];
    var i := 0;
    while i < |ts|
      invariant 0 <= i <= |ts|
      invariant out == Select(ts[..i])
    {
      assert ts[..i + 1][..i] == ts[..i];
      if IsApproval(ts[i]) {
        out := out + [ts[i]];
      }
      i := i + 1;
    }
    assert ts[..i] == ts;
  }
}

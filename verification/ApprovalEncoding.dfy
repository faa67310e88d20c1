/** One encoding of approval tuples and one text of gate values: what the projection asks of its callers can be met. */
module ApprovalEncoding {
  import opened Numerals
  import opened ApprovalFacts
  import opened ShellQuoting

  /** A tag for the kind of value, then its parts. */
  function ValueParts(v: Value): seq<string> {
    match v
    case Gate(loop, execution) => ["gate", loop, execution]
    case Text(text) => ["text", text]
    case Number(number) => ["number", Decimal(number)]
    case Opaque(id) => ["opaque", Decimal(id)]
  }

  function PredicateParts(p: Predicate): seq<string> {
    match p
    case Pending => ["pending"]
    case Answered => ["answered"]
    case Outstanding => ["outstanding"]
    case Other(name) => ["other", name]
  }

  function TextOf(v: Value): string {
    CommandLine(ValueParts(v))
  }

  function KeyOf(t: Triple): string {
    CommandLine([t.subject, CommandLine(PredicateParts(t.pred)), TextOf(t.obj), t.source, Decimal(t.timestamp), Decimal(t.confidence)])
  }

  lemma Tags()
    ensures "gate" != "text" && "gate" != "number" && "gate" != "opaque"
    ensures "text" != "number" && "text" != "opaque" && "number" != "opaque"
    ensures "pending" != "answered" && "pending" != "outstanding" && "answered" != "outstanding"
  {
    assert "gate"[0] == 'g' && "text"[0] == 't' && "number"[0] == 'n' && "opaque"[0] == 'o';
    assert |"pending"| == 7 && |"answered"| == 8 && |"outstanding"| == 11;
  }

  lemma ValuePartsInjective(v: Value, w: Value)
    requires ValueParts(v) == ValueParts(w)
    ensures v == w
  {
    hide Decimal;
    Tags();
    var a, b := ValueParts(v), ValueParts(w);
    assert a[0] == b[0] && a[1] == b[1];
    match v
    case Gate(_, _) => assert a[2] == b[2];
    case Text(_) =>
    case Number(n) => if w.Number? { DecimalInjective(n, w.number); }
    case Opaque(n) => if w.Opaque? { DecimalInjective(n, w.id); }
  }

  lemma PredicatePartsInjective(p: Predicate, q: Predicate)
    requires PredicateParts(p) == PredicateParts(q)
    ensures p == q
  {
    Tags();
    var a, b := PredicateParts(p), PredicateParts(q);
    assert |a| == |b| && a[0] == b[0];
    if p.Other? { assert a[1] == b[1]; }
  }

  lemma TextInjective(v: Value, w: Value)
    requires TextOf(v) == TextOf(w)
    ensures v == w
  {
    hide CommandLine, ValueParts;
    JoinInjective(ValueParts(v), ValueParts(w));
    ValuePartsInjective(v, w);
  }

  lemma KeyInjective(t: Triple, u: Triple)
    requires KeyOf(t) == KeyOf(u)
    ensures t == u
  {
    hide CommandLine, TextOf, PredicateParts, Decimal;
    var a := [t.subject, CommandLine(PredicateParts(t.pred)), TextOf(t.obj), t.source, Decimal(t.timestamp), Decimal(t.confidence)];
    var b := [u.subject, CommandLine(PredicateParts(u.pred)), TextOf(u.obj), u.source, Decimal(u.timestamp), Decimal(u.confidence)];
    JoinInjective(a, b);
    assert a[0] == b[0] && a[1] == b[1] && a[2] == b[2] && a[3] == b[3] && a[4] == b[4] && a[5] == b[5];
    JoinInjective(PredicateParts(t.pred), PredicateParts(u.pred));
    PredicatePartsInjective(t.pred, u.pred);
    TextInjective(t.obj, u.obj);
    DecimalInjective(t.timestamp, u.timestamp);
    DecimalInjective(t.confidence, u.confidence);
  }

  /** Encodings that tell all tuples and all values apart exist. */
  lemma EncodingsExist()
    ensures Injective(KeyOf) && Tells(TextOf)
  {
    hide KeyOf, TextOf;
    forall t, u | KeyOf(t) == KeyOf(u) ensures t == u { KeyInjective(t, u); }
    forall v, w | TextOf(v) == TextOf(w) ensures v == w { TextInjective(v, w); }
  }
}

/**
The "### Requirement:" block that specs and deltas have in common: its printer, its parser, and their round trip.
*/
module RequirementBlock {
  import opened Text
  import opened OpenSpec
  import opened Markdown

  // ---------------------------------------------------------------------------------------
  // Printing
  // ---------------------------------------------------------------------------------------

  function StepEntry(s: Step): seq<string> {
    [StepLine(s)]
  }

  function StepLines(steps: seq<Step>): seq<string> {
    Flat(StepEntry, steps)
  }

  function ScenarioLines(sc: Scenario): seq<string> {
    ["", SCENARIO + " " + sc.name] + StepLines(sc.steps)
  }

  function ScenariosLines(scs: seq<Scenario>): seq<string> {
    Flat(ScenarioLines, scs)
  }

  function HeadLines(name: string): seq<string> {
    ["", REQUIREMENT + " " + name]
  }

  // ---------------------------------------------------------------------------------------
  // What a requirement must be to survive
  // ---------------------------------------------------------------------------------------

  ghost predicate ScenarioOk(sc: Scenario) {
    Field(sc.name) && forall s | s in sc.steps :: StepOk(s)
  }

  ghost predicate RequirementOk(r: Requirement, taken: string -> bool) {
    && Field(r.name)
    && Prose(r.statement, taken)
    && forall sc | sc in r.scenarios :: ScenarioOk(sc)
  }

  // ---------------------------------------------------------------------------------------
  // Parsing
  // ---------------------------------------------------------------------------------------

  /** A requirement under construction: finished scenarios, statement lines so far, and the open scenario if any. */
  datatype Open = Open(name: string, scenarios: seq<Scenario>, statement: seq<string>, scenario: Option<Scenario>)

  function Fresh(name: string): Open {
    Open(name, [], [], None)
  }

  function CloseScenario(o: Open): Open {
    if o.scenario.Some? then o.(scenarios := o.scenarios + [o.scenario.value], scenario := None) else o
  }

  function Close(o: Open): Requirement {
    Requirement(o.name, Collected(o.statement), CloseScenario(o).scenarios)
  }

  function OpenScenario(o: Open, name: string): Open {
    CloseScenario(o).(scenario := Some(Scenario(name, [])))
  }

  /** A text line is a step of the open scenario, or statement text before the first scenario, or dropped. */
  function TakeText(o: Open, t: string): Open {
    var body := BulletBody(t);
    match o.scenario
    case Some(sc) =>
      if body.Some? then o.(scenario := Some(sc.(steps := sc.steps + [ParseStep(body.value)]))) else o
    case None => o.(statement := o.statement + [t])
  }

  function OpenStep(o: Open, raw: string): Open {
    match Classify(raw)
    case ScenarioHead(n) => OpenScenario(o, n)
    case Other(t) => TakeText(o, t)
    case _ => o
  }

  /** A line inside a requirement block. */
  predicate Inner(raw: string) {
    var k := Classify(raw);
    k.ScenarioHead? || k.Blank? || k.Other?
  }

  ghost predicate AllInner(ls: seq<string>) {
    forall l | l in ls :: Inner(l)
  }

  ghost predicate OpenOk(o: Open, taken: string -> bool) {
    && Field(o.name)
    && AllPlain(o.statement, taken)
    && (forall sc | sc in o.scenarios :: ScenarioOk(sc))
    && (o.scenario.Some? ==> ScenarioOk(o.scenario.value))
  }

  lemma CloseOk(o: Open, taken: string -> bool)
    requires OpenOk(o, taken)
    ensures RequirementOk(Close(o), taken)
  {
    hide ScenarioOk, Field, Plain, Collected, Prose;
    CollectedBlock(o.statement, taken);
  }

  lemma TakeTextOk(o: Open, t: string, taken: string -> bool)
    requires OpenOk(o, taken) && Plain(t, taken)
    ensures OpenOk(TakeText(o, t), taken)
  {
    hide Trimmed, OneLine, StepOk, ParseStep, BulletBody;
    var body := BulletBody(t);
    if o.scenario.Some? && body.Some? {
      BulletYields(t);
      ParseStepOk(body.value);
      var sc := o.scenario.value;
      forall s | s in sc.steps + [ParseStep(body.value)] ensures StepOk(s) {
        assert s in sc.steps || s == ParseStep(body.value);
      }
    }
  }

  lemma OpenScenarioOk(o: Open, n: string, taken: string -> bool)
    requires OpenOk(o, taken) && Field(n)
    ensures OpenOk(OpenScenario(o, n), taken)
  {
    hide Field, StepOk, Plain;
  }

  lemma CloseIff(o: Open, tidy: string -> bool, taken: string -> bool)
    requires OpenOk(o, tidy)
    ensures RequirementOk(Close(o), taken) <==> OpenOk(o, taken)
  {
    hide ScenarioOk, Field, AllPlain, Collected, Prose;
    CollectedIff(o.statement, tidy, taken);
  }

  lemma OpenScenarioIff(o: Open, n: string, taken: string -> bool)
    requires Field(n) && (o.scenario.Some? ==> ScenarioOk(o.scenario.value))
    ensures OpenOk(OpenScenario(o, n), taken) <==> OpenOk(o, taken)
  {
    hide Field, StepOk, AllPlain;
  }

  /** A text line is kept as prose only before the first scenario. */
  lemma TakeTextIff(o: Open, t: string, tidy: string -> bool, taken: string -> bool)
    requires OpenOk(o, tidy) && t != "" && Field(t)
    ensures OpenOk(TakeText(o, t), taken) <==> OpenOk(o, taken) && (o.scenario.None? ==> !taken(t))
  {
    hide Field, ScenarioOk, BulletBody, ParseStep;
    if o.scenario.Some? {
      ScenarioTakes(o, t);
    } else {
      assert forall l | l in o.statement :: l in o.statement + [t];
      assert t in o.statement + [t];
    }
  }

  lemma ScenarioTakes(o: Open, t: string)
    requires o.scenario.Some? && ScenarioOk(o.scenario.value) && t != "" && Field(t)
    ensures TakeText(o, t).scenario.Some? && ScenarioOk(TakeText(o, t).scenario.value)
    ensures TakeText(o, t) == o.(scenario := TakeText(o, t).scenario)
  {
    hide Field, StepOk, ParseStep, BulletBody;
    var body := BulletBody(t);
    if body.Some? {
      BulletYields(t);
      ParseStepOk(body.value);
    }
  }

  // ---------------------------------------------------------------------------------------
  // Printed blocks parse back
  // ---------------------------------------------------------------------------------------

  lemma {:induction false} StatementReads(o: Open, ls: seq<string>, taken: string -> bool)
    requires o.scenario.None? && AllPlain(ls, taken)
    requires forall l | l in ls :: !IsHeading(l)
    ensures Fold(OpenStep, o, ls) == o.(statement := o.statement + ls)
    ensures AllInner(ls)
    decreases |ls|
  {
    hide Field, IsHeading, Classify, BulletBody;
    if ls == [] {
      assert o.statement + ls == o.statement;
    } else {
      assert ls[0] in ls;
      ReadPlain(ls[0]);
      var o' := OpenStep(o, ls[0]);
      assert o' == o.(statement := o.statement + [ls[0]]);
      StatementReads(o', ls[1..], taken);
      assert o.statement + [ls[0]] + ls[1..] == o.statement + ls;
      forall l | l in ls ensures Inner(l) {
        assert l == ls[0] || l in ls[1..];
      }
    }
  }

  lemma {:induction false} StepsRead(o: Open, steps: seq<Step>)
    requires o.scenario.Some? && forall s | s in steps :: StepOk(s)
    ensures Fold(OpenStep, o, StepLines(steps)) ==
            o.(scenario := Some(o.scenario.value.(steps := o.scenario.value.steps + steps)))
    ensures AllInner(StepLines(steps))
    decreases |steps|
  {
    hide Field, StepOk, ParseStep, StepBody, BulletBody, Classify;
    var sc := o.scenario.value;
    if steps == [] {
      assert sc.steps + steps == sc.steps;
    } else {
      var s, ls := steps[0], StepLines(steps);
      assert s in steps;
      StepRoundTrip(s);
      ReadBullet(StepBody(s));
      var o' := OpenStep(o, ls[0]);
      assert o' == o.(scenario := Some(sc.(steps := sc.steps + [s])));
      StepsRead(o', steps[1..]);
      assert ls[1..] == StepLines(steps[1..]);
      assert sc.steps + [s] + steps[1..] == sc.steps + steps;
      forall l | l in ls ensures Inner(l) {
        assert l == ls[0] || l in ls[1..];
      }
    }
  }

  lemma ScenarioReads(o: Open, sc: Scenario)
    requires ScenarioOk(sc)
    ensures Fold(OpenStep, o, ScenarioLines(sc)) == CloseScenario(o).(scenario := Some(sc))
    ensures AllInner(ScenarioLines(sc))
  {
    hide Field, StepOk, Classify, CloseScenario, StepLines;
    var head := SCENARIO + " " + sc.name;
    ReadBlank();
    ReadScenario(sc.name);
    var ls := ScenarioLines(sc);
    assert ls == ["", head] + StepLines(sc.steps);
    FoldAppend(OpenStep, o, ["", head], StepLines(sc.steps));
    var o' := OpenScenario(o, sc.name);
    assert Fold(OpenStep, o, ["", head]) == o' by {
      assert ["", head] == [""] + [head];
      FoldAppend(OpenStep, o, [""], [head]);
      FoldOne(OpenStep, o, "");
      FoldOne(OpenStep, o, head);
    }
    StepsRead(o', sc.steps);
    assert [] + sc.steps == sc.steps;
  }

  lemma {:induction false} ScenariosRead(o: Open, scs: seq<Scenario>)
    requires forall sc | sc in scs :: ScenarioOk(sc)
    ensures CloseScenario(Fold(OpenStep, o, ScenariosLines(scs))) ==
            CloseScenario(o).(scenarios := CloseScenario(o).scenarios + scs)
    ensures Fold(OpenStep, o, ScenariosLines(scs)).statement == o.statement
    ensures AllInner(ScenariosLines(scs))
    decreases |scs|
  {
    hide ScenarioOk, ScenarioLines, OpenStep, Inner;
    if scs == [] {
      assert CloseScenario(o).scenarios + scs == CloseScenario(o).scenarios;
    } else {
      var sc := scs[0];
      assert sc in scs;
      ScenarioReads(o, sc);
      FoldAppend(OpenStep, o, ScenarioLines(sc), ScenariosLines(scs[1..]));
      var o' := Fold(OpenStep, o, ScenarioLines(sc));
      ScenariosRead(o', scs[1..]);
      assert CloseScenario(o').scenarios == CloseScenario(o).scenarios + [sc];
      assert CloseScenario(o).scenarios + [sc] + scs[1..] == CloseScenario(o).scenarios + scs;
    }
  }

  /** The body of a printed requirement, without annotations, parses back to that requirement. */
  lemma BodyReads(r: Requirement, taken: string -> bool)
    requires RequirementOk(r, taken)
    requires forall l | l in Block(r.statement) :: !IsHeading(l)
    ensures var ls := Block(r.statement) + ScenariosLines(r.scenarios);
            Close(Fold(OpenStep, Fresh(r.name), ls)) == r && AllInner(ls)
  {
    hide ScenarioOk, OpenStep, Inner, ScenariosLines, Block, Prose, Field, Collected, AllPlain;
    var a, b := Block(r.statement), ScenariosLines(r.scenarios);
    BlockCollected(r.statement, taken);
    FoldAppend(OpenStep, Fresh(r.name), a, b);
    StatementReads(Fresh(r.name), a, taken);
    var o := Fold(OpenStep, Fresh(r.name), a);
    assert [] + a == a;
    ScenariosRead(o, r.scenarios);
    assert [] + r.scenarios == r.scenarios;
  }

  // ---------------------------------------------------------------------------------------
  // Printed lines are single, flush-left lines
  // ---------------------------------------------------------------------------------------

  lemma NeatHead(name: string)
    requires Field(name)
    ensures Neat(HeadLines(name))
  {
    NeatLead(REQUIREMENT + " ", name);
    assert (REQUIREMENT + " ") + name == REQUIREMENT + " " + name;
    forall l | l in HeadLines(name) ensures OneLine(l) && FlushLeft(l) {
      assert l == "" || l == REQUIREMENT + " " + name;
    }
  }

  lemma NeatSteps(steps: seq<Step>)
    requires forall s | s in steps :: StepOk(s)
    ensures Neat(StepLines(steps))
  {
    hide StepOk, StepBody, OneLine, FlushLeft;
    forall s | s in steps ensures Neat(StepEntry(s)) {
      StepRoundTrip(s);
      ReadBullet(StepBody(s));
    }
    NeatFlat(StepEntry, steps);
  }

  lemma NeatScenario(sc: Scenario)
    requires ScenarioOk(sc)
    ensures Neat(ScenarioLines(sc))
  {
    hide StepOk, StepLines;
    NeatSteps(sc.steps);
    NeatLead(SCENARIO + " ", sc.name);
    assert (SCENARIO + " ") + sc.name == SCENARIO + " " + sc.name;
    var head := ["", SCENARIO + " " + sc.name];
    assert Neat(head) by {
      forall l | l in head ensures OneLine(l) && FlushLeft(l) {
        assert l == "" || l == SCENARIO + " " + sc.name;
      }
    }
    NeatAppend(head, StepLines(sc.steps));
  }

  lemma NeatScenarios(scs: seq<Scenario>)
    requires forall sc | sc in scs :: ScenarioOk(sc)
    ensures Neat(ScenariosLines(scs))
  {
    hide ScenarioOk, Neat, ScenarioLines;
    forall sc | sc in scs ensures Neat(ScenarioLines(sc)) {
      NeatScenario(sc);
    }
    NeatFlat(ScenarioLines, scs);
  }

  // ---------------------------------------------------------------------------------------
  // The printer's loops
  // ---------------------------------------------------------------------------------------

  method RenderScenario(b: string, sc: Scenario) returns (out: string)
    ensures out == b + Unlines(ScenarioLines(sc))
  {
    hide Flat, Unlines, StepLine;
    ghost var head := ["", SCENARIO + " " + sc.name];
    out := b + "\n" + (SCENARIO + " " + sc.name) + "\n";
    WriteHead(b, [], SCENARIO, sc.name);
    UnlinesNothing();
    assert [] + head == head;
    var i := 0;
    NoItems(head, StepEntry, sc.steps);
    while i < |sc.steps|
      invariant 0 <= i <= |sc.steps|
      invariant out == b + Unlines(head + Flat(StepEntry, sc.steps[..i]))
    {
      WriteItem(b, head, StepEntry, sc.steps, i);
      UnlinesOne(StepLine(sc.steps[i]));
      out := out + (StepLine(sc.steps[i]) + "\n");
      i := i + 1;
    }
    assert sc.steps[..i] == sc.steps;
  }

  /** The annotations a delta prints between statement and scenarios. */
  function Annotations(previously: string, rationale: string): seq<string> {
    (if previously == "" then [] else ["(Previously: " + previously + ")"]) +
    (if rationale == "" then [] else ["(Rationale: " + rationale + ")"])
  }

  function RequirementLines(r: Requirement, previously: string, rationale: string): seq<string> {
    HeadLines(r.name) + Block(r.statement) + Annotations(previously, rationale) + ScenariosLines(r.scenarios)
  }

  method RenderFront(b: string, r: Requirement, previously: string, rationale: string) returns (out: string)
    ensures out == b + Unlines(HeadLines(r.name) + Block(r.statement) + Annotations(previously, rationale))
  {
    hide Unlines, Block;
    ghost var ls := HeadLines(r.name);
    out := b + "\n" + (REQUIREMENT + " " + r.name) + "\n";
    WriteHead(b, [], REQUIREMENT, r.name);
    UnlinesNothing();
    assert [] + ls == ls;
    WriteBlock(b, ls, r.statement);
    ls := ls + Block(r.statement);
    if r.statement != "" {
      out := out + (r.statement + "\n");
    }
    assert out == b + Unlines(ls);
    assert ls + [] == ls;
    if previously != "" {
      WriteLine(b, ls, "(Previously: " + previously + ")");
      out := out + ("(Previously: " + previously + ")") + "\n";
    }
    ghost var notes := if previously == "" then [] else ["(Previously: " + previously + ")"];
    assert out == b + Unlines(ls + notes);
    assert ls + notes + [] == ls + notes;
    if rationale != "" {
      WriteLine(b, ls + notes, "(Rationale: " + rationale + ")");
      out := out + ("(Rationale: " + rationale + ")") + "\n";
    }
    assert Annotations(previously, rationale) == notes + if rationale == "" then [] else ["(Rationale: " + rationale + ")"];
    assert ls + Annotations(previously, rationale) == ls + notes + if rationale == "" then [] else ["(Rationale: " + rationale + ")"];
  }

  method RenderRequirement(b: string, r: Requirement, previously: string, rationale: string) returns (out: string)
    ensures out == b + Unlines(RequirementLines(r, previously, rationale))
  {
    hide Flat, Unlines, Block, ScenarioLines, Annotations, HeadLines;
    out := RenderFront(b, r, previously, rationale);
    ghost var front := HeadLines(r.name) + Block(r.statement) + Annotations(previously, rationale);
    var i := 0;
    NoItems(front, ScenarioLines, r.scenarios);
    while i < |r.scenarios|
      invariant 0 <= i <= |r.scenarios|
      invariant out == b + Unlines(front + Flat(ScenarioLines, r.scenarios[..i]))
    {
      WriteItem(b, front, ScenarioLines, r.scenarios, i);
      out := RenderScenario(out, r.scenarios[i]);
      i := i + 1;
    }
    assert r.scenarios[..i] == r.scenarios;
  }
}

/** The printed documents as texts, spelled out. */
module Rendering {
  import opened Text
  import opened OpenSpec
  import opened Markdown
  import opened RequirementBlock
  import Sections
  import SpecMarkdown
  import DeltaMarkdown
  import ProposalMarkdown
  import DesignMarkdown
  import TasksMarkdown

  function Cat<T>(f: T -> string, xs: seq<T>): string {
    if xs == [] then "" else f(xs[0]) + Cat(f, xs[1..])
  }

  /** Prose on lines of its own. */
  function Para(p: string): string {
    if p == "" then "" else p + "\n"
  }

  function When(present: bool, s: string): string {
    if present then s else ""
  }

  lemma {:induction false} UnlinesCat<T>(f: T -> seq<string>, g: T -> string, xs: seq<T>)
    requires forall x | x in xs :: Unlines(f(x)) == g(x)
    ensures Unlines(Flat(f, xs)) == Cat(g, xs)
  {
    hide Unlines;
    if xs == [] {
      UnlinesNothing();
    } else {
      assert xs[0] in xs && forall x | x in xs[1..] :: x in xs;
      UnlinesCat(f, g, xs[1..]);
      UnlinesAppend(f(xs[0]), Flat(f, xs[1..]));
    }
  }

  lemma ParaIs(p: string)
    ensures Unlines(Block(p)) == Para(p)
  {
    hide Unlines, Split;
    if p == "" { UnlinesNothing(); } else { UnlinesBlock(p); }
  }

  lemma TwoLines(l: string)
    ensures Unlines(["", l]) == "\n" + l + "\n" && Unlines([l]) == l + "\n"
  {
    assert ["", l][1..] == [l] && [l][1..] == [];
    assert Unlines([l]) == l + "\n" + Unlines([]);
  }

  // ---------------------------------------------------------------------------------------
  // Requirements
  // ---------------------------------------------------------------------------------------

  function StepText(s: Step): string {
    "- " + (if s.keyword == "" then s.text else if s.text == "" then s.keyword else s.keyword + " " + s.text) + "\n"
  }

  function ScenarioText(sc: Scenario): string {
    "\n#### Scenario: " + sc.name + "\n" + Cat(StepText, sc.steps)
  }

  function RequirementText(r: Requirement, previously: string, rationale: string): string {
    "\n### Requirement: " + r.name + "\n" + Para(r.statement) +
    When(previously != "", "(Previously: " + previously + ")\n") + When(rationale != "", "(Rationale: " + rationale + ")\n") +
    Cat(ScenarioText, r.scenarios)
  }

  lemma StepWritten(s: Step)
    ensures Unlines(StepEntry(s)) == StepText(s)
  {
    TwoLines(StepLine(s));
  }

  lemma ScenarioWritten(sc: Scenario)
    ensures Unlines(ScenarioLines(sc)) == ScenarioText(sc)
  {
    hide Unlines, Flat, StepText, StepEntry;
    var head := "#### Scenario:" + " " + sc.name;
    TwoLines(head);
    UnlinesAppend(["", head], StepLines(sc.steps));
    forall s ensures Unlines(StepEntry(s)) == StepText(s) { StepWritten(s); }
    UnlinesCat(StepEntry, StepText, sc.steps);
    assert "\n" + head + "\n" == "\n#### Scenario: " + sc.name + "\n";
  }

  lemma NoteLine(lead: string, v: string)
    ensures Unlines(if v == "" then [] else [lead + v + ")"]) == When(v != "", lead + v + ")\n")
  {
    hide Unlines;
    UnlinesNothing();
    TwoLines(lead + v + ")");
    assert lead + v + ")" + "\n" == lead + v + ")\n";
  }

  lemma NotesWritten(previously: string, rationale: string)
    ensures Unlines(Annotations(previously, rationale)) ==
            When(previously != "", "(Previously: " + previously + ")\n") + When(rationale != "", "(Rationale: " + rationale + ")\n")
  {
    hide Unlines, When;
    NoteLine("(Previously: ", previously);
    NoteLine("(Rationale: ", rationale);
    UnlinesAppend(if previously == "" then [] else ["(Previously: " + previously + ")"],
                  if rationale == "" then [] else ["(Rationale: " + rationale + ")"]);
  }

  lemma HeadWritten(name: string)
    ensures Unlines(HeadLines(name)) == "\n### Requirement: " + name + "\n"
  {
    hide Unlines;
    var head := "### Requirement:" + " " + name;
    TwoLines(head);
    assert "\n" + head + "\n" == "\n### Requirement: " + name + "\n";
  }

  lemma RequirementWritten(r: Requirement, previously: string, rationale: string)
    ensures Unlines(RequirementLines(r, previously, rationale)) == RequirementText(r, previously, rationale)
  {
    hide Unlines, Flat, Block, Annotations, HeadLines, ScenarioLines, ScenarioText, When, Para;
    var a, b, c, d := HeadLines(r.name), Block(r.statement), Annotations(previously, rationale), ScenariosLines(r.scenarios);
    HeadWritten(r.name);
    ParaIs(r.statement);
    NotesWritten(previously, rationale);
    forall sc ensures Unlines(ScenarioLines(sc)) == ScenarioText(sc) { ScenarioWritten(sc); }
    UnlinesCat(ScenarioLines, ScenarioText, r.scenarios);
    UnlinesAppend(a + b + c, d);
    UnlinesAppend(a + b, c);
    UnlinesAppend(a, b);
  }

  // ---------------------------------------------------------------------------------------
  // Sections
  // ---------------------------------------------------------------------------------------

  function SectionText(heading: string): string {
    "\n## " + heading + "\n"
  }

  lemma SectionWritten(heading: string)
    ensures Unlines(["", SECTION + heading]) == SectionText(heading)
  {
    hide Unlines;
    TwoLines("## " + heading);
    assert "\n" + ("## " + heading) + "\n" == "\n## " + heading + "\n";
  }

  lemma TitleWritten(title: string)
    ensures Unlines([TITLE + title]) == "# " + title + "\n"
  {
    hide Unlines;
    TwoLines("# " + title);
  }

  lemma HeadedWritten(heading: string, present: bool, ls: seq<string>)
    ensures Unlines(if present then ["", SECTION + heading] + ls else []) == When(present, SectionText(heading) + Unlines(ls))
  {
    hide Unlines, SectionText;
    if present {
      SectionWritten(heading);
      UnlinesAppend(["", SECTION + heading], ls);
    } else {
      UnlinesNothing();
    }
  }

  lemma TitledWritten(heading: string, p: string)
    ensures Unlines(Sections.Titled(heading, p)) == When(p != "", SectionText(heading) + p + "\n")
  {
    hide Unlines, SectionText, Block;
    HeadedWritten(heading, p != "", Block(p));
    ParaIs(p);
    assert SectionText(heading) + (p + "\n") == SectionText(heading) + p + "\n";
  }

  function ExtraText(x: ExtraSection): string {
    When(x.heading != "", SectionText(x.heading) + Para(x.body))
  }

  lemma ExtraWritten(x: ExtraSection)
    ensures Unlines(Sections.ExtraLines(x)) == ExtraText(x)
  {
    hide Unlines, SectionText, Block;
    HeadedWritten(x.heading, x.heading != "", Block(x.body));
    ParaIs(x.body);
  }

  // ---------------------------------------------------------------------------------------
  // The five documents
  // ---------------------------------------------------------------------------------------

  function PlainRequirement(r: Requirement): string {
    RequirementText(r, "", "")
  }

  function SpecText(s: Spec): string {
    "# " + s.title + "\n" + When(s.purpose != "", SectionText("Purpose") + s.purpose + "\n") + SectionText("Requirements") +
    Cat(PlainRequirement, s.requirements)
  }

  lemma SpecWritten(s: Spec)
    ensures SpecMarkdown.Print(s) == SpecText(s)
  {
    hide Unlines, Flat, SectionText, When, RequirementText, RequirementLines, Block;
    var a, b := [TITLE + s.title], SpecMarkdown.PurposeLines(s.purpose);
    var c, d := ["", SECTION + "Requirements"], SpecMarkdown.RequirementsLines(s.requirements);
    assert SpecMarkdown.Lines(s) == a + b + c + d by { SpecLinesAre(s); }
    TitleWritten(s.title);
    assert b == Sections.Titled("Purpose", s.purpose) by { PurposeIsTitled(s.purpose); }
    TitledWritten("Purpose", s.purpose);
    SectionWritten("Requirements");
    forall r ensures Unlines(SpecMarkdown.Entry(r)) == PlainRequirement(r) { RequirementWritten(r, "", ""); }
    UnlinesCat(SpecMarkdown.Entry, PlainRequirement, s.requirements);
    UnlinesAppend(a + b + c, d);
    UnlinesAppend(a + b, c);
    UnlinesAppend(a, b);
  }

  lemma SpecLinesAre(s: Spec)
    ensures SpecMarkdown.Lines(s) ==
            [TITLE + s.title] + SpecMarkdown.PurposeLines(s.purpose) + ["", SECTION + "Requirements"] + SpecMarkdown.RequirementsLines(s.requirements)
  {
    hide SpecMarkdown.PurposeLines, SpecMarkdown.RequirementsLines;
    assert SECTION + "Requirements" == "## Requirements";
  }

  lemma PurposeIsTitled(p: string)
    ensures SpecMarkdown.PurposeLines(p) == Sections.Titled("Purpose", p)
  {
    hide Block;
    assert SECTION + "Purpose" == "## Purpose";
  }

  function ModifiedText(m: Modified): string {
    RequirementText(m.requirement, m.previously, "")
  }

  function RemovedText(r: Removed): string {
    RequirementText(Requirement(r.name, "", []), "", r.rationale)
  }

  function DeltaText(d: Delta): string {
    "# " + d.title + "\n" +
    When(d.added != [], SectionText("ADDED Requirements") + Cat(PlainRequirement, d.added)) +
    When(d.modified != [], SectionText("MODIFIED Requirements") + Cat(ModifiedText, d.modified)) +
    When(d.removed != [], SectionText("REMOVED Requirements") + Cat(RemovedText, d.removed))
  }

  lemma DeltaWritten(d: Delta)
    ensures DeltaMarkdown.Print(d) == DeltaText(d)
  {
    hide Unlines, Flat, SectionText, When, RequirementText, RequirementLines, DeltaMarkdown.Under;
    var t := [TITLE + d.title];
    var a := DeltaMarkdown.Under(DeltaMarkdown.ADDED, d.added != [], Flat(DeltaMarkdown.AddedEntry, d.added));
    var m := DeltaMarkdown.Under(DeltaMarkdown.MODIFIED, d.modified != [], Flat(DeltaMarkdown.ModifiedEntry, d.modified));
    var r := DeltaMarkdown.Under(DeltaMarkdown.REMOVED, d.removed != [], Flat(DeltaMarkdown.RemovedEntry, d.removed));
    TitleWritten(d.title);
    UnderWritten(DeltaMarkdown.ADDED, d.added != [], Flat(DeltaMarkdown.AddedEntry, d.added));
    UnderWritten(DeltaMarkdown.MODIFIED, d.modified != [], Flat(DeltaMarkdown.ModifiedEntry, d.modified));
    UnderWritten(DeltaMarkdown.REMOVED, d.removed != [], Flat(DeltaMarkdown.RemovedEntry, d.removed));
    forall x ensures Unlines(DeltaMarkdown.AddedEntry(x)) == PlainRequirement(x) { RequirementWritten(x, "", ""); }
    forall x ensures Unlines(DeltaMarkdown.ModifiedEntry(x)) == ModifiedText(x) { RequirementWritten(x.requirement, x.previously, ""); }
    forall x ensures Unlines(DeltaMarkdown.RemovedEntry(x)) == RemovedText(x) { RequirementWritten(Requirement(x.name, "", []), "", x.rationale); }
    UnlinesCat(DeltaMarkdown.AddedEntry, PlainRequirement, d.added);
    UnlinesCat(DeltaMarkdown.ModifiedEntry, ModifiedText, d.modified);
    UnlinesCat(DeltaMarkdown.RemovedEntry, RemovedText, d.removed);
    UnlinesAppend(t + a + m, r);
    UnlinesAppend(t + a, m);
    UnlinesAppend(t, a);
  }

  lemma UnderWritten(heading: string, present: bool, ls: seq<string>)
    ensures Unlines(DeltaMarkdown.Under(heading, present, ls)) == When(present, SectionText(heading) + Unlines(ls))
  {
    hide Unlines, SectionText, When;
    HeadedWritten(heading, present, ls);
  }

  function ItemText(item: string): string {
    "- " + item + "\n"
  }

  function ScopeText(ins: seq<string>, outs: seq<string>): string {
    When(ins != [] || outs != [],
         SectionText("Scope") + When(ins != [], "In scope:\n" + Cat(ItemText, ins)) + When(ins != [] && outs != [], "\n") +
         When(outs != [], "Out of scope:\n" + Cat(ItemText, outs)))
  }

  function ProposalText(p: Proposal): string {
    "# " + p.title + "\n" + When(p.intent != "", SectionText("Intent") + p.intent + "\n") + ScopeText(p.scopeIn, p.scopeOut) +
    When(p.approach != "", SectionText("Approach") + p.approach + "\n") + Cat(ExtraText, p.extras)
  }

  lemma LabelledWritten(lead: string, items: seq<string>)
    ensures Unlines(ProposalMarkdown.Labelled(lead, items)) == When(items != [], lead + "\n" + Cat(ItemText, items))
  {
    hide Unlines, Flat;
    forall x ensures Unlines(ProposalMarkdown.Bullet(x)) == ItemText(x) { TwoLines("- " + x); }
    UnlinesCat(ProposalMarkdown.Bullet, ItemText, items);
    UnlinesNothing();
    TwoLines(lead);
    UnlinesAppend([lead], Flat(ProposalMarkdown.Bullet, items));
  }

  lemma ScopeWritten(ins: seq<string>, outs: seq<string>)
    ensures Unlines(ProposalMarkdown.ScopeLines(ins, outs)) == ScopeText(ins, outs)
  {
    hide Unlines, Flat, SectionText, ProposalMarkdown.Labelled, Cat;
    var h := ["", SECTION + "Scope"];
    var a, gap, b := ProposalMarkdown.Labelled("In scope:", ins), if ins != [] && outs != [] then [""] else [], ProposalMarkdown.Labelled("Out of scope:", outs);
    SectionWritten("Scope");
    LabelledWritten("In scope:", ins);
    LabelledWritten("Out of scope:", outs);
    assert "In scope:" + "\n" == "In scope:\n" && "Out of scope:" + "\n" == "Out of scope:\n";
    UnlinesNothing();
    TwoLines("");
    assert Unlines([""]) == "\n";
    UnlinesAppend(h + a + gap, b);
    UnlinesAppend(h + a, gap);
    UnlinesAppend(h, a);
  }

  lemma ProposalWritten(p: Proposal)
    ensures ProposalMarkdown.Print(p) == ProposalText(p)
  {
    hide Unlines, Flat, SectionText, When, ScopeText, ProposalMarkdown.ScopeLines, Sections.Titled, Sections.ExtraLines, ExtraText;
    var t, a, b := [TITLE + p.title], Sections.Titled("Intent", p.intent), ProposalMarkdown.ScopeLines(p.scopeIn, p.scopeOut);
    var c, d := Sections.Titled("Approach", p.approach), Flat(Sections.ExtraLines, p.extras);
    TitleWritten(p.title);
    TitledWritten("Intent", p.intent);
    ScopeWritten(p.scopeIn, p.scopeOut);
    TitledWritten("Approach", p.approach);
    forall x ensures Unlines(Sections.ExtraLines(x)) == ExtraText(x) { ExtraWritten(x); }
    UnlinesCat(Sections.ExtraLines, ExtraText, p.extras);
    UnlinesAppend(t + a + b + c, d);
    UnlinesAppend(t + a + b, c);
    UnlinesAppend(t + a, b);
    UnlinesAppend(t, a);
  }

  function DecisionText(d: Decision): string {
    "\n### Decision: " + d.name + "\n" + Para(d.body)
  }

  function ChangeText(f: FileChange): string {
    "- `" + f.path + "`" + When(f.kind != "", " (" + f.kind + ")") + "\n"
  }

  function DesignText(d: Design): string {
    "# " + d.title + "\n" + When(d.technical != "", SectionText("Technical Approach") + d.technical + "\n") +
    When(d.decisions != [], SectionText("Architecture Decisions") + Cat(DecisionText, d.decisions)) +
    When(d.dataFlow != "", SectionText("Data Flow") + d.dataFlow + "\n") +
    When(d.fileChanges != [], SectionText("File Changes") + Cat(ChangeText, d.fileChanges)) + Cat(ExtraText, d.extras)
  }

  lemma DecisionWritten(d: Decision)
    ensures Unlines(DesignMarkdown.DecisionLines(d)) == DecisionText(d)
  {
    hide Unlines, Block;
    var head := "### Decision:" + " " + d.name;
    TwoLines(head);
    ParaIs(d.body);
    UnlinesAppend(["", head], Block(d.body));
    assert "\n" + head + "\n" == "\n### Decision: " + d.name + "\n";
  }

  lemma ChangeWritten(f: FileChange)
    ensures Unlines(DesignMarkdown.ChangeEntry(f)) == ChangeText(f)
  {
    hide Unlines;
    TwoLines(DesignMarkdown.ChangeLine(f));
    assert "- " + "`" == "- `";
    assert DesignMarkdown.ChangeLine(f) == "- `" + f.path + "`" + When(f.kind != "", " (" + f.kind + ")");
  }

  lemma PresentWritten(heading: string, present: bool, ls: seq<string>)
    ensures Unlines(DesignMarkdown.Headed(heading, present, ls)) == When(present, SectionText(heading) + Unlines(ls))
  {
    hide Unlines, SectionText, When;
    HeadedWritten(heading, present, ls);
  }

  lemma DesignWritten(d: Design)
    ensures DesignMarkdown.Print(d) == DesignText(d)
  {
    hide Unlines, Flat, SectionText, When, Sections.Titled, Sections.ExtraLines, ExtraText, DesignMarkdown.Headed, DecisionText, ChangeText,
      DesignMarkdown.DecisionLines, DesignMarkdown.ChangeEntry;
    var t, a := [TITLE + d.title], Sections.Titled("Technical Approach", d.technical);
    var b := DesignMarkdown.Headed("Architecture Decisions", d.decisions != [], Flat(DesignMarkdown.DecisionLines, d.decisions));
    var c := Sections.Titled("Data Flow", d.dataFlow);
    var e := DesignMarkdown.Headed("File Changes", d.fileChanges != [], Flat(DesignMarkdown.ChangeEntry, d.fileChanges));
    var f := Flat(Sections.ExtraLines, d.extras);
    TitleWritten(d.title);
    TitledWritten("Technical Approach", d.technical);
    PresentWritten("Architecture Decisions", d.decisions != [], Flat(DesignMarkdown.DecisionLines, d.decisions));
    TitledWritten("Data Flow", d.dataFlow);
    PresentWritten("File Changes", d.fileChanges != [], Flat(DesignMarkdown.ChangeEntry, d.fileChanges));
    forall x ensures Unlines(DesignMarkdown.DecisionLines(x)) == DecisionText(x) { DecisionWritten(x); }
    forall x ensures Unlines(DesignMarkdown.ChangeEntry(x)) == ChangeText(x) { ChangeWritten(x); }
    forall x ensures Unlines(Sections.ExtraLines(x)) == ExtraText(x) { ExtraWritten(x); }
    UnlinesCat(DesignMarkdown.DecisionLines, DecisionText, d.decisions);
    UnlinesCat(DesignMarkdown.ChangeEntry, ChangeText, d.fileChanges);
    UnlinesCat(Sections.ExtraLines, ExtraText, d.extras);
    UnlinesAppend(t + a + b + c + e, f);
    UnlinesAppend(t + a + b + c, e);
    UnlinesAppend(t + a + b, c);
    UnlinesAppend(t + a, b);
    UnlinesAppend(t, a);
  }

  function TaskText(t: Task): string {
    "- [" + (if t.done then "x" else " ") + "]" + When(t.number != "", " " + t.number) + When(t.text != "", " " + t.text) + "\n"
  }

  function TaskSectionText(s: TaskSection): string {
    When(s.name != "", SectionText(s.name)) + Cat(TaskText, s.tasks)
  }

  function TasksText(t: Tasks): string {
    "# " + t.title + "\n" + Cat(TaskSectionText, t.sections)
  }

  lemma TaskWritten(t: Task)
    ensures Unlines(TasksMarkdown.TaskEntry(t)) == TaskText(t)
  {
    hide Unlines;
    TwoLines(TasksMarkdown.TaskLine(t));
    TaskLineIs(t);
  }

  lemma ContentIs(t: Task)
    ensures (if TasksMarkdown.Content(t) == "" then "" else " " + TasksMarkdown.Content(t)) ==
            When(t.number != "", " " + t.number) + When(t.text != "", " " + t.text)
  {
    if t.number != "" && t.text != "" {
      assert " " + (t.number + " " + t.text) == " " + t.number + (" " + t.text);
    }
  }

  lemma BoxIs(done: bool)
    ensures "- " + TasksMarkdown.Box(done) == "- [" + (if done then "x" else " ") + "]"
  {
  }

  lemma Joined(a: string, b: string, c: string, d: string)
    ensures a + (b + (c + d)) == a + b + c + d
  {
  }

  lemma TaskLineIs(t: Task)
    ensures TasksMarkdown.TaskLine(t) == "- [" + (if t.done then "x" else " ") + "]" + When(t.number != "", " " + t.number) + When(t.text != "", " " + t.text)
  {
    hide When, TasksMarkdown.Box, TasksMarkdown.Content;
    ContentIs(t);
    BoxIs(t.done);
    BodyIs(t);
    Joined("- ", TasksMarkdown.Box(t.done), When(t.number != "", " " + t.number), When(t.text != "", " " + t.text));
  }

  lemma BodyIs(t: Task)
    ensures TasksMarkdown.TaskBody(t) ==
            TasksMarkdown.Box(t.done) + (if TasksMarkdown.Content(t) == "" then "" else " " + TasksMarkdown.Content(t))
  {
    hide TasksMarkdown.Box, TasksMarkdown.Content;
    var c := TasksMarkdown.Content(t);
    assert TasksMarkdown.Box(t.done) + " " + c == TasksMarkdown.Box(t.done) + (" " + c);
    assert TasksMarkdown.Box(t.done) + "" == TasksMarkdown.Box(t.done);
  }

  lemma TaskSectionWritten(s: TaskSection)
    ensures Unlines(TasksMarkdown.SectionLines(s)) == TaskSectionText(s)
  {
    hide Unlines, Flat, SectionText, TaskText;
    forall x ensures Unlines(TasksMarkdown.TaskEntry(x)) == TaskText(x) { TaskWritten(x); }
    UnlinesCat(TasksMarkdown.TaskEntry, TaskText, s.tasks);
    SectionWritten(s.name);
    UnlinesNothing();
    UnlinesAppend(if s.name == "" then [] else ["", SECTION + s.name], Flat(TasksMarkdown.TaskEntry, s.tasks));
  }

  lemma TasksWritten(t: Tasks)
    ensures TasksMarkdown.Print(t) == TasksText(t)
  {
    hide Unlines, Flat, TaskSectionText, TasksMarkdown.SectionLines;
    forall x ensures Unlines(TasksMarkdown.SectionLines(x)) == TaskSectionText(x) { TaskSectionWritten(x); }
    UnlinesCat(TasksMarkdown.SectionLines, TaskSectionText, t.sections);
    TitleWritten(t.title);
    UnlinesAppend([TITLE + t.title], Flat(TasksMarkdown.SectionLines, t.sections));
  }
}

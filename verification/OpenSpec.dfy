/** The OpenSpec documents: capability specs, change deltas, proposals, designs and task lists. */
module OpenSpec {

  datatype Step = Step(keyword: string, text: string)

  datatype Scenario = Scenario(name: string, steps: seq<Step>)

  datatype Requirement = Requirement(name: string, statement: string, scenarios: seq<Scenario>)

  /** What lenient ingest had to drop; diagnostic only. */
  datatype Warning =
    | EarlyScenario(name: string)
    | OrphanRequirement(name: string)
    | RemovedCarriesContent(name: string)

  datatype Spec = Spec(capability: string, title: string, purpose: string, requirements: seq<Requirement>, warnings: seq<Warning>)

  datatype Modified = Modified(requirement: Requirement, previously: string)

  datatype Removed = Removed(name: string, rationale: string)

  datatype Delta = Delta(capability: string, title: string, added: seq<Requirement>, modified: seq<Modified>,
                         removed: seq<Removed>, warnings: seq<Warning>)

  datatype ExtraSection = ExtraSection(heading: string, body: string)

  datatype Proposal = Proposal(title: string, intent: string, scopeIn: seq<string>, scopeOut: seq<string>,
                               approach: string, extras: seq<ExtraSection>)

  datatype Decision = Decision(name: string, body: string)

  datatype FileChange = FileChange(path: string, kind: string)

  datatype Design = Design(title: string, technical: string, decisions: seq<Decision>, dataFlow: string,
                           fileChanges: seq<FileChange>, extras: seq<ExtraSection>)

  datatype Task = Task(number: string, text: string, done: bool)

  datatype TaskSection = TaskSection(name: string, tasks: seq<Task>)

  datatype Tasks = Tasks(title: string, sections: seq<TaskSection>)
}

# Verified model of semteams

semteams runs agent teams on a graph of entities. This project models, in Dafny, the parts of it whose correctness is
not visible from any one function, and proves what they promise:

- **Approval projection** (`approvalpause`). Any number of subscriber processes record pending and answered gates on one
  run entity, each call reading the entity at an exact revision and writing back fenced by that revision.
  `ApprovalFacts` is the algebra of one recording, `ApprovalProtocol` the protocol as a state machine over interleaved
  steps (read, send, apply, unchanged, mismatch, refusal, lost request, lost reply, delivery, giving up, foreign
  lifecycle write), and `ApprovalClient` the retry loop itself, run inside the protocol. `ApprovalEncoding` exhibits the
  encodings that the projection asks for. The one assumption about the graph owner is its compare-and-set: a fenced write
  is applied only at the revision it names.
- **OpenSpec documents** (`openspec`). Five markdown artifacts, each with a line-by-line parser and a printer (`Text`,
  `Markdown`, `LineForms`, `RequirementBlock`, `Sections`, `SpecMarkdown`, `DeltaMarkdown`, `ProposalMarkdown`, `DesignMarkdown`,
  `TasksMarkdown`); what their texts mean without a parser (`SpecMeaning`, `DeltaMeaning`, `SectionMeaning`,
  `ProposalMeaning`, `DesignMeaning`, `TasksMeaning`), which spellings they take for one (`Leniency`) and what is printed
  (`Rendering`); and the second codec that flattens specs and changes to predicate/object facts and rebuilds them
  (`Numerals`, `RequirementIds`, `Facts`, `SpecFacts`, `ArtifactFacts`, `TaskFacts`, `DeltaFacts`, `ChangeFacts`, `ChangeCodec`), also with
  what other writers, such as `emitchange`, stamp beside them.
- **Proof readiness** (`analyzeproof`, and the gate in `implementspec`). `ProofFacts` parses proof records,
  `ProofReadiness` states the declarative rule and the findings, `ProofCauses` why each finding is made, `ProofAnalyzer` has the loops, the routes and the gate.
- **Sandboxes** (`sandboxmanager`, `sandboxruntime`). `Requirements` is what a valid request is and its normal form, `Validation` the
  validation with the fault that it reports, `Signatures` the content addresses, `ProfileMatching` the matcher, `Admission`
  the three-valued admission, `Attestation` the attestation record and the last-wins reading of its triples,
  `SandboxManager` the request orchestrator and the command router, `ShellQuoting` the command lines.

Each parser or loop of the code is a method proved equal to a specification function (`Parse`, `Print`, `AnalysisOf`,
`AdmissionOf`, ...) or to a relation that allows every map iteration order (`Reads`, `ChangeReads`, `NormalForm`); the
theorems are then about those. A property that the code is meant to have outright but has only under a condition is stated
with that exact condition, as an equivalence, and a lemma shows an input on the other side.

Where the code does less than its comments or names suggest, the model follows the code:

- `ridMinter` is described as producing unique keys. It does not for the names "Foo", "Foo", "Foo 2"
  (`RequirementIds.MintedRidsCanClash`); `RidsApartIffNoClash` is the exact condition.
- The markdown round trip is described as holding for every parsed document. It fails for prose that reads as a heading
  once its indentation is cut, and for a "## " heading made only of spaces other than blank and tab
  (`SpecMarkdown.IndentedHeadingBreaksStability`, `ProposalMarkdown.HollowSectionIsLost`).
- `Validate` asks for upper-case secrets and `AdmissionCheck` compares case by case, but `Normalize` in between lowers
  them (`Admission.ListedSecretIsDenied`); so the normal form of a valid request need not be valid
  (`Requirements.NormalFormIsValidIff`).
- Evidence that covers a claim does not discharge it when the claim also lists dependencies, and a waiver that is no
  longer active blocks even a dependency that is ready (`ProofReadiness.InactiveWaiverVetoes`).

## Model

| member | source | states |
|---|---|---|
| ApprovalFacts.TokenIsGroups | cmd/semteams/approvalpause/projection.go:177-192 | The loop token of a gate is five groups of lower-case hexadecimal digits, eight, four, four, four and twelve, joined by hyphens. |
| ApprovalFacts.RecordGates | cmd/semteams/approvalpause/projection.go:239-266 | Recording an event adds exactly its gate to the pending set, and to the answered set if it is an answer; stored receipts are kept unchanged and one count is written. |
| ApprovalFacts.RecordHolds | cmd/semteams/approvalpause/projection.go:239-267 | The recorded tuples one by one: stored receipts as they are, a new tuple with its subject, source, time and confidence exactly for a gate not stored yet, and the stored count where it already says so or else a new one. |
| ApprovalFacts.RecordKeepsValid | cmd/semteams/approvalpause/projection.go:194-267 | Every written state passes the validity checks of the next read. |
| ApprovalFacts.EventsCommute | cmd/semteams/approvalpause/projection.go:239-266 | Any two events in either order give the same pending gates, answered gates and count. |
| ApprovalFacts.ReplayChangesNothing | cmd/semteams/approvalpause/projection.go:239-266 | Recording what is already recorded rewrites the very same tuples, annotations included. |
| ApprovalFacts.OutstandingMoves | cmd/semteams/approvalpause/pauser.go:94-120 | The count rises exactly for a first pending and falls exactly for the first answer of a pending gate; a late or replayed pending for an answered gate never raises it. |
| ApprovalFacts.ZeroMeansAllAnswered | cmd/semteams/approvalpause/projection.go:249-266 | A stored count of zero means that the pending and answered gates are the same, and conversely. |
| ApprovalFacts.ApprovalFacts | cmd/semteams/approvalpause/projection.go:194-267 | The scan and rebuild over two maps succeeds exactly on valid tuples, returns exactly the recorded tuples, pending before answered before the count and each by its gate's text, and reports whether the gate was already answered. |
| ApprovalFacts.DesiredDetermined | cmd/semteams/approvalpause/projection.go:249-266 | The list to store is determined by its tuples, whatever order the entity was read in. |
| ApprovalFacts.ScanTuples | cmd/semteams/approvalpause/projection.go:194-238 | The scanning loop yields both maps and the prior count, and refuses only invalid tuples. |
| ApprovalFacts.SameApprovalFacts | cmd/semteams/approvalpause/projection.go:278-304 | Comparing sorted encodings decides equality of the approval tuples as multisets, for any injective encoding. |
| ApprovalEncoding.EncodingsExist | cmd/semteams/approvalpause/projection.go:285-292 | There are encodings into text that tell all tuples and all values apart, as the comparison and the gate order ask for. |
| ApprovalProtocol.StepKeepsInv | cmd/semteams/approvalpause/projection.go:85-141 | Every step of any caller, of the owner, of the network or of a lifecycle writer keeps the protocol invariant. |
| ApprovalProtocol.RunKeepsInv | cmd/semteams/approvalpause/projection.go:85-141 | The invariant holds after every interleaving of any length. |
| ApprovalProtocol.SafeInEveryInterleaving | cmd/semteams/approvalpause/projection.go:65-142 | In every interleaving answered is a subset of pending, a stored count equals the difference of their sizes, and the count is absent only when nothing is recorded. |
| ApprovalProtocol.ReceiptsArePermanent | cmd/semteams/approvalpause/projection.go:82-84 | Once stored, a pending or answered tuple stays with its annotations, through every later run. |
| ApprovalProtocol.NoLostUpdate | cmd/semteams/approvalpause/projection.go:85-141 | The stored gate sets are the initial ones plus exactly the union over committed events. |
| ApprovalProtocol.Convergence | cmd/semteams/approvalpause/projection.go:85-141 | Any two interleavings that commit the same events, in whatever order, end with the same gate sets and count. |
| ApprovalProtocol.ResultIsHonest | cmd/semteams/approvalpause/projection.go:112-141 | A successful call committed exactly once, its gate is recorded, and its flag is the gate's answered membership at its commit; every other result except an unknown outcome means that it committed nothing and has nothing in flight. |
| ApprovalProtocol.DoneIsFinal | cmd/semteams/approvalpause/projection.go:112-137 | A call that ended, also with an unknown outcome, never changes its result and never sends again. |
| ApprovalProtocol.MismatchIsCharged | cmd/semteams/approvalpause/projection.go:113-116 | A mismatch is answered only if another writer moved the entity off the revision that the request names. |
| ApprovalProtocol.RetriesArePaidFor | cmd/semteams/approvalpause/projection.go:85-141 | Each retry is charged to a different write by somebody else, so giving up after eight attempts means at least eight such writes. |
| ApprovalProtocol.NoCommitOnInvalidEntity | cmd/semteams/approvalpause/projection.go:97-104 | On an entity whose approval tuples are invalid at the start, no call ever commits in any interleaving, the tuples never change, and calls end only by failing. |
| ApprovalClient.RecordApproval | cmd/semteams/approvalpause/projection.go:65-142 | The retry loop, against arbitrary interference at every point: an ended context or an invalid pair touches nothing; otherwise the result is exactly the one owed to what the call was told by its context, its reads and its requests, it commits at most once, and a call to which nothing bad happens and that fewer than eight other writes overtake records its gate. |
| ApprovalClient.Attempts | cmd/semteams/approvalpause/projection.go:85-141 | At most eight attempts, each reading afresh and fencing the facts of that very read; the result is the one owed to what was told. |
| ApprovalClient.Attempt | cmd/semteams/approvalpause/projection.go:86-139 | One attempt ends the call as its context, its read and its answer say, or met a mismatch and leaves it to the next attempt. |
| ApprovalClient.OneResult | cmd/semteams/approvalpause/projection.go:85-141 | What a call is told by its context, its reads and its requests leaves it no choice of result. |
| ApprovalClient.LastWord | cmd/semteams/approvalpause/projection.go:85-141 | The last thing told fixes the result: failed by an ended context, a failed read or an invalid entity; declined by a refusal or a context that ended before sending; unknown by silence or a receipt that fails; recorded by a receipt that passes; conflict only after eight whole attempts; and every earlier attempt was a fresh read, a request for its facts and a mismatch. |
| ApprovalClient.SmoothRecords | cmd/semteams/approvalpause/projection.go:85-141 | A call whose context lives, whose reads are valid and whose answers are mismatches or passing receipts records its gate or uses up its attempts. |
| ApprovalClient.Prepare | cmd/semteams/approvalpause/projection.go:86-111 | The part before sending ends the call or fences the facts of its own read by that read's revision. |
| ApprovalClient.Settle | cmd/semteams/approvalpause/projection.go:112-139 | The meaning of each answer: only a mismatch is retried; a refusal is declined; no readable answer is unknown; a receipt is success exactly when its revision and its tuples are those asked for, and unknown otherwise. |
| LineForms.LineIs | cmd/semteams/openspec/parse.go:79-126 | What a raw line of a spec or delta is, by its flush-left marker spelled out, or else prose without its white space. |
| LineForms.TopLineIs | cmd/semteams/openspec/parse.go:350-366 | The same for a proposal, a design or a task list. |
| LineForms.BulletIs | cmd/semteams/openspec/parse.go:139-147 | A line is a bullet exactly when it is "-", "*" or "+", a blank and its body. |
| LineForms.StepIs | cmd/semteams/openspec/parse.go:152-161 | A bullet is a step with keyword GIVEN, WHEN, THEN or AND exactly when it opens with that word in any letter case, and keeps its whole text otherwise. |
| Text.SpaceIs | cmd/semteams/openspec/parse.go:79-82 | White space is this set of characters, more than the blanks, tabs and carriage returns that are cut from the end of a raw line. |
| Text.QuotedPlain | cmd/semteams/sandboxmanager/requirements.go:254-264 | A text without quotes, backslashes and control characters is only put between quotes. |
| Markdown.StepRoundTrip | cmd/semteams/openspec/parse.go:152-161 | Every well-formed scenario step parses back from its printed bullet, keyword or not. |
| RequirementBlock.BodyReads | cmd/semteams/openspec/render.go:135-177 | The printed statement and scenarios of a requirement are read back exactly. |
| RequirementBlock.RenderRequirement | cmd/semteams/openspec/render.go:135-177 | The printing loop writes exactly the specified lines. |
| SpecMarkdown.RoundTripIffCanonical | cmd/semteams/openspec/render.go:78-97 | For every spec, parsed or built: its printed text parses back to it, warnings and capability aside, exactly when its fields are trimmed single lines and its prose holds no heading. |
| SpecMarkdown.ParseIsTidy | cmd/semteams/openspec/parse.go:46-134 | Every parsed spec, from any text, has trimmed single-line fields and proper blocks. |
| SpecMarkdown.CleanTextIsCanonical | cmd/semteams/openspec/parse.go:46-134 | A text without indented heading marker parses to a canonical spec. |
| SpecMarkdown.SemanticStability | cmd/semteams/openspec/parse.go:46-161 | For such a text, parsing, printing and parsing again is the first parse, warnings aside. |
| SpecMarkdown.StableIffNoHeadingInProse | cmd/semteams/openspec/parse.go:79-126 | For any text, the parsed spec survives printing exactly when none of its prose lines reads as a heading. |
| SpecMarkdown.StableIffLiteral | cmd/semteams/openspec/parse.go:46-134 | The same condition on the text itself: stable exactly when no line hides a heading where the parser, after the lines before it, keeps prose. |
| SpecMarkdown.IndentedHeadingBreaksStability | cmd/semteams/openspec/parse.go:79-126 | An indented heading-like purpose line is stored trimmed and does not survive. |
| SpecMarkdown.ParseSpec | cmd/semteams/openspec/parse.go:46-134 | The line loop with its current requirement, scenario and accumulators computes the specified parse, which is what the text means (`SpecMeaning.ParseIsMeaning`). |
| SpecMarkdown.RenderSpec | cmd/semteams/openspec/render.go:78-97 | The printer writes exactly the specified text. |
| DeltaMarkdown.AnnotationRoundTrip | cmd/semteams/openspec/parse.go:319-326 | A Previously or Rationale value is recovered exactly, also when it contains or ends in a closing parenthesis. |
| DeltaMarkdown.RoundTripIffCanonical | cmd/semteams/openspec/render.go:103-156 | For every delta, parsed or built: its printed text parses back to it, warnings and capability aside, exactly when its fields are trimmed single lines and no statement line reads as a heading or an annotation. |
| DeltaMarkdown.CleanTextIsCanonical | cmd/semteams/openspec/parse.go:189-270 | A text without indented heading marker parses to a canonical delta, whatever the order of its sections. |
| DeltaMarkdown.SemanticStability | cmd/semteams/openspec/parse.go:189-326 | For such a text, parsing, printing and parsing again is the first parse, warnings aside. |
| DeltaMarkdown.StableIffNoHeadingInProse | cmd/semteams/openspec/parse.go:189-326 | For any text, the parsed delta survives printing exactly when none of its prose lines reads as a heading or an annotation. |
| DeltaMarkdown.StableIffLiteral | cmd/semteams/openspec/parse.go:189-292 | The same condition on the text itself: stable exactly when no line hides a heading where the parser keeps it in an added or modified statement. |
| DeltaMarkdown.IndentedHeadingBreaksStability | cmd/semteams/openspec/parse.go:189-270 | An indented heading in a MODIFIED statement is stored trimmed and does not survive. |
| DeltaMarkdown.ParseDelta | cmd/semteams/openspec/parse.go:189-292 | The line loop and its flushes compute the specified parse, which is what the text means (`DeltaMeaning.ParseIsMeaning`). |
| DeltaMarkdown.RenderDelta | cmd/semteams/openspec/render.go:103-130 | The printer writes exactly the specified text. |
| ProposalMarkdown.RoundTripIffCanonical | cmd/semteams/openspec/render.go:183-220 | For every proposal, parsed or built: its printed text parses back to it exactly when it is canonical, that is intent, scope lists under their labels, approach and named kept sections without headings in their prose. |
| ProposalMarkdown.CleanTextIsCanonical | cmd/semteams/openspec/parse.go:332-401 | A text without indented or hollow headings parses to a canonical proposal. |
| ProposalMarkdown.SemanticStability | cmd/semteams/openspec/parse.go:332-415 | For such a text, parsing, printing and parsing again is the first parse. |
| ProposalMarkdown.StableIffCanonical | cmd/semteams/openspec/parse.go:332-415 | For any text, the parsed proposal survives printing exactly when it is canonical. |
| ProposalMarkdown.StableIffLiteral | cmd/semteams/openspec/parse.go:332-415 | The same condition on the text itself: stable exactly when no line is a nameless section heading or hides a heading where the parser keeps prose. |
| ProposalMarkdown.HollowSectionIsLost | cmd/semteams/openspec/render.go:268-281 | A section whose heading is only a no-break space is kept by the parser and dropped by the printer. |
| ProposalMarkdown.ParseProposal | cmd/semteams/openspec/parse.go:332-401 | The line loop computes the specified parse, which is what the text means (`ProposalMeaning.ParseIsMeaning`). |
| ProposalMarkdown.RenderProposal | cmd/semteams/openspec/render.go:183-220 | The printer writes exactly the specified text. |
| DesignMarkdown.ChangeRoundTrip | cmd/semteams/openspec/parse.go:516-530 | A file change parses back from its printed bullet, path and kind. |
| DesignMarkdown.RoundTripIffCanonical | cmd/semteams/openspec/render.go:224-266 | For every design, parsed or built: its printed text parses back to it exactly when it is canonical, that is approach, decisions, data flow, file changes and named kept sections without headings in their prose. |
| DesignMarkdown.CleanTextIsCanonical | cmd/semteams/openspec/parse.go:419-496 | A text without indented or hollow headings parses to a canonical design. |
| DesignMarkdown.SemanticStability | cmd/semteams/openspec/parse.go:419-530 | For such a text, parsing, printing and parsing again is the first parse. |
| DesignMarkdown.StableIffCanonical | cmd/semteams/openspec/parse.go:419-530 | For any text, the parsed design survives printing exactly when it is canonical. |
| DesignMarkdown.StableIffLiteral | cmd/semteams/openspec/parse.go:419-530 | The same condition on the text itself: stable exactly when no line is a nameless section heading or hides a heading, inside a decision also a decision heading, where the parser keeps prose. |
| DesignMarkdown.HollowSectionIsLost | cmd/semteams/openspec/render.go:268-281 | A section whose heading is only a no-break space is kept by the parser and dropped by the printer. |
| DesignMarkdown.ParseDesign | cmd/semteams/openspec/parse.go:419-496 | The line loop computes the specified parse, which is what the text means (`DesignMeaning.ParseIsMeaning`). |
| DesignMarkdown.RenderDesign | cmd/semteams/openspec/render.go:224-295 | The printer writes exactly the specified text. |
| TasksMarkdown.TaskRoundTrip | cmd/semteams/openspec/parse.go:576-621 | A task parses back from its checkbox line, its dotted number told apart from its text. |
| TasksMarkdown.RoundTripIffCanonical | cmd/semteams/openspec/render.go:300-330 | For every task list, parsed or built: its printed text parses back to it exactly when numbers are dotted numbers, no unnumbered text starts with one, and only a first section with a task is unnamed. |
| TasksMarkdown.StableIffWellNamed | cmd/semteams/openspec/parse.go:536-571 | For any text, the parsed task list survives printing exactly when only its first section may be unnamed, which holds for every text without hollow headings. |
| TasksMarkdown.StableIffLiteral | cmd/semteams/openspec/parse.go:536-571 | For any text: parse, print, parse is parse exactly when no heading is made of white space only, except a first one that opens the list and is followed by a task before the next heading. |
| TasksMarkdown.HollowSectionIsLost | cmd/semteams/openspec/render.go:300-330 | A heading that is only a no-break space, after a named section, does not survive. |
| TasksMarkdown.ParseTasks | cmd/semteams/openspec/parse.go:536-571 | The line loop computes the specified parse, which is what the text means (`TasksMeaning.ParseIsMeaning`). |
| TasksMarkdown.RenderTasks | cmd/semteams/openspec/render.go:300-343 | The printer writes exactly the specified text. |
| SpecMeaning.ParseIsMeaning | cmd/semteams/openspec/parse.go:46-134 | For any text the parsed spec, warnings included, is what the text says without a parser: every line counts for the last headings before it that it stands under. |
| DeltaMeaning.ParseIsMeaning | cmd/semteams/openspec/parse.go:189-292 | The same for deltas: lists by section, statements without annotations, the last annotation of each label, and the warnings in their order. |
| ProposalMeaning.ParseIsMeaning | cmd/semteams/openspec/parse.go:332-401 | The same for proposals: prose by section, scope items by the last label in their section, other sections as text. |
| DesignMeaning.ParseIsMeaning | cmd/semteams/openspec/parse.go:419-496 | The same for designs: prose by section, decisions by their headings among the decisions, file changes, other sections as text. |
| TasksMeaning.ParseIsMeaning | cmd/semteams/openspec/parse.go:536-571 | The same for task lists: tasks by section, and an unnamed section for those before any heading. |
| Leniency.SpecLenient | cmd/semteams/openspec/parse.go:16-134 | Specs that differ line by line only in blanks, tabs and carriage returns at the end, in the indentation of prose, in the markers and keyword case of steps and in the case of section headings parse alike. |
| Leniency.DeltaLenient | cmd/semteams/openspec/parse.go:189-326 | The same for deltas, section headings by their beginning, and annotations with a label in any case, closed or not. |
| Leniency.ProposalLenient | cmd/semteams/openspec/parse.go:332-415 | The same for proposals: the markers of scope bullets, the spelling of scope labels, and section headings by their beginning. |
| Leniency.DesignLenient | cmd/semteams/openspec/parse.go:419-530 | The same for designs: the markers of file changes and section headings by their beginning. |
| Leniency.TasksLenient | cmd/semteams/openspec/parse.go:536-591 | The same for task lists: the markers of tasks and the case of a tick. |
| Leniency.SpecSections | cmd/semteams/openspec/parse.go:97-105 | A spec section is the purpose or the requirements exactly when its heading is that word in any letter case. |
| Leniency.DeltaSections | cmd/semteams/openspec/parse.go:300-312 | A delta section is added, modified or removed exactly when its heading begins with that word in any letter case. |
| Leniency.AnnotationIs | cmd/semteams/openspec/parse.go:319-326 | An annotation is its label in any letter case and the trimmed rest without one closing parenthesis at its end. |
| Leniency.ScopeLineIs | cmd/semteams/openspec/parse.go:369-386 | In the scope section a label, also "out-of-scope", turns to one list, a bullet is an item of the current list, and anything else is passed over. |
| Leniency.UnlabelledIsInScope | cmd/semteams/openspec/parse.go:328-331 | A scope bullet before any label is in scope. |
| Leniency.DesignPlaces | cmd/semteams/openspec/parse.go:499-512 | A design section is told by the beginning of its heading in any letter case, and any other section is kept as text. |
| Leniency.DecisionLineIs | cmd/semteams/openspec/parse.go:447-449 | A decision heading among the decisions closes the decision before it and opens its own. |
| Leniency.FileChangeIs | cmd/semteams/openspec/parse.go:516-530 | A file change is a bullet with a path between its first two back quotes, and a kind exactly when parentheses enclose all that follows. |
| Leniency.TaskIs | cmd/semteams/openspec/parse.go:576-621 | A task is a bullet with a tick, an empty box or none, a dotted number in front or none, and its text. |
| Rendering.SpecWritten | cmd/semteams/openspec/render.go:78-97 | The printed spec is this text, letter by letter. |
| Rendering.DeltaWritten | cmd/semteams/openspec/render.go:103-130 | The printed delta is this text, letter by letter. |
| Rendering.ProposalWritten | cmd/semteams/openspec/render.go:183-220 | The printed proposal is this text, letter by letter. |
| Rendering.DesignWritten | cmd/semteams/openspec/render.go:224-295 | The printed design is this text, letter by letter. |
| Rendering.TasksWritten | cmd/semteams/openspec/render.go:300-343 | The printed task list is this text, letter by letter. |
| RequirementIds.SlugIsWords | cmd/semteams/slug/slug.go:47-50 | A slug is the maximal runs of small letters and digits of the trimmed, lowered text, joined by single hyphens. |
| RequirementIds.RidIs | cmd/semteams/openspec/facts.go:239-254 | A minted rid is the slug of its name, or "requirement" if that is empty, and from the second name of the same slug on with its number. |
| RequirementIds.SlugShape | cmd/semteams/slug/slug.go:47-50 | A slug has only letters, digits and inner hyphens, so no dots. |
| RequirementIds.Minter.Mint | cmd/semteams/openspec/facts.go:239-254 | Minting keeps a count per slug and returns the slug, or its suffixed form for a repetition. |
| RequirementIds.RidShape | cmd/semteams/openspec/facts.go:243-254 | Minted rids are non-empty and free of dots. |
| RequirementIds.RidsApartIffNoClash | cmd/semteams/openspec/facts.go:235-254 | Minted rids are pairwise distinct exactly when no slug equals the suffixed form of a repeated slug. |
| RequirementIds.MintedRidsCanClash | cmd/semteams/openspec/facts.go:243-254 | Three names whose second and third rids are the same. |
| Facts.IndexFacts | cmd/semteams/openspec/facts.go:105-116 | The first fact of a key wins. |
| Facts.FirstFactWins | cmd/semteams/openspec/facts.go:105-113 | The value of a key is that of its first fact. |
| Facts.OwnIndex | cmd/semteams/openspec/facts.go:105-116 | Unless another fact repeats a stored key, the index of a mixed fact list is the index of the stored facts with more keys. |
| SpecFacts.ChildKeys | cmd/semteams/openspec/facts.go:123-164 | Enumerated in any order, the children of a prefix come out once each, by position and then by name. |
| SpecFacts.UnplacedLast | cmd/semteams/openspec/facts.go:123-164 | A child without a numeric position comes after every child whose position is less than 2 to the 30th. |
| SpecFacts.ReadsAlike | cmd/semteams/openspec/facts.go:301-314 | The reader returns the same with and without keys that it never looks up and that name no new requirement. |
| SpecFacts.SpecFactsRoundTripIffNoClash | cmd/semteams/openspec/facts.go:283-314 | The facts of a spec, mixed in any order with facts that the reader passes over, inside its subtree or outside, read back as that spec in requirement order, for every enumeration order, exactly when its minted rids do not clash. |
| SpecFacts.StatusIsIgnorable | cmd/semteams/openspec/facts.go:15-20 | Facts outside the subtree and the status of a stored requirement are passed over. |
| SpecFacts.StoredFacts | cmd/semteams/openspec/facts.go:259-294 | A spec is stored as exactly these facts, each with its full key and its value. |
| SpecFacts.FieldsAreRead | cmd/semteams/openspec/facts.go:267-314 | Every field of a spec that is read is what its own full key holds. |
| SpecFacts.FactsFromSpec | cmd/semteams/openspec/facts.go:283-294 | The emitting loop with its minter produces exactly the facts that the spec is stored as, in order. |
| SpecFacts.SpecFromFacts | cmd/semteams/openspec/facts.go:301-314 | The rebuilding loop reads each field from its own key, requirements by position, whatever the enumeration order. |
| ArtifactFacts.ProposalShows | cmd/semteams/openspec/facts_change.go:155-167 | A stored proposal is rebuilt in its modeled fields, and comes back absent exactly when those were all empty; `ChangeCodec` gives the key of each field. |
| ArtifactFacts.DesignShows | cmd/semteams/openspec/facts_change.go:169-181 | A stored design is rebuilt in its modeled fields, and comes back absent exactly when those were all empty. |
| TaskFacts.RegroupIffGroups | cmd/semteams/openspec/facts_change.go:185-206 | Regrouping tasks by section name restores the sections exactly when names are distinct and no section is empty. |
| TaskFacts.RepeatedSectionIsMerged | cmd/semteams/openspec/facts_change.go:197-203 | A section name used twice merges its sections, and later tasks overtake those in between. |
| TaskFacts.IntChildIndices | cmd/semteams/openspec/facts_change.go:291-312 | Enumerated in any order, the task numbers come out once each in numeric order. |
| TaskFacts.TasksFromIndex | cmd/semteams/openspec/facts_change.go:185-206 | The regrouping loop with its section map returns the tasks grouped by first appearance. |
| TaskFacts.FactsFromTasks | cmd/semteams/openspec/facts_change.go:90-105 | The nested emitting loops number all tasks across sections. |
| TaskFacts.TasksReadBack | cmd/semteams/openspec/facts_change.go:84-105 | Stored tasks come back in document order, ten and more included, whatever further fields their entries have. |
| DeltaFacts.TailIffKey | cmd/semteams/openspec/facts_change.go:272-286 | Splitting a key from the right inverts exactly the keys with dot-free rid and field; capabilities may contain dots. |
| DeltaFacts.DeltasReadBack | cmd/semteams/openspec/facts_change.go:208-268 | Storable deltas come back sorted, each with its three lists in order. |
| DeltaFacts.UnplacedIsFirst | cmd/semteams/openspec/facts_change.go:232-246 | A missing position counts as zero: such an item comes before every positive and after every negative position. |
| DeltaFacts.OnlyStorable | cmd/semteams/openspec/facts_change.go:111-136 | Deltas that come back unchanged were sorted, named, non-empty and free of rid clashes. |
| DeltaFacts.FactsFromDelta | cmd/semteams/openspec/facts_change.go:111-136 | The three emitting loops share one minter and one position count. |
| DeltaFacts.DeltasFromIndex | cmd/semteams/openspec/facts_change.go:208-268 | Collecting by capability, sorting and dispatching by operation returns only what the reading relation allows. |
| ChangeFacts.ChangeFactsRoundTripIffStorable | cmd/semteams/openspec/facts_change.go:138-153 | The facts of a change, mixed in any order with facts that its reader passes over, inside its subtree or outside, read back as that change exactly when present artifacts have content, section names are distinct and sections non-empty, deltas are sorted, named and non-empty, and rids do not clash. |
| ChangeFacts.ReadsAlike | cmd/semteams/openspec/facts_change.go:143-312 | The reader returns the same with and without keys that it never looks up and that name no new task or requirement change. |
| ChangeFacts.StampsAreIgnorable | cmd/semteams/tools/emitchange/executor.go:191-217 | Status, time, acceptance command and the further task fields that the change writer stamps are passed over. |
| ChangeFacts.WrittenChangeRoundTrip | cmd/semteams/tools/emitchange/executor.go:177-219 | The entity as the change writer leaves it reads back as the change exactly when the change is storable. |
| ChangeFacts.EmptyProposalIsLost | cmd/semteams/openspec/facts_change.go:155-160 | A proposal with only a title comes back absent. |
| ChangeFacts.ClashingRidsAreLost | cmd/semteams/openspec/facts_change.go:111-120 | Three added requirements of which two share a rid do not come back. |
| ChangeFacts.MixedChanges | cmd/semteams/openspec/facts_change.go:138-153 | Changes of different dot-free slugs share one fact list, together with facts that none of their readers looks at, without disturbing each other. |
| ChangeCodec.StoredFacts | cmd/semteams/openspec/facts_change.go:50-136 | A change is stored as exactly these facts, each with its full key and its value: proposal and design fields, tasks numbered through all sections, requirement changes with their operation and position. |
| ChangeCodec.FieldsAreRead | cmd/semteams/openspec/facts_change.go:143-268 | Every field of a change that is read is what its own full key holds; each list of a delta holds exactly what is stored with its operation. |
| ChangeCodec.ChangeFromFacts | cmd/semteams/openspec/facts_change.go:143-153 | The rebuild reads every field from its own full key, whatever the enumeration order. |
| ChangeCodec.FactsFromChange | cmd/semteams/openspec/facts_change.go:50-60 | The emission produces exactly the facts that the change is stored as, in document order. |
| ChangeCodec.StoreAndLoad | cmd/semteams/openspec/facts_change.go:50-153 | Emitting and rebuilding returns the modeled change exactly when it is storable. |
| ProofFacts.SplitIffKey | cmd/semteams/tools/analyzeproof/analyzer.go:800-815 | Splitting a predicate inverts exactly the keys of known fields, so no two predicates set the same field of the same record. |
| ProofFacts.ParseProofFacts | cmd/semteams/tools/analyzeproof/analyzer.go:177-326 | Filling records in any enumeration order gives the one table that the triples determine. |
| ProofFacts.FieldsAreRead | cmd/semteams/tools/analyzeproof/analyzer.go:177-326 | The full key of every field that the analysis looks at. |
| ProofReadiness.DependencyDecides | cmd/semteams/tools/analyzeproof/analyzer.go:465-547 | A dependency gets no finding exactly when an active waiver covers it, or no waiver covers it and it is ready with an acceptable profile and a fresh passed readiness record. |
| ProofReadiness.AnalysisDecides | cmd/semteams/tools/analyzeproof/analyzer.go:338-383 | The status is passed exactly when some claim is accepted, no accepted claims conflict and every accepted claim is discharged; ambiguous exactly when none is accepted. |
| ProofReadiness.BlameIsExact | cmd/semteams/tools/analyzeproof/analyzer.go:354-375 | Findings are blockers about accepted claims, and name a claim exactly when it is opposed or not discharged. |
| ProofReadiness.FindingsInOrder | cmd/semteams/tools/analyzeproof/analyzer.go:352-375 | Findings come claim by claim in the order of the ids, a claim's conflicts first. |
| ProofCauses.FindingsAreCaused | cmd/semteams/tools/analyzeproof/analyzer.go:338-547 | A finding is made, with its defect, severity, route and every id that it names, exactly when the records give cause for it; the causes are stated field by field without regard to the order in which records are looked at. |
| ProofCauses.DependencyBlamed | cmd/semteams/tools/analyzeproof/analyzer.go:465-547 | The exact cause of every finding about a dependency, with the declared next route or the fixed role that it is routed to. |
| ProofCauses.WaiverBlamed | cmd/semteams/tools/analyzeproof/analyzer.go:549-567 | A finding about a waiver is made exactly when waivers cover the pair and none is in force, and names the first of them by id and what is wrong with it. |
| ProofCauses.ReadinessBlamed | cmd/semteams/tools/analyzeproof/analyzer.go:623-712 | Without a fresh passed record a profile's finding is the first of failed, unreadable, stale and blocked that some record shows, and names the last such record by id. |
| ProofReadiness.PassingIsAntitone | cmd/semteams/tools/analyzeproof/analyzer.go:759-769 | With the records fixed, an analysis that fails at some time never passes later. |
| ProofReadiness.ActiveWaiverIsHarmless | cmd/semteams/tools/analyzeproof/analyzer.go:725-757 | Adding an active waiver never turns passed into failed. |
| ProofReadiness.InactiveWaiverVetoes | cmd/semteams/tools/analyzeproof/analyzer.go:488-505 | A covering waiver that is not active fails the analysis even where the dependency is ready. |
| ProofAnalyzer.MatchingWaiver | cmd/semteams/tools/analyzeproof/analyzer.go:725-747 | The scan in id order returns the active waiver if any, otherwise the first inactive one. |
| ProofAnalyzer.FindReadiness | cmd/semteams/tools/analyzeproof/analyzer.go:623-723 | The scan of readiness records stops at a fresh pass and otherwise reports by priority. |
| ProofAnalyzer.EvaluateDependency | cmd/semteams/tools/analyzeproof/analyzer.go:465-547 | The branching yields exactly the findings that the records give cause for. |
| ProofAnalyzer.AnalyzeFacts | cmd/semteams/tools/analyzeproof/analyzer.go:338-383 | The whole analysis, findings in order included, is a function of the records, makes exactly the findings that they give cause for, and passes exactly when the rule holds. |
| ProofAnalyzer.Analyze | cmd/semteams/tools/analyzeproof/analyzer.go:330-333 | From triples to verdict and findings, the same for every map iteration order, each finding with its cause. |
| ProofAnalyzer.Routes | cmd/semteams/tools/analyzeproof/analyzer.go:430-449 | The sorted routes: implementation when passed, those of the findings, pause when failed without any. |
| ProofAnalyzer.Triples | cmd/semteams/tools/analyzeproof/analyzer.go:386-428 | The stamps of the status, of the routes and of every field of each finding, its reason included, in order. |
| ProofAnalyzer.RoutesAre | cmd/semteams/tools/analyzeproof/analyzer.go:430-449 | A route is implementation when passed, that of some finding, or a pause when failed without any. |
| ProofAnalyzer.HeadIsStamped | cmd/semteams/tools/analyzeproof/analyzer.go:395-402 | The analyzer's version, the time, the number of findings and every route are stamped. |
| ProofAnalyzer.PaddedIs | cmd/semteams/tools/analyzeproof/analyzer.go:569-578 | Findings are numbered with at least three digits. |
| ProofAnalyzer.StatusIsStamped | cmd/semteams/tools/analyzeproof/analyzer.go:395-399 | The status stamp says "passed", "failed" or "ambiguous", and there is no other. |
| ProofAnalyzer.FindingIsStamped | cmd/semteams/tools/analyzeproof/analyzer.go:403-427 | Every field of every finding is stamped under the number of the finding. |
| ProofAnalyzer.ImplementSpec | cmd/semteams/commands/implementspec/command.go:243-253 | The implementation gate opens exactly when the rule holds, whatever routes findings carry. |
| ProofAnalyzer.FailedAnalysisCanCarryTheRoute | cmd/semteams/tools/analyzeproof/analyzer.go:484-523 | A missing dependency whose next route is implementation puts that route on a failed analysis. |
| Validation.Validate | cmd/semteams/sandboxmanager/requirements.go:136-159 | Accepts exactly the requirements of the documented shape, and for any other reports its first fault, field after field. |
| Validation.ValidIffFaultless | cmd/semteams/sandboxmanager/requirements.go:113-159 | The ordered tests find no fault exactly in requirements of the documented shape. |
| Validation.FirstFaultIsReported | cmd/semteams/sandboxmanager/requirements.go:113-159 | The fault that is reported is the first: every field before its own is valid, and so is everything before it in its own. |
| Validation.ValidateEntries | cmd/semteams/sandboxmanager/requirements.go:254-307 | The loop over one list reports the fault of its first bad entry. |
| Validation.ValidateProbes | cmd/semteams/sandboxmanager/requirements.go:309-352 | The loop with its seen-set accepts exactly well-shaped probes with pairwise distinct stamped names, and otherwise reports the first fault of the first bad probe. |
| Validation.TokenShapeIs | cmd/semteams/sandboxmanager/requirements.go:374-377 | A token is a small letter or digit followed by small letters, digits, dots, underscores and hyphens. |
| Validation.SecretShapeIs | cmd/semteams/sandboxmanager/requirements.go:374-377 | A secret is a capital letter or underscore followed by capital letters, digits and underscores. |
| Validation.CommandShapeIs | cmd/semteams/sandboxmanager/requirements.go:328-350 | A probe command is not empty and has no control characters other than tabs and newlines. |
| Requirements.Normalize | cmd/semteams/sandboxmanager/requirements.go:173-223 | Every list comes out lowered, deduplicated and sorted as specified. |
| Requirements.NormalFormHolds | cmd/semteams/sandboxmanager/requirements.go:173-223 | What a normal form holds: every item trimmed and lowered, in strict order, the network in full, and every probe with its name lowered and its command trimmed. |
| Requirements.NormalizeIdempotent | cmd/semteams/sandboxmanager/requirements.go:161-172 | Normalizing a normal form of validated probes changes nothing. |
| Requirements.NormalFormIsValidIff | cmd/semteams/sandboxmanager/requirements.go:116-118 | Validation may be repeated after normalization exactly when no secret has a letter. |
| Requirements.NormalFormsEqualIffSameContent | cmd/semteams/sandboxmanager/requirements.go:161-223 | Two requirements have the same normal form exactly when their tokens, classes, network and probes are the same. |
| Requirements.KebabProbeName | cmd/semteams/sandboxmanager/attestation.go:420-443 | The byte-buffer loop yields a lower-kebab segment. |
| Requirements.KebabIsWords | cmd/semteams/sandboxmanager/attestation.go:420-443 | A stamped segment is the runs of letters and digits of the lowered name joined by hyphens, "probe" if there are none, cut to 55 characters without a hyphen at the end. |
| Requirements.KebabShape | cmd/semteams/sandboxmanager/attestation.go:413-443 | Every stamped probe segment is lower-kebab without doubled or outer hyphens and fits in 64 bytes with its prefix. |
| Requirements.StampedSegmentsDiffer | cmd/semteams/sandboxmanager/requirements.go:319-327 | The normalized probes of a validated requirement never share a predicate. |
| Signatures.HashesEqualIffSameContent | cmd/semteams/sandboxmanager/requirements.go:239-246 | Requirements of the same content have the same hash, and different content has one hash only if the digest collides. |
| Signatures.EncodingExists | cmd/semteams/sandboxmanager/requirements.go:239-246 | There is an encoding of requirements into text that tells all of them apart, as the hash asks for. |
| Signatures.HashOfNormalForm | cmd/semteams/sandboxmanager/requirements.go:225-246 | Hashing a requirement and hashing its normal form agree. |
| Signatures.SameContentSameWorkspace | cmd/semteams/sandboxmanager/attestation.go:175-179 | Two validated requests of the same content matched to one profile have one signature and one workspace. |
| Signatures.WorkspaceIs | cmd/semteams/sandboxmanager/manager.go:285-295 | Every workspace is a folder of its own below the root without its trailing slashes, named by the first sixteen characters of the signature. |
| Signatures.WorkspacesEqualIff | cmd/semteams/sandboxmanager/manager.go:285-295 | Under one root two workspaces are one exactly when the first sixteen characters of the signatures are the same. |
| Signatures.DifferentRequestsApart | cmd/semteams/sandboxmanager/attestation.go:175-179 | Requests that differ in content or profile share a signature only if the digest collides, and a workspace only if two digests begin alike. |
| Signatures.Hash | cmd/semteams/sandboxmanager/requirements.go:239-246 | The digest of the encoded normal form. |
| ProfileMatching.MatchProfile | cmd/semteams/sandboxmanager/profile.go:185-276 | Returns the first covering profile with the fewest unrequested capabilities; otherwise the sorted unmet needs, each once, of the first profile that misses the fewest. |
| ProfileMatching.MatchDetermined | cmd/semteams/sandboxmanager/profile.go:250-276 | The whole answer, profile or unmet list, is determined by catalog and requirements, whatever the map iteration order. |
| ProfileMatching.ScoreProfile | cmd/semteams/sandboxmanager/profile.go:201-248 | The score is the needs met less the surplus, and the unmet list names exactly what is missing. |
| Admission.WorstDecides | cmd/semteams/sandboxmanager/admission.go:210-217 | The outcome is the worst judgement of any single requirement. |
| Admission.OutcomeIs | cmd/semteams/sandboxmanager/admission.go:127-218 | Denied, pending and admitted, each exactly characterized by the request's privileges, network, secrets, mounts and probes, the profile's allowlists and the policy. |
| Admission.OnlySetsCount | cmd/semteams/sandboxmanager/admission.go:127-218 | Order and repetition in the requirement lists change nothing, reasons included. |
| Admission.MoreRequirementsNeverHelp | cmd/semteams/sandboxmanager/admission.go:127-218 | Adding privileges, secrets, mounts or probes never improves the outcome. |
| Admission.MoreGenerousNeverHurts | cmd/semteams/sandboxmanager/admission.go:127-218 | Enlarging the policy or the profile's allowlists never worsens the outcome. |
| Admission.UpperCasePolicyDeniesLetters | cmd/semteams/sandboxmanager/admission.go:173-189 | After normalization a secret with a letter is denied by every policy of upper-case names. |
| Admission.DeniedIffSecretNotListedLowered | cmd/semteams/sandboxmanager/admission.go:181-189 | After normalization a validated request is denied exactly when something other than its secrets is refused, or the policy does not list the lowered name of one of them. |
| Admission.ListedSecretIsDenied | cmd/semteams/sandboxmanager/requirements.go:179-179 | A validated request for one secret is denied by a policy that lists that very secret. |
| Admission.ReasonsAre | cmd/semteams/sandboxmanager/admission.go:127-218 | The reasons of a denial and of a review, word by word, and when each of them is given. |
| Admission.DedupSorted | cmd/semteams/sandboxmanager/admission.go:220-234 | Compacting over its own array while reading ahead drops exactly the repetitions. |
| Admission.DedupLists | cmd/semteams/sandboxmanager/admission.go:205-234 | On a sorted list the result is the strictly sorted list of the same elements. |
| Admission.AdmissionCheck | cmd/semteams/sandboxmanager/admission.go:127-218 | The appended, sorted and compacted reasons and the outcome are the specified ones. |
| Attestation.Attest | cmd/semteams/sandboxmanager/attestation.go:216-263 | Ready when no probe failed, degraded when some did and some did not, terminal when all did; exactly one of the shapes; the sorted names and reasons of the failed probes, the terminal reason, and the output of each passed name. |
| Attestation.ConcatAppend | cmd/semteams/sandboxmanager/attestation.go:270-290 | In joined reasons the separator stands between any two parts and nowhere else. |
| Attestation.ProbesAreReported | cmd/semteams/sandboxmanager/attestation.go:216-263 | The attestation of a running container tells exactly which probes passed, which did not and why, with outputs cut to 512 characters. |
| Attestation.Triples | cmd/semteams/sandboxmanager/attestation.go:306-379 | The stamped triples, verified ones in name order without empty values. |
| Attestation.StampedFacts | cmd/semteams/sandboxmanager/attestation.go:306-379 | An attestation is stamped as exactly these triples, each with its name and value. |
| Attestation.StampVerifies | cmd/semteams/sandboxmanager/attestation.go:358-378 | When stamped segments differ, the last value under a probe's predicate is that probe's own output. |
| Attestation.DecodeExactEntityTriples | cmd/semteams/chain/entity_reader.go:162-200 | Collecting all values and taking the last of each gives the last value stamped. |
| Attestation.RouteOfHistory | cmd/semteams/sandboxruntime/attestation_runner.go:120-157 | From any history the router takes readiness from the last attestation and the folder from the last one that had a folder. |
| Attestation.RouteIsLastAttestationIff | cmd/semteams/sandboxruntime/attestation_runner.go:120-157 | The router goes by the last attestation alone exactly unless that one is ready without a folder after an earlier folder. |
| Attestation.StaleFolderIsUsed | cmd/semteams/sandboxmanager/attestation.go:336-338 | A ready attestation without a folder would route into an earlier container. |
| SandboxManager.Manager.Request | cmd/semteams/sandboxmanager/manager.go:197-249 | Every request ends in exactly one shape, the one its normal form, matched profile, admission and probe results call for, with the reason that names the first fault, the unmet needs or the runner's error, and with the hash and signature of its content, and stamps it or nothing; one container starts, in the workspace of that signature, only after admission; after publishing, every passed probe's predicate reads back its own output. |
| SandboxManager.Manager.InvalidSays | cmd/semteams/sandboxmanager/manager.go:198-201 | An invalid request is turned down under the profile "unmatched@v0" with its first fault. |
| SandboxManager.Manager.UnmatchedSays | cmd/semteams/sandboxmanager/manager.go:211-215 | A request that no profile fits is turned down with its unmet needs. |
| SandboxManager.Manager.MatchedSays | cmd/semteams/sandboxmanager/manager.go:217-238 | A request that a profile fits is denied or left pending with every reason, or started; the answer names the profile, and stays fresh for a day unless the profile says otherwise. |
| SandboxManager.Manager.WorkspaceFor | cmd/semteams/sandboxmanager/manager.go:285-295 | The workspace path is the trimmed root, the first sixteen characters of the signature of profile and content, and "workspace". |
| SandboxManager.Manager.WhereContainersAre | cmd/semteams/sandboxmanager/manager.go:197-295 | In any sequence of requests the containers lie below the root, and two of them share a workspace exactly when the first sixteen characters of their signatures are the same. |
| SandboxManager.StampReadsBack | cmd/semteams/sandboxmanager/attestation.go:358-378 | Whatever the log held before, after a validated request's stamp each passed probe with output reads back under its own predicate. |
| SandboxManager.Manager.Requests | cmd/semteams/sandboxmanager/manager.go:197-249 | After any sequence of requests on any chains, every chain's history has grown by exactly the attestations published on it, in order, each answering its own request, and exactly the recorded containers have been started. |
| SandboxManager.Manager.RunProbes | cmd/semteams/sandboxmanager/manager.go:264-279 | One result per probe in order, with the probe's own name and expected exit. |
| SandboxManager.Manager.Stamp | cmd/semteams/sandboxmanager/manager.go:322-337 | The triples of one attestation are appended to its chain and to no other, or to none. |
| SandboxManager.Manager.RouteCommand | cmd/semteams/sandboxruntime/attestation_runner.go:83-157 | A command is wrapped for the last stamped attestation's folder when that one was ready, and passed on unchanged otherwise. |
| SandboxManager.Manager.Session | cmd/semteams/sandboxruntime/attestation_runner.go:83-157 | After any sequence of requests on any chains, the last attestation they published on a chain decides where a command on that chain goes: wrapped for its folder if it was ready and the entity can be read, unchanged otherwise. |
| SandboxManager.RouteFollowsLast | cmd/semteams/sandboxruntime/attestation_runner.go:120-157 | In every history that requests can produce, the router goes exactly by the last attestation. |
| ShellQuoting.JoinRoundTripIffNulFree | cmd/semteams/sandboxmanager/runner_api.go:330-336 | A word reader after sections 2.2.1, 2.2.2 and 2.3 of the POSIX.1-2017 Shell Command Language reads the joined line back as exactly the arguments, precisely when none holds a NUL. |
| ShellQuoting.JoinInjective | cmd/semteams/sandboxmanager/runner_api.go:320-336 | Different argument lists never share a command line. |
| ShellQuoting.WrapIsSevenWords | cmd/semteams/sandboxruntime/attestation_runner.go:172-192 | A wrapped command is seven words, the fourth the folder and the last the original command. |
| ShellQuoting.NestedWrapping | cmd/semteams/sandboxruntime/attestation_runner.go:172-209 | However deeply wrapped, the folders and the command are read back unchanged. |
| ShellQuoting.JoinShell | cmd/semteams/sandboxmanager/runner_api.go:330-336 | The loop that fills the slice of quoted arguments gives that line. |
| ShellQuoting.WrapDevcontainerExec | cmd/semteams/sandboxruntime/attestation_runner.go:172-192 | The loop that quotes the seven tokens gives that line. |

## Left out

- NATS and HTTP subscribers, publishers, decoders and boot wiring, and the run-anchor lookup around `RecordApproval`: plumbing over other libraries.
- JSON, UUIDs, SHA-256, time parsing and entity identifiers: encodings are injective functions or values, a stored object carries its text, its list form and its timestamp, the digest is any function, times are carried along.
- File access in `change.go`, the folder printer, the sandbox server and the container runners beyond their promise that a started container has a folder.
- The user interface, measurement scripts, vocabulary tables and entity-extraction scoring.
- Letter case outside ASCII: lowering and raising is modelled for ASCII letters; white space is the full set that the code trims.
- Text is characters, not bytes: length limits on verified output count characters.
- Characters beyond ASCII inside a quoted name of a reason or fault stand for themselves, while the code escapes unprintable ones.
- Findings of warning severity: no branch of the analyzer emits one.
- The pauser's translation of events into `RecordApproval` calls, which adds only easy members.
- ApprovalFacts.ApprovalFacts: a stored integer and a stored floating-point number of the same whole value are one number, a count that is not whole is an opaque value, which the scan refuses as the code does, and a confidence is the number that its 64 bits spell; the text of a gate is any function that tells values apart (`ApprovalEncoding` has one).
- DeltaFacts.DeltasFromIndex: the set of seen pairs is keyed by pairs, while the code joins capability and rid with a NUL byte; these differ only for hand-written keys that contain a NUL.
- TaskFacts.IntChildIndices: numbers are unbounded, so a key segment beyond the machine's integers is read as a number.
- ProofFacts.ParseProofFacts: a record is a map from field to stored value and is trimmed, lowered or listed when read rather than when stored.
- Admission.AdmissionCheck: the five loops of the code run as one loop over all requirements in the same order.
- SandboxManager.Manager.Request: the runner's error is any text, and the time is given with the call.

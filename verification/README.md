# A verified model of Codex Task Console

Codex Task Console plans a Big Task as a graph of subtasks, dispatches one write-capable subtask at a time to a Codex
app server, and checks what comes back. This project models the parts whose correctness is hardest to see by reading and
proves what they are for:

- **Dependency graph, dispatch and completion.** Cycle detection by Kahn's algorithm on a multigraph is exact; a plan
  validates exactly when it is sound; the canonical binding identifies plans up to the order of their dependencies; a
  validated graph never deadlocks the serial dispatcher, and a whole run is a linear extension of the blocking edges. The
  stages of one Subtask end after at most eight transitions.
- **JSON text scanners.** The strict scanner accepts exactly the texts of RFC 8259 (sections 2 to 7) with distinct names
  and depth at most 64; the fast key scanner returns exactly the decoded top-level names of every JSON object text.
- **JSON Schema evaluator.** The sets of strings and the object signatures it computes agree with the meaning of the
  schema (section 10.2.1 of JSON Schema Core 2020-12; sections 6.1.1 to 6.1.3 and 6.5.3 of JSON Schema Validation
  2020-12), references resolve as RFC 6901 says (sections 3 and 4), and the recursion ends without its operation budget.
- **App server client.** Framing does not depend on how the byte stream is cut; every request settles exactly once, and
  with distinct ids every reply settles the request it answers; the turn tracker reaches its terminal event once, over a
  finished turn of the authorised identities.
- **Runtime selector.** From every file, over every interleaving and crash, one process at a time is inside the lock and
  the stored selector is the fold of the committed operations.
- **History paging, job pool, execution windows.** Pages of a growing history, a bounded first-in first-out pool, and the
  time windows of an execution.

Each file holds one module. Where the original changes state step by step the model is a class or a method with loops,
proved against a specification function; the properties are proved about that function. Text is a sequence of UTF-16
code units (`CodeUnits.Text`) wherever the original works on JavaScript strings; byte streams are sequences of bytes.

Seven things the original does that its callers may not expect, each stated by a lemma:

- Duplicate edges are recognised by the text `upstream->downstream`, so two different edges can collide, exactly when one
  upstream id is the other with an arrow and more behind it (`EdgeKeys.KeyCollisionExact`).
- The fallback after a successful validation in `materializeApprovedPlan`, and the dispatcher's branch for an invalid
  readiness result, are never taken (`Graph.MaterializationExact`, `Dispatch.ReadinessAlwaysValid`).
- The set computed for one property treats the branches of a oneOf as if they differed in that property alone; with
  overlapping branches the literal check can hold for a literal that an accepted object does not carry
  (`PropertyLiterals.MisleadingCheckExists`); exactly when it is right for validators that enforce exactly one is
  `PropertyChoices.LiteralForcedExactly`.
- The set for one property is refused for an active path when a reference inside the property's own schema leads to a
  path that was followed outside it, although such a schema can have a meaning
  (`SchemaRefusals.PropertyRefusalCanBeUnfounded`); where no limit stops the evaluation first, this happens exactly when a
  walk that carries the active paths into the property's schema fails (`SchemaRefusals.PropertyRefusals`).
- A request that timed out, was cancelled or whose onSent hook threw leaves its id free; a later request may reuse it
  and be settled by the first request's late response (`RequestReplies.LateResponseSettlesTheReusedId`). That takes a
  reused id (`RequestReplies.ExposedExactly`), and the client is not exported: its callers use each id once per client,
  1 to 5 in a turn and 1, 2, 10, 11, ... in a listing (`packages/codex-adapter/src/live-execution.ts:1607-1781`, 2102-2281,
  2551-2700 and 2840-2845), so every reply settles its own request (`RequestReplies.DistinctIdsSettleTheirRequests`).
- A STANDARD Subtask can move from EXECUTE to FRESH_QA, but the serial dispatcher and its stage table predate that: a
  graph with such a Subtask is invalid input to it until the Subtask is complete (`WorkflowStages.ReachedExactly`). The
  dispatcher is exported (`packages/orchestration/src/index.ts:62`) and has no caller in the repository.
- A QA recovery may shorten the execution window it replaces (`ExecutionWindows.QaRecoveryCanShorten`).

The bound on the cursor of the history command is not one of them. A reader gets past it only in a history of more than
10000 transitions (`HistoryPaging.CursorsWithinBounds`, `HistoryPaging.LongHistoryIsCutShort`), and no subtask has one: its
transitions are those of its stages, one for each recorded step (`packages/storage/src/task-storage.ts:2806`), and there
are at most eight (`WorkflowStages.RunsAreShort`).

## Model

| member | source | states |
|---|---|---|
| BlockingGraph.SourceFreeIsFromCycle | packages/domain/src/dependencies.ts:167-216 | a finite set of nodes in which every node has a predecessor lies downstream of a cycle: why what Kahn's algorithm leaves over is exactly the cycle report |
| BlockingGraph.VisitLowersDegrees | packages/domain/src/dependencies.ts:192-207 | visiting a node lowers the unvisited in-degree of each node by the number of parallel edges to it |
| Dependencies.CountDegrees | packages/domain/src/dependencies.ts:171-184 | the degree and adjacency maps count every edge of the multigraph, parallel edges included |
| Dependencies.LowerTargets | packages/domain/src/dependencies.ts:198-206 | lowering the targets of a visited node keeps the invariant that ready holds exactly the unvisited nodes of degree zero |
| Dependencies.UnvisitedAreFromCycle | packages/domain/src/dependencies.ts:209-215 | when nothing is ready, a node is unvisited, and has a positive degree, exactly when some cycle leads to it |
| Dependencies.FindCycleMembers | packages/domain/src/dependencies.ts:167-216 | the loop returns exactly the nodes reachable from a cycle, sorted, each once |
| DependencyValidation.CycleMembersExact | packages/domain/src/dependencies.ts:167-216 | the report is empty if and only if the graph is acyclic; otherwise its members are exactly the nodes some cycle reaches, sorted and distinct |
| DependencyValidation.CheckEdges | packages/domain/src/dependencies.ts:89-153 | the edge loop reports self edges, missing endpoints, endpoints of different Big Tasks and repeated keys, in order, and passes on the edges that enter cycle detection |
| DependencyValidation.ValidateSubtaskDependencies | packages/domain/src/dependencies.ts:79-165 | the whole error list of a validation, edge errors first and the cycle report last |
| DependencyValidation.ValidationExact | packages/domain/src/dependencies.ts:79-165 | no error is reported if and only if endpoints are known and in one Big Task, no edge is a loop, no key repeats and the blocking edges are acyclic |
| DependencyErrors.EdgeErrorsExact | packages/domain/src/dependencies.ts:89-153 | an error is in the list of the edge loop if and only if its code names a defect of the edge with its index, with the ids of that defect; the list goes edge by edge, each check once |
| DependencyErrors.ErrorsExact | packages/domain/src/dependencies.ts:79-165 | the whole error list: those errors, and last, exactly on a cyclic graph, one with the sorted nodes that some cycle reaches |
| DependencyErrors.ByIdExact | packages/domain/src/dependencies.ts:86-88 | of Subtasks with the same id the last one counts |
| EdgeKeys.KeyCollisionExact | packages/domain/src/dependencies.ts:92-113 | two edges share a key if and only if they are the same edge or one upstream id extends the other across an arrow |
| EdgeKeys.ArrowFreeKeysAreInjective | packages/domain/src/dependencies.ts:92-113 | without an arrow inside upstream ids, equal keys mean equal edges |
| EdgeKeys.DistinctEdgesCanCollide | packages/domain/src/dependencies.ts:92-113 | two different edges between legal ids whose keys are equal |
| Readiness.EvaluateSubtaskDependencyReadiness | packages/domain/src/dependencies.ts:264-392 | the readiness result: duplicate ids, graph errors, a missing downstream once, and the sorted blockers |
| Readiness.ReadinessExact | packages/domain/src/dependencies.ts:247-392 | the result is valid exactly on a valid graph of distinct subtasks with a known downstream; its blockers are then exactly the blocking edges into it whose upstream misses the gate, with gate, maturity and reason, one for each upstream in strictly ascending order; and it is ready exactly when there is none |
| Readiness.GateExact | packages/domain/src/dependencies.ts:247-262 | in the order NOT_STARTED, IMPLEMENTED, HARDENED, ACCEPTED a HARDENED or ACCEPTED gate is met exactly from its rank on, verified or not, and a VERIFIED gate exactly by a verified upstream, whatever its maturity |
| CodeUnits.BelowExact | packages/domain/src/dependencies.ts:244-245 | one text is below another exactly when they agree up to a place where it ends or has the smaller code unit |
| Sorting.SortStable | packages/domain/src/big-task-execution.ts:166-168 | elements that tie keep their order |
| Decimals.CanonicalIsPrinted | packages/codex-adapter/src/c-lite-compatibility.ts:2254-2260 | an index segment without superfluous zeros is the printed form of the number it reads as, so an index has one path |
| JsonValue.ChildExact | packages/codex-adapter/src/c-lite-compatibility.ts:2247-2268 | one pointer step leads to the item whose printed index it is, or to the member with that name, and nowhere else |
| JsonStringify.StringifyInjective | packages/orchestration/src/graph.ts:209-231 | JSON.stringify of the values used in a binding is injective, escapes and lone surrogates included |
| JsonRoundTrip.QuotedReads | packages/orchestration/src/graph.ts:209-231 | JSON.parse of the quoted form of any string, lone surrogates included, is that string |
| JsonRoundTrip.StringifyReads | packages/orchestration/src/graph.ts:209-231 | the text of every nested value is an RFC 8259 text that reads as that value |
| JsonRoundTrip.BindingReads | packages/orchestration/src/graph.ts:209-231 | the binding is a JSON text that reads as the version, project, Big Task and revision, the Subtasks in order and the sorted dependencies, field by field |
| JsonRoundTrip.UnitTextExact | packages/orchestration/src/graph.ts:209-231 | a code unit is written as itself, as a two-letter escape for seven units, or as four hexadecimal digits in lower case |
| Graph.BindingCanonical | packages/orchestration/src/graph.ts:190-231 | two candidates have equal bindings if and only if project, Big Task, revision and subtask sequence agree and the dependencies are permutations of each other |
| Graph.CheckSubtasks | packages/orchestration/src/graph.ts:260-271 | the subtask loop reports foreign Big Tasks and repeated ids in order |
| Graph.ValidatePlan | packages/orchestration/src/graph.ts:245-301 | the validation result: the errors, or the candidate with sorted dependencies |
| Graph.PlanValidationExact | packages/orchestration/src/graph.ts:245-301 | validation succeeds if and only if the plan is sound: distinct subtasks of its Big Task and a valid dependency graph, whatever the order of the dependencies |
| Graph.PlanErrorsExact | packages/orchestration/src/graph.ts:245-301 | a plan that is not sound is refused as a whole when its revision or size is out of range, and otherwise with exactly the repeated ids, the ids of foreign Big Tasks and the dependency errors that it has |
| Graph.ValidationNormalizes | packages/orchestration/src/graph.ts:245-301 | a sound plan is returned as its own normal form, with its subtask order kept and its dependencies sorted |
| Graph.NormalFormAscends | packages/orchestration/src/graph.ts:190-207 | the dependencies of a sound plan come out strictly ascending by upstream and then by downstream |
| Graph.ParseGraph | packages/orchestration/src/graph.ts:310-351 | parsing validates the graph's plan, compares the binding and returns the normal form |
| Graph.ParseExact | packages/orchestration/src/graph.ts:310-351 | a graph parses if and only if its plan is sound and it carries that plan's binding; the result differs only in sorted dependencies |
| Graph.ParseIdempotent | packages/orchestration/src/graph.ts:310-351 | parsing a parsed graph returns it unchanged |
| Graph.MaterializationExact | packages/orchestration/src/materialization.ts:13-51 | a plan is materialized if and only if it is sound, into a graph of the same plan that carries its own binding and parses to itself, so the fallback after validation is unreachable |
| Graph.MaterializationRefusals | packages/orchestration/src/materialization.ts:13-51 | without an approved plan the authority is missing, and a plan that is not sound is refused with its validation errors |
| Dispatch.FillStates | packages/orchestration/src/dispatch.ts:208-215 | the state map is built exactly when no subtask has two states |
| Dispatch.CheckCoherent | packages/orchestration/src/dispatch.ts:199-255 | a request is coherent exactly when bindings and project agree, states and facts cover the graph once each, stages suit profiles and maturities, and active ids are canonical, distinct and within their limit |
| DispatchDecisions.CoherentExact | packages/orchestration/src/dispatch.ts:187-255 | a request is coherent if and only if the bindings and the project are those of the graph, states and facts are permutations of its ids, every state is allowed for its profile with a maturity before, at or after the start of execution, and at most one writer is active |
| Dispatch.ReadinessAlwaysValid | packages/orchestration/src/dispatch.ts:284-291 | on a coherent request over a parsed graph the readiness evaluation of every subtask is valid |
| Dispatch.SearchCandidates | packages/orchestration/src/dispatch.ts:267-315 | the loop collects the eligible ids and the blockers of the other candidates in graph order |
| Dispatch.SelectSerialWriteDispatch | packages/orchestration/src/dispatch.ts:163-331 | the dispatch result for every request: invalid input, an active writer, the first eligible subtask, or the block reason of highest priority |
| DispatchDecisions.DecisionExact | packages/orchestration/src/dispatch.ts:151-331 | for every request: incoherent ones are invalid input; otherwise the tasks that may start (write-enabled, at EXECUTE, every gate met by the stage and maturity of its upstream, all facts true) are eligible in graph order, an active writer blocks, the first of them is selected and the rest are left over, and with none the reason is one some candidate lacks, of the highest priority among all they lack, and a human is asked exactly when that is the approval |
| DispatchDecisions.CompletionExact | packages/orchestration/src/completion.ts:55-105 | for every request: invalid exactly when the states are no permutation of the graph or something is complete that never started, otherwise blocked by the unfinished tasks in graph order, or eligible when there are none |
| WorkflowStages.MoveExactly | packages/orchestration/src/stages.ts:339-544 | a stage transition is eligible if and only if there is such a transition for the profile, the repair cycles are in step and within the limit, the QA outcome leads there, and exactly the evidence of the stage is given and holds; it then leads to the requested stage |
| WorkflowStages.InvalidInputExactly | packages/orchestration/src/stages.ts:339-520 | a transition is refused as invalid input if and only if the repair cycles do not fit the stage or the limit, or something is given that the stage does not ask for |
| WorkflowStages.QaRefusalsExactly | packages/orchestration/src/stages.ts:380-480 | with valid input quality assurance is refused for evidence exactly without a recorded outcome, and as an invalid transition exactly where the request is not where the outcome leads |
| WorkflowStages.OtherTransitionsRefused | packages/orchestration/src/stages.ts:481-520 | elsewhere, with valid input, a transition is refused as invalid exactly where the profile has no such one |
| WorkflowStages.MissingEvidenceExactly | packages/orchestration/src/stages.ts:296-311 | where only evidence is missing, dependencies are named before budget and concurrency, and a human is asked exactly when the approval is missing and none of these is |
| WorkflowStages.ExhaustedExactly | packages/orchestration/src/stages.ts:397-475 | the repair cycles are exhausted if and only if quality assurance fails with as many cycles used as the limit allows |
| WorkflowStages.CompletionNeedsVerdict | packages/orchestration/src/stages.ts:339-544 | a Subtask is completed only on verification evidence or on a quality assurance that passed |
| WorkflowStages.RunsAreShort | packages/orchestration/src/stages.ts:339-544 | in every run from the first stage on there are at most eight transitions, no more repair cycles than the limit, and nothing after COMPLETE |
| WorkflowStages.ReachedExactly | packages/orchestration/src/dispatch.ts:53-72 | the stages that runs of each profile reach, and of these the dispatcher shuts out exactly FRESH_QA, REPAIR and FOCUSED_RE_QA of STANDARD Subtasks |
| Dispatch.EvaluateBigTaskCompletion | packages/orchestration/src/completion.ts:55-105 | the completion result for every request: invalid, blocked with the incomplete ids, or eligible |
| DispatchRuns.RunnableCoherent | packages/orchestration/src/dispatch.ts:199-255 | a snapshot of EXECUTE and COMPLETE tasks over a parsed graph is a coherent request |
| DispatchRuns.SomethingUnblocked | packages/domain/src/dependencies.ts:247-262 | while tasks are unfinished on a valid graph, one of them has no unfinished blocking upstream |
| DispatchRuns.NoDeadlock | packages/orchestration/src/dispatch.ts:163-331 | with all tasks executable or complete, write-enabled and their facts true, a task is selected while any is unfinished, the eligible list is exactly the unblocked unfinished tasks, and otherwise nothing is selected |
| DispatchRuns.CompletionExactly | packages/orchestration/src/completion.ts:55-105 | completion is eligible if and only if no task is unfinished |
| DispatchRuns.RunInvariant | packages/orchestration/src/dispatch.ts:163-331 | completing selected tasks one after the other keeps the snapshot runnable and dispatches each task at most once |
| DispatchRuns.RunRespectsEdges | packages/orchestration/src/dispatch.ts:270-331 | a task is dispatched only after every blocking upstream is finished |
| DispatchRuns.RunIsLinearExtension | packages/orchestration/src/dispatch.ts:163-331 | every run dispatches distinct unfinished tasks in an order that respects every blocking edge, never stops early, and at full length has dispatched exactly the unfinished tasks, after which completion is eligible |
| DispatchRuns.CompleteRunExists | packages/orchestration/src/dispatch.ts:163-331 | from every runnable snapshot some run finishes all unfinished tasks |
| JsonTokens.JsonParseStringExact | packages/domain/src/json-boundary.ts:17-41 | JSON.parse of a token succeeds exactly on the strings of section 7 of RFC 8259 and decodes them |
| JsonTokens.ScanStringSound | packages/domain/src/json-boundary.ts:17-41 | a scanned string token derives from the grammar and its value is the decoded one |
| JsonTokens.ScanStringComplete | packages/domain/src/json-boundary.ts:17-41 | every string of the grammar is scanned to its closing quote, with its decoded value |
| JsonTokens.NumberSound | packages/domain/src/json-boundary.ts:107-109 | a match of the number pattern derives from section 6 of RFC 8259 |
| JsonTokens.NumberComplete | packages/domain/src/json-boundary.ts:107-109 | the pattern matches every number of the grammar in full when no further number unit follows |
| JsonBoundary.ScanObject | packages/domain/src/json-boundary.ts:50-80 | the member loop, with its growing set of keys, computes the specified end or failure |
| JsonBoundary.ScanArray | packages/domain/src/json-boundary.ts:81-101 | the element loop computes the specified end or failure |
| JsonBoundary.ScanJsonValue | packages/domain/src/json-boundary.ts:42-110 | the recursive scan computes the specified end; it terminates because each successful scan moves the cursor forward |
| JsonBoundary.ValueSound | packages/domain/src/json-boundary.ts:42-110 | a successful scan has read a derivation with distinct names within the depth limit |
| JsonBoundary.ValueComplete | packages/domain/src/json-boundary.ts:42-110 | every derivation with distinct names within the depth limit is scanned exactly to its end |
| JsonBoundary.UnambiguousExact | packages/domain/src/json-boundary.ts:3-115 | the scan accepts a text if and only if it is an RFC 8259 text whose objects have distinct decoded names and whose values sit at depth at most 64 |
| JsonBoundary.HasUnambiguousJsonStructure | packages/domain/src/json-boundary.ts:3-115 | the scanner as it runs accepts exactly those texts |
| TopLevelKeys.ScanBracketed | packages/local-control/src/http-server.ts:231-257 | the bracket-stack loop computes the specified end of a container |
| TopLevelKeys.InsideBalanced | packages/local-control/src/http-server.ts:231-257 | over the text of one container the stack loop stops exactly at its closing bracket, whatever strings and numbers it holds |
| TopLevelKeys.ValueSkipped | packages/local-control/src/http-server.ts:227-263 | a derived value and the space after it are skipped up to the separator that follows |
| TopLevelKeys.CollectKeys | packages/local-control/src/http-server.ts:275-308 | the key loop computes the specified list of names or failure |
| TopLevelKeys.KeysAgreeWithGrammar | packages/local-control/src/http-server.ts:265-309 | on every RFC 8259 text that is an object the result is exactly its decoded top-level names, in order and with repeats; on every other JSON text it is null |
| TopLevelKeys.FindTopLevelObjectKeys | packages/local-control/src/http-server.ts:265-309 | the scanner as it runs computes that result for every text |
| JsonPointer.TwoPassesAreOne | packages/codex-adapter/src/c-lite-compatibility.ts:2273-2278 | two-pass decoding equals the left-to-right reading of section 4 of RFC 6901 and fails on exactly the same segments |
| JsonPointer.EscapeRoundTrip | packages/codex-adapter/src/c-lite-compatibility.ts:2273-2278 | decoding inverts escaping for every name |
| JsonPointer.ResolveReference | packages/codex-adapter/src/c-lite-compatibility.ts:2230-2271 | the resolution of every local reference, its errors included |
| JsonPointer.ResolvedPathIsInPaths | packages/codex-adapter/src/c-lite-compatibility.ts:2230-2271 | a resolved path is one of the finitely many paths of the document and leads to an object |
| JsonPointer.PointerResolves | packages/codex-adapter/src/c-lite-compatibility.ts:2230-2271 | the escaped pointer of any path resolves to the object at that path, if there is one |
| JsonPointer.ReferenceExact | packages/codex-adapter/src/c-lite-compatibility.ts:2230-2278 | a reference resolves to an object if and only if it is a number sign and the encoded pointer of the path that leads to that object |
| JsonPointer.PointerRoundTrip | packages/codex-adapter/src/c-lite-compatibility.ts:2230-2296 | for an object-key path, reference resolution and direct descent give the same node and path |
| StringSets.UnionBoundedStringSets | packages/codex-adapter/src/c-lite-compatibility.ts:1908-1920 | the union loop, with its early return on an unbounded set and its throw over the limit |
| StringSets.UnionMeans | packages/codex-adapter/src/c-lite-compatibility.ts:1908-1920 | a returned union holds exactly the strings some operand holds |
| StringSets.ExactlyOneBoundedStringSet | packages/codex-adapter/src/c-lite-compatibility.ts:1922-1950 | the exactly-one combination with its counting loop |
| StringSets.ExactlyOneMeans | packages/codex-adapter/src/c-lite-compatibility.ts:1922-1950 | a returned combination holds exactly the strings that one operand holds |
| StringSets.ExactlyOneGivesUpWhenItMust | packages/codex-adapter/src/c-lite-compatibility.ts:1933-1937 | the combination returns null if and only if no bounded set holds exactly those strings |
| SchemaLimits.UnionExact | packages/codex-adapter/src/c-lite-compatibility.ts:1908-1920 | the union throws if and only if the finite operands before the first unbounded one hold too many strings together |
| SchemaLimits.ExactlyOneThrows | packages/codex-adapter/src/c-lite-compatibility.ts:1922-1950 | the combination throws if and only if no operand is unbounded and together they hold too many strings |
| SchemaNodes.SubschemasExact | packages/codex-adapter/src/c-lite-compatibility.ts:2319-2327 | a keyword has subschemas exactly where it is absent or an array of objects |
| SchemaNodes.PropertySchemaExact | packages/codex-adapter/src/c-lite-compatibility.ts:1672-1691 | the schema of a property is the object under its name, absent where there is no such name, and an error for any other shape |
| SchemaSignatures.NamesExact | packages/codex-adapter/src/c-lite-compatibility.ts:2309-2337 | required names are the strings of an array of strings, property names the keys of an object |
| SchemaMeaning.UnsupportedExact | packages/codex-adapter/src/c-lite-compatibility.ts:1856-1872 | the evaluator gives up on exactly the keywords of JSON Schema that may constrain a string and are outside the meaning |
| SchemaNodes.TargetShrinksTheRest | packages/codex-adapter/src/c-lite-compatibility.ts:2206-2228 | following a reference that is not active leaves strictly fewer paths: the first component of the termination measure |
| SchemaMeaning.DecisionStands | packages/codex-adapter/src/c-lite-compatibility.ts:1755-1852 | what a schema decides about a string at one depth of unfolding it decides at every greater depth |
| SchemaMeaning.StringSetsAreExact | packages/codex-adapter/src/c-lite-compatibility.ts:1665-1852 | a returned set is exact: the schema's meaning is defined on every string and accepts it if and only if the set holds it, and no depth of unfolding says otherwise |
| PropertyChoices.OccursExactly | packages/codex-adapter/src/c-lite-compatibility.ts:1665-1753 | a property is a string s in some object that some validator enforcing type, required, properties, references, allOf, anyOf and oneOf (exactly one) accepts if and only if some choice among the finitely many schemas contains the node and is closed under those rules for s |
| PropertyChoices.PropertySetExact | packages/codex-adapter/src/c-lite-compatibility.ts:1665-1753 | the computed set holds every string that the property has in an accepted object, for all those validators, if and only if the property schemas taken alone reject no string that some choice allows |
| PropertyReadings.AgreeingReadingsSuffice | packages/codex-adapter/src/c-lite-compatibility.ts:1665-1753 | the set is right where reading each oneOf on the way as at-least-one permits nothing that the exact reading rejects |
| PropertyReadings.SeparatedReadingsAgree | packages/codex-adapter/src/c-lite-compatibility.ts:1716-1752 | that holds where the branches of each oneOf on the way allow no string in common |
| PropertyChoices.LiteralForcedExactly | packages/codex-adapter/src/c-lite-compatibility.ts:1644-1663 | every accepted object whose property is a string carries the literal if and only if no closed choice of schemas allows another string |
| PropertyReadings.OnlyPermittedIsForced | packages/codex-adapter/src/c-lite-compatibility.ts:1644-1663 | the literal check is right where the at-least-one reading permits no other string |
| PropertyLiterals.PermittingIsNotNecessary | packages/codex-adapter/src/c-lite-compatibility.ts:1644-1753 | a oneOf with one branch given twice: check and set are right although the at-least-one reading permits another string |
| PropertyLiterals.MisleadingCheckExists | packages/codex-adapter/src/c-lite-compatibility.ts:1644-1753 | a document, a validator that follows the keywords exactly, and an object it accepts with another literal than the one for which the literal check holds |
| SchemaDefinedness.CyclesMeanNothing | packages/codex-adapter/src/c-lite-compatibility.ts:2206-2228 | a schema that leads back to itself through references or combinators, never through properties, has no meaning on any string |
| SchemaDefinedness.MeaningExactlyWhenSound | packages/codex-adapter/src/c-lite-compatibility.ts:1665-1852 | a schema has a meaning, on every string at some depth of unfolding, if and only if a terminating walk finds every reference resolvable and never active, every keyword well-formed and none refused, where the walk starts the schema of a property with no active path; otherwise no depth decides anything |
| SchemaRefusals.RefusedSchemasMeanNothing | packages/codex-adapter/src/c-lite-compatibility.ts:1755-1852 | with a string in focus, a schema refused for an active path, a bad shape or a refused keyword has no meaning at any depth; one that has a meaning is refused only for the size limit or for branches that no bounded set combines |
| SchemaLimits.EnoughRoom | packages/codex-adapter/src/c-lite-compatibility.ts:1952-1959 | with room for the strings listed in const and enum and for the branches of each oneOf and anyOf, over the node and the document, the size limit never stops the evaluation |
| SchemaLimits.LargerLimitSameResult | packages/codex-adapter/src/c-lite-compatibility.ts:1755-1959 | a larger limit gives the same result, a set or not, wherever the smaller one was not exceeded |
| SchemaRefusals.KnownIsSound | packages/codex-adapter/src/c-lite-compatibility.ts:1665-1852 | a set is computed only where every list of strings and every number of branches met is within the limit |
| SchemaFaults.RefusalsExplained | packages/codex-adapter/src/c-lite-compatibility.ts:1665-1852 | every refusal but the size limit's has its reason among the schemas read: null comes from a keyword that is not followed or from a oneOf whose strings no bounded set holds, an exception from a malformed keyword or from a reference back to a path on the way; with room for the listed strings and the branches, a set is returned if and only if nothing that is read has such a fault |
| SchemaRefusals.PropertyRefusalCanBeUnfounded | packages/codex-adapter/src/c-lite-compatibility.ts:1676-1683 | a reference to a root whose property refers to the root: the property set is refused for an active path, under every limit, although every string is accepted at every depth from 4 on |
| SchemaRefusals.PropertyRefusals | packages/codex-adapter/src/c-lite-compatibility.ts:1665-1852 | with a property in focus, a schema on which the walk that carries the active paths into the property schema succeeds has a meaning and is stopped by nothing but the limits, and no set is computed for any other; so a meaningful schema that no limit stops is evaluated if and only if that walk succeeds, is refused for an active path if and only if it fails, and then lies on a loop that crosses the property |
| SchemaSignatures.MergeMeans | packages/codex-adapter/src/c-lite-compatibility.ts:2047-2067 | a key set is covered by the merged list if and only if both lists cover it |
| SignatureMeaning.SignaturesAreFaithful | packages/codex-adapter/src/c-lite-compatibility.ts:1979-2045 | a key set meets the schema's type and required keywords through references, every conjunct and some branch of each oneOf and anyOf if and only if it contains the required set of some signature |
| SignatureMeaning.ObjectContractExact | packages/codex-adapter/src/c-lite-compatibility.ts:1961-1977 | the contract check is true if and only if some key set meets the schema and all that do have the required fields and declare the properties |
| SignatureCounts.SignaturesExactly | packages/codex-adapter/src/c-lite-compatibility.ts:1979-2067 | the list is computed if and only if every schema met is well formed, no reference is active, and branches and products of alternatives stay within the limit; it then has as many entries as there are alternatives (sums over branches, products over conjuncts and references) |
| SignatureCounts.ContractAnsweredExactly | packages/codex-adapter/src/c-lite-compatibility.ts:1961-1977 | the contract check answers under the same condition |
| ObjectContracts.ContractedObjectsHaveTheFields | packages/codex-adapter/src/c-lite-compatibility.ts:1961-2045 | every object accepted at a contracted schema, by any validator that enforces these keywords and possibly more, has all the required fields |
| SchemaContext.SchemaValidationContext.FollowReference | packages/codex-adapter/src/c-lite-compatibility.ts:2206-2228 | following a reference within the operation budget gives the specified target or error |
| SchemaContext.SchemaValidationContext.EvaluateBoundedStringSet | packages/codex-adapter/src/c-lite-compatibility.ts:1665-1852 | within the budget the evaluators compute the specified result, over it they throw; they use one operation for each schema and each reference met, no more, and exactly these when a set is computed; and they terminate by unused paths and node size alone |
| SchemaContext.SchemaValidationContext.ObjectSignatures | packages/codex-adapter/src/c-lite-compatibility.ts:1979-2045 | the same for object signatures |
| SchemaContext.SchemaValidationContext.SchemaHasObjectContract | packages/codex-adapter/src/c-lite-compatibility.ts:1961-1977 | the same for the contract check |
| SchemaStructure.AssertBoundedSchemaStructure | packages/codex-adapter/src/c-lite-compatibility.ts:960-991 | the pending-stack walk accepts a document if and only if it has at most the allowed number of arrays and objects, none deeper than allowed |
| JsonlFraming.StdoutReader.ReceiveStdout | packages/codex-adapter/src/live-execution.ts:1240-1281 | one chunk: the early limit check, then the complete lines one by one up to the first failure |
| JsonlFraming.StdoutReader.FinalizeStdout | packages/codex-adapter/src/live-execution.ts:1213-1221 | the end of the stream fails on leftover bytes or an unclean close, once |
| JsonlFraming.LinesConcat | packages/codex-adapter/src/live-execution.ts:1255-1261 | the lines of a stream are the lines of its beginning and then the lines of the unfinished rest with what follows |
| JsonlFraming.LinesExact | packages/codex-adapter/src/live-execution.ts:1255-1261 | the complete lines with their line feeds and the unfinished rest are the stream, and hold no other line feed |
| JsonlFraming.StripCrExact | packages/codex-adapter/src/live-execution.ts:1266-1268 | one carriage return at the end of a line is dropped, and nothing else |
| JsonlFraming.HandedExactly | packages/codex-adapter/src/live-execution.ts:1262-1281 | the handler is given exactly the lines up to the first that fails, and that one unless it is over-long or empty, without their carriage returns |
| JsonlFraming.FramingExact | packages/codex-adapter/src/live-execution.ts:1213-1281 | after any chunks the handler has been given exactly the lines of the whole stream up to the first failure, and the clean end fails if and only if a line fails or bytes are left over |
| JsonlFraming.ChunkingDoesNotMatter | packages/codex-adapter/src/live-execution.ts:1213-1281 | two ways of cutting one stream hand over the same lines, reach the same state and fail or succeed together |
| RequestCorrelation.JsonlAppServerClient.MakeRequest | packages/codex-adapter/src/live-execution.ts:1135-1176 | a request is refused, fails to send, or waits as the newest pending one |
| RequestCorrelation.JsonlAppServerClient.HandleResponse | packages/codex-adapter/src/live-execution.ts:1314-1339 | a response settles the pending request with its id, or fails the connection |
| RequestCorrelation.JsonlAppServerClient.CancelAll | packages/codex-adapter/src/live-execution.ts:1178-1183 | cancellation settles every pending request |
| RequestCorrelation.JsonlAppServerClient.FailWith | packages/codex-adapter/src/live-execution.ts:1384-1395 | the first failure settles every pending request; later ones change nothing |
| RequestCorrelation.StepKeepsValid | packages/codex-adapter/src/live-execution.ts:1135-1183 | every event keeps pending ids distinct, unseen and within the cap, and each request in exactly one place |
| RequestCorrelation.EveryRequestSettlesOnce | packages/codex-adapter/src/live-execution.ts:1135-1395 | in every run each request is pending or settled, exactly once, and pending and seen ids are disjoint |
| RequestCorrelation.RunOnlyAddsToTheLog | packages/codex-adapter/src/live-execution.ts:1135-1395 | a settlement is never taken back or changed |
| RequestCorrelation.AllSettledAfterFailure | packages/codex-adapter/src/live-execution.ts:1178-1395 | after a failure or cancellation every request made so far is settled exactly once |
| RequestCorrelation.FailureIsForever | packages/codex-adapter/src/live-execution.ts:1141-1143 | after a failure pending stays empty whatever happens |
| RequestCorrelation.RequestExactly | packages/codex-adapter/src/live-execution.ts:1135-1176 | a request waits if and only if the connection stands, its id is neither pending nor seen, there is room and it was delivered; otherwise it is settled at once by the first of these that fails |
| RequestCorrelation.ResponseExactly | packages/codex-adapter/src/live-execution.ts:1306-1339 | a response resolves the pending request with its id where its result is accepted, rejects it where it is an error, and in every other case fails the connection and all that is pending |
| RequestCorrelation.SecondResponseFails | packages/codex-adapter/src/live-execution.ts:1311-1313 | a response to an id that was answered before fails the connection |
| RequestCorrelation.OtherEventsExactly | packages/codex-adapter/src/live-execution.ts:1152-1395 | a timer times its own request out if it is still pending, cancelling interrupts all, a failure fails all once |
| RequestReplies.StepKeepsTraced | packages/codex-adapter/src/live-execution.ts:1135-1183 | every event keeps each pending id the last one sent, with its request at the place of its ticket, and every reply with its id marked as seen |
| RequestReplies.ExposedExactly | packages/codex-adapter/src/live-execution.ts:1135-1339 | of every run: at some point an honest response would settle another request than the one it answers if and only if some request waited under an id with which an earlier request was sent |
| RequestReplies.ReusedIdsWereGivenUp | packages/codex-adapter/src/live-execution.ts:1135-1183 | in every run that earlier request got no reply: it timed out, was cancelled, or its onSent hook threw |
| RequestReplies.RepliesSettleTheirRequests | packages/codex-adapter/src/live-execution.ts:1314-1339 | in every honest run without such reuse, every result and error reply settled the request it answers |
| RequestReplies.DistinctIdsSettleTheirRequests | packages/codex-adapter/src/live-execution.ts:1607-1781 | in every honest run whose requests have pairwise distinct ids, as the callers choose them, every result and error reply settled the request it answers |
| RequestReplies.LateResponseSettlesTheReusedId | packages/codex-adapter/src/live-execution.ts:1152-1183 | after a timeout, a cancellation or a throwing onSent hook, a run in which the late response to the first request resolves a second request with the same id |
| TurnTracker.TurnEventTracker.HandleItemEvent | packages/codex-adapter/src/live-execution.ts:673-747 | one item event: identity, policy, tool lifecycle, status and agent message checks in order, with the state left where one throws |
| TurnTracker.TurnEventTracker.HandleOutputEvent | packages/codex-adapter/src/live-execution.ts:748-775 | an output delta is accepted only for a running tool of the matching type within the policy |
| TurnTracker.TurnEventTracker.HandleTurnCompletedEvent | packages/codex-adapter/src/live-execution.ts:806-840 | turn/completed is accepted exactly when the turn was sent, both ids are known and match, all tools completed and a phased message left a final answer |
| TurnTracker.TurnEventTracker.Receive | packages/codex-adapter/src/live-execution.ts:612-855 | one notification: the specified new state, the invariant of every run kept, and a terminal event left alone |
| TurnTracker.TurnEventTracker.ObserveTurnStartSent | packages/codex-adapter/src/live-execution.ts:867-874 | the turn is sent once, for the authorised thread, and only while authenticated |
| TurnTracker.TurnEventTracker.ObserveTurnResponse | packages/codex-adapter/src/live-execution.ts:876-886 | the turn id is authorised once, consistently with what was observed, and never after the terminal event |
| TurnRuns.StepKeepsIdentities | packages/codex-adapter/src/live-execution.ts:857-993 | observed and authorised ids never disagree, and every accepted turn event carried the observed ones after the turn was sent |
| TurnRuns.StepKeepsTools | packages/codex-adapter/src/live-execution.ts:995-1040 | the tool table mirrors the accepted history: started once, completed at most once, outputs in between |
| TurnRuns.TerminalIsFinal | packages/codex-adapter/src/live-execution.ts:642-648 | once set, the terminal event never changes in any further run |
| TurnRuns.TerminalMeansFinished | packages/codex-adapter/src/live-execution.ts:612-886 | with a terminal event the turn was sent, one turn/completed was accepted and its status is the terminal one, every accepted turn-scoped notification carried the authorised ids, and every started tool completed exactly once |
| TurnAcceptance.AcceptedExactly | packages/codex-adapter/src/live-execution.ts:612-855 | in every state of a run a notification is accepted if and only if it is admissible: identities fit, the policy allows its type, tools are in order by the accepted history, messages are new and fit, and a turn/completed finds the turn sent, its ids authorised, every tool completed and a final answer if phases were used |
| TurnAcceptance.AcceptanceChanges | packages/codex-adapter/src/live-execution.ts:612-855 | an accepted notification changes exactly the observed ids, tools, messages, account and terminal status that it names; a turn/completed leaves its own status |
| TurnAcceptance.PolicyExact | packages/codex-adapter/src/live-execution.ts:684-709 | the item types each policy lets through |
| TurnAcceptance.RunStaysWithinTypes | packages/codex-adapter/src/live-execution.ts:684-775 | no item or output of another type is accepted in any run |
| TurnAnswers.AnswerExact | packages/codex-adapter/src/live-execution.ts:571-747 | in a finished run in which nothing was refused the answer is the text of the final answer if any message carried a phase, otherwise that of the last completed message, and without messages what was streamed, in order |
| TurnAnswers.SignedInExactly | packages/codex-adapter/src/live-execution.ts:600-640 | the tracker knows the account as the events leave it, and is failed exactly once one of them broke the connection |
| TurnAnswers.CallsExactly | packages/codex-adapter/src/live-execution.ts:857-886 | the turn is sent exactly for the authorised thread, once, while the account is signed in and the connection stands; the responses name thread and turn once, as observed so far |
| TurnRuns.ToolsAreOrdered | packages/codex-adapter/src/live-execution.ts:995-1040 | in every run a tool starts once, completes once while it runs, and puts out only in between; at most 512 are tracked |
| TurnRuns.RunKeepsPolicy | packages/codex-adapter/src/live-execution.ts:684-697 | no tool event outside the event policy is ever accepted |
| TurnRuns.RunGrowsMessages | packages/codex-adapter/src/live-execution.ts:718-746 | agent texts stay within their limit in every run and a final answer is never replaced |
| TurnRuns.RunKeepsMessagesOnce | packages/codex-adapter/src/live-execution.ts:718-722 | each agent message is accepted as completed at most once |
| SelectorProtocol.StepExclusive | packages/codex-adapter/src/runtime-ownership.ts:730-792 | no step lets two processes inside the lock, and whoever is inside has the lock file |
| SelectorProtocol.StepStored | packages/codex-adapter/src/runtime-ownership.ts:660-728 | a rename installs exactly what the operation makes of the stored selector, so the file stays the fold of the committed operations |
| SelectorProtocol.SelectorIsSafe | packages/codex-adapter/src/runtime-ownership.ts:229-356 | from every file, over every interleaving with crashes: mutual exclusion; a history from the file to the stored selector in which each committed operation, in rename order, installs its selection over the one that was active; every returned read gives the selector stored at that moment; a selector of the history has active and previous different and no previous without an active if and only if an operation came before it or the first file was such; and a file that the reader refuses is neither returned nor replaced |
| SelectorProtocol.ApplyExact | packages/codex-adapter/src/runtime-ownership.ts:310-356 | an activation writes exactly when its selection is not active, a rollback exactly when there is a previous one; the new active is the selection or the previous one, and the old active becomes previous |
| SelectorProtocol.FailuresLeave | packages/codex-adapter/src/runtime-ownership.ts:660-810 | a crash inside the lock, or a release that fails, leaves the lock to no live process; neither these nor a thrown operation change the stored selector, and a temporary file stays unless it was unlinked |
| SelectorProtocol.RetainedLockFailsClosed | packages/codex-adapter/src/runtime-ownership.ts:794-810 | a lock that nobody holds stays, and nothing is written any more |
| SelectorProtocol.RollbackUndoes | packages/codex-adapter/src/runtime-ownership.ts:310-356 | for every selector: two rollbacks restore it if and only if it has an active selection; rolling back an activation restores what was active, or fails where nothing was |
| SelectorProtocol.UndisturbedOperation | packages/codex-adapter/src/runtime-ownership.ts:310-356 | an operation that finds the lock free and is left alone installs its selection if there is something to write, leaves no temporary file and frees the lock; otherwise, or over a file that the reader refuses, it changes nothing |
| SelectorProtocol.UndisturbedRead | packages/codex-adapter/src/runtime-ownership.ts:229-308 | a read that is left alone returns the stored selector if the reader accepts it |
| HistoryPaging.PageIsSlice | packages/local-control/src/governed-summary.ts:26-37 | a page of a numbered history is the slice after the cursor, and its next cursor is there exactly when something is left |
| HistoryPaging.ServerPagesAreAccepted | packages/local-control/src/operator.ts:580-591 | the client accepts every page the server builds |
| HistoryPaging.AcceptedPagesAreServerPages | packages/local-control/src/operator.ts:580-591 | every page the client accepts is the server's page of some history of that length |
| HistoryPaging.AppendingKeepsPages | packages/local-control/src/governed-summary.ts:26-37 | appending transitions leaves full pages unchanged and only extends a partial one |
| HistoryPaging.FollowReadsInOrder | packages/local-control/src/governed-summary.ts:26-37 | a reader of a growing history has read exactly the transitions up to its cursor, full pages while it goes on and a whole history when it stops |
| HistoryPaging.FollowStops | packages/local-control/src/governed-summary.ts:26-37 | against a history of bounded length the reader stops within bound / limit + 1 pages |
| HistoryPaging.FollowYieldsEverything | packages/local-control/src/governed-summary.ts:26-37 | on a fixed history the reader gets every transition once, in order |
| HistoryPaging.CursorsUpToLast | packages/local-control/src/governed-summary.ts:26-37 | every cursor a reader of a history meets is at most the start of its last page, and the reader does meet that one |
| HistoryPaging.CursorsWithinBounds | packages/local-control/src/operator.ts:811-817 | every cursor that following the pages of a history yields is accepted by the command line if and only if the limit is and the last page starts at 9999 at most |
| HistoryPaging.LongHistoryIsCutShort | packages/local-control/src/operator.ts:811-817 | a history of 10001 transitions read 20 at a time: after 500 pages the next cursor is refused with one transition unread |
| JobPool.ConsoleJobs.ScheduleJob | packages/local-control/src/console-application.ts:45-49 | scheduling ignores a known id, refuses once stopping, and otherwise queues and drains |
| JobPool.ConsoleJobs.DrainQueue | packages/local-control/src/console-application.ts:50-58 | the drain loop starts queued jobs from the front while slots are free |
| JobPool.ConsoleJobs.CancelQueued | packages/local-control/src/console-application.ts:141-142 | cancelling removes a queued job and touches no running one |
| JobPool.ConsoleJobs.StopAll | packages/local-control/src/console-application.ts:44 | stopping empties the queue and starts nothing |
| JobPool.ScheduleExactly | packages/local-control/src/console-application.ts:45-58 | a new job starts at once where fewer than four run and otherwise waits last; a known one, or any while stopping, changes nothing |
| JobPool.CompletionExactly | packages/local-control/src/console-application.ts:50-58 | when a job ends the first that waits takes its slot |
| JobPool.RemovalExactly | packages/local-control/src/console-application.ts:141-142 | cancelling drops the waiting job with that id and no other; stopping drops all that wait |
| JobPool.RunKeeps | packages/local-control/src/console-application.ts:44-58 | in every run at most four jobs run, they are the started ones that have not ended, none is also queued, jobs start in order of acceptance and at most once, and before a stop no job waits while a slot is free |
| JobPool.StoppedStartsNothing | packages/local-control/src/console-application.ts:44-58 | after a stop nothing starts |
| JobPool.WaitIsBounded | packages/local-control/src/console-application.ts:45-58 | a job with k queued ahead has started, or was cancelled, after k + 1 completions |
| ExecutionWindows.CheckWindows | packages/domain/src/big-task-execution.ts:158-175 | the window check of a status, with its sorted amendments and its expiry loop |
| ExecutionWindows.AcceptedExactly | packages/domain/src/big-task-execution.ts:158-175 | a status is accepted if and only if an approved one has no window, and any other one has a start and an expiry, renewals in order of time, and amendments that, stably sorted by time, are chained from the start to the expiry |
| ExecutionWindows.AcceptedIsChained | packages/domain/src/big-task-execution.ts:164-173 | amendments of an accepted status are in time order, each chained to the expiry before it, and renewals start no earlier than that expiry |
| ExecutionWindows.AcceptedTimeIsBounded | packages/domain/src/big-task-execution.ts:169-174 | the union of the windows lasts at most the sum of the durations, and exactly that without a QA recovery |
| ExecutionWindows.ExpiryIsMonotone | packages/domain/src/big-task-execution.ts:158-175 | over the amendments of an accepted status the expiry never moves back if and only if the QA recovery, if there is one, ends no earlier than the window it replaces |
| ExecutionWindows.QaRecoveryCanShorten | packages/domain/src/big-task-execution.ts:166-173 | an accepted status whose QA recovery ends its window before the approved duration |
| ExecutionWindows.RenewalIsAccepted | packages/domain/src/big-task-execution.ts:158-175 | appending a correctly chained renewal to an accepted status is accepted with the new expiry |

## Left out

- PropertyChoices.PropertySetExact: that every string of the set occurs in some accepted object is not claimed, because a choice of schemas need not allow each of them and further keywords may forbid it; SchemaMeaning.StringSetsAreExact reads a property's set as the meaning of that property's own schemas alone.
- SchemaMeaning.Decide: keywords that never constrain a string are not part of the meaning, and a schema with a malformed type or enum, or with one of the thirteen keywords the evaluator refuses, has none.
- SchemaMeaning.DecideReference: every reference is resolved at the root of the document, as the evaluators do; documents with an embedded $id, whose fragments section 8.2.1 of JSON Schema Core 2020-12 resolves at the nearest $id, are outside.
- JsonPointer.ResolveReference: decodeURIComponent is a parameter of the document; the round trip is stated for pointers it leaves unchanged.
- SchemaSignatures.ObjectSignatures: the required and properties lists of a contract are sets; repeated entries make no difference to the original.
- TopLevelKeys.KeysAgreeWithGrammar: of texts that are not JSON nothing is claimed; the callers parse the text first.
- JsonlFraming.Receive: UTF-8 decoding, JSON.parse and the message handler are one deterministic handler of lines; that other events may come between two chunks is not modelled there.
- TurnEvents.Process: field checks of notifications are options and flags, UTF-8 lengths are lengths of byte sequences, and path containment of tool items is the flag wellFormed. The waiter, its timers, usage and progress callbacks are left out.
- RequestCorrelation.Step: sending, hooks and timers are events; the diagnostics counters and the notification cap are left out.
- SelectorProtocol.Step: a read inside the lock is one step, since nobody else can rename then; path, inode and permission checks, fsync and JSON parsing of the selector are left out.
- HistoryPaging.Follow: the reader is the documented use of the cursor; the store is taken to number transitions 1, 2, 3.
- ExecutionWindows.WindowsAccepted: the other refinements of the status schema are left out; times are milliseconds.
- JobPool.Step: jobs are opaque; the busy check of discussions, which refuses instead of queueing, is left out.
- Dispatch.SelectSerialWriteDispatch: parsing of untyped input, exact key checks and identifier patterns are replaced by datatypes.
- Readiness.EvaluateSubtaskDependencyReadiness: error messages are left out, error codes and subjects are kept.
- Graph.ValidatePlan: trimming and the schema checks of single fields are left out.
- objectPropertyLocations, schemaTargetsLocation and the protocol contract built on them: traversals of the same shape as the evaluators.
- The JSON key scanner inside runtime-ownership.ts: a third scanner of the same kind.
- WorkflowStages.EvaluateStageTransition: the graph and snapshot checks in front of it, and the fields of a refusal that echo the input, are left out; a fact that is present but undefined counts as absent.
- Planning review, role and time budgets, and the SQLite stores behind execution: lookups in tables and single-row updates.
- The HTTP routes, the command line beyond the history bounds, the browser interface, Git, SQLite, processes and hashing.

# Graph Engineering: verified models of the compiler, the scheduler and the local stores

These Dafny modules model the core of the Graph Engineering runtimes and prove what that core is relied on for.

* **Compiler** (TypeScript and Python). A graph document is compiled to ordered layers and diagnostics. `CompilerSpec`
  says what the result means through walks, cycles and reachability only; `Compiler.CompileGraph` and
  `PythonCompiler.TryCompileGraph` are the two imperative compilers, each proved against that meaning and so against
  each other.
* **Scheduler.** `ReadyQueue`, `Readiness`, `RunGuarantees` and the class `GraphRuns.GraphRun` model the in-degree
  counters, the sorted ready queue and the main loop of both runtimes. `Semaphores` is the FIFO attempt semaphore.
  `Scheduler` puts them together as a machine whose steps are the interleaving points of `runGraph`: claim an
  attempt, decide its outcome, resume after it, wake from backoff, learn of a rejection, settle, abort. Which outcomes
  an attempt may have is not assumed: `Attempts` models `executeAttempt` down to the order in which its promises
  settle, and its outcomes are exactly those of the machine. On the machine are proved: one invariant for every step
  of every interleaving (`SchedulerInvariant`), progress, termination and accounting (`SchedulerRuns`,
  `SchedulerSafety`), what the abort guarantees (`Cancellation`), and that every interleaving under every concurrency
  limit computes the sequential meaning of the graph (`Reference`, `ScheduleIndependence`). `NodeRuns` has the retry
  loops of both runtimes as loops and says exactly when they agree; `RunScripts` shows that the machine runs that
  loop, and with `Explanations` accounts for every result of every run. The results rest on the compiler: they start
  from `Plan.Accepted`, which is the compiler's specification with a valid verdict.
* **Canonical JSON and the event log.** A sorted-key printer and a JSON parser with their round trip, the in-memory
  event store, the JSONL store that refines it, cuts of a log, the per-key queue that makes interleaved appends
  atomic, and compare-and-swap on versions.
* **Beside these cores**: the Python text normalizer, whose keys, key order and text are shown to be those of the
  JavaScript runtime; the pattern constructors, whose graphs the compiler accepts; and the checkpoint store, which a
  crash leaves with the old or the new record.

Code that updates state step by step is modelled by methods with loops and by classes (`GraphRun`, `AttemptSemaphore`,
`MemoryEventStore`, `JsonlEventStore`, `SerialQueue`, `FileCheckpointStore`); each method is proved equal to a
specification function, and the results below are lemmas about those functions. What those functions compute is in
turn stated without them, in terms of documents, fields, answers and characters: `Diagnoses` (what a compilation
reports), `Bindings`, `Reasons` and `NodeReports` (what a node receives and reports), `RecordChecks` and
`StoreAnswers` (what the stores accept and answer), `Characters` (how texts are written). Inductions are written out:
every lemma carries `{:induction false}`.

Explicit hypotheses, each a parameter or a precondition: the schema check of an event is a predicate that admits only
plain values and does not look at key order (`EventStreams.GoodEnvelope`); the digest does not collide on safe
identifiers (`CollisionFree`); calendar checks are a predicate; executors in `ScheduleIndependence` are functions of
node, input and attempt number.

## Where the documentation and the code differ

`spec/runtime-semantics.md:43-44` says that nodes which become ready together are scheduled in the order of
`GraphSpec.nodes`. Both runtimes sort the ready queue by position in the flattened layers
(`packages/runtime/src/scheduler.ts:398-405`, `packages/runtime/src/scheduler.ts:446`), that is by depth first and by
declaration only among nodes of equal depth. The model follows the code. `ReadyOrder.ReadyIsSorted` proves the order
in which nodes wait; `ReadyOrder.DeclarationOrderExact` proves that two nodes waiting together stand in declaration
order, and are launched in it, exactly unless the one declared first is the deeper; and
`OrderWitness.DeclarationOrderFails` runs an accepted graph into a state where two nodes become ready together and are
launched against their declaration order.

The two runtimes differ where the signal fires between the grant of a slot and its use. The TypeScript loop claims the
attempt and then finds the signal (`packages/runtime/src/scheduler.ts:235-250`,
`packages/runtime/src/scheduler.ts:148-150`), so the cancelled result counts it; the Python loop looks at the signal
before claiming (`python/src/graph_engineering/scheduler.py:402-410`), so it does not. `NodeRuns.RuntimesAgree` proves
that the loops agree exactly otherwise, and `RunScripts.LateGrantReached` shows runs of the scheduler in which they do
not.

## Model

| member | source | states |
|---|---|---|
| Text.CompareUnicodeCodePoints | packages/core/src/canonical.ts:15-28 | the loop's result is negative exactly when the left string precedes the right in lexicographic order of code points, and zero exactly on equal strings |
| Text.CompareIsTotalOrder | packages/persistence/src/json.ts:4-12 | comparison by code point is antisymmetric, transitive and zero only on equal strings, so sorting distinct keys by it is canonical |
| Text.UnitsOfCodePoints | packages/core/src/canonical.ts:15-18 | reading a string by code points loses nothing: encoding them again gives the same UTF-16 units, lone surrogates included |
| CompilerSpec.IdentityDiagnosticsExact | packages/core/src/compiler.ts:106-195 | the identity and reference phase is silent exactly on graphs with distinct ids and resolved references |
| Compiler.CheckIdentities | packages/core/src/compiler.ts:106-195 | the loops report exactly the specified identity diagnostics, in order, and silence means a well-identified graph |
| Compiler.KahnLayers | packages/core/src/compiler.ts:217-235 | the counter loop emits the nodes of each longest-walk level in declaration order and marks as processed exactly the nodes without longer walks into them |
| Compiler.NextLayer | packages/core/src/compiler.ts:222-234 | one turn of the layer loop turns level k into level k + 1 and keeps every counter equal to the edges still coming in |
| Compiler.ReachableFrom | packages/core/src/compiler.ts:269-282 | the breadth-first search marks exactly the nodes reachable by a walk from an entrypoint |
| Compiler.CheckPolicies | packages/core/src/compiler.ts:255-313 | roots, reachability, fan-out and depth are reported exactly as specified, in order |
| Compiler.CompileGraph | packages/core/src/compiler.ts:106-323 | the compiler's result is the one determined by the declarative specification of verdict, entrypoints, layers and diagnostics; the entrypoints are the document's, once each, in the order in which they first occur |
| Diagnoses.IdentityDiagnosesExact | packages/core/src/compiler.ts:106-195 | a document with repeated ids or dangling references gets exactly the diagnostics that name its positions, ids and nodes, and no layers |
| Diagnoses.OutputDiagnosesByName | packages/core/src/compiler.ts:175-195 | dangling outputs are reported in the order of their names by code point |
| Diagnoses.CycleDiagnosis | packages/core/src/compiler.ts:237-253 | a cyclic document gets one diagnostic, with the nodes downstream of a cycle, once each, as declared |
| Diagnoses.PolicyDiagnosesExact | packages/core/src/compiler.ts:255-313 | a sound acyclic document gets exactly the diagnostics for entrypoints with incoming edges, unreachable nodes, nodes with more outgoing edges than allowed, with their number, and too many layers |
| CompilerSpec.CompiledAsDeterministic | packages/core/src/compiler.ts:106-323 | the specification fixes verdict, entrypoints, layers and diagnostics completely |
| Compiler.CycleReportExact | packages/core/src/compiler.ts:237-253 | the cycle diagnostic is raised iff some node lies on a cycle, and lists exactly the nodes reachable in zero or more steps from one |
| CompilerSpec.StuckIffCycle | packages/core/src/compiler.ts:221-238 | where layering stops, the nodes left over are exactly those downstream of a cycle |
| CompilerSpec.LayersAreLevels | packages/core/src/compiler.ts:217-235 | on an acyclic graph the layers partition the nodes, and a node is in layer k iff its longest incoming walk has k edges |
| CompilerSpec.LayersRespectEdges | packages/core/src/compiler.ts:217-235 | layer indices increase along every edge |
| CompilerSpec.LayersIgnoreEdgeOrder | packages/core/src/compiler.ts:205-235 | layers and cycle nodes depend only on which nodes are joined, not on edge order, ids, ports or multiplicity |
| CompilerSpec.DepthPolicyExact | packages/core/src/compiler.ts:305-313 | the depth limit is exceeded iff some walk visits more nodes than it allows |
| CompilerSpec.PolicyDiagnosticsExact | packages/core/src/compiler.ts:255-313 | the last phase is silent iff entrypoints are roots, all nodes are reachable and the fan-out and depth policies are met |
| CompilerSpec.ValidMeans | packages/core/src/compiler.ts:315-322 | a graph is valid iff it is well identified, acyclic, entered at roots, fully reachable and within its policies |
| CompilerSpec.EntrypointsAreRoots | packages/core/src/compiler.ts:255-289 | a valid compilation makes the entrypoints exactly the nodes without incoming edges |
| PythonCompiler.KahnLayers | python/src/graph_engineering/compiler.py:188-207 | the Python loop, which collects the next layer in a set and sorts it, gives the same layering, a positive leftover counter exactly downstream of a cycle, and visits all nodes iff there is none |
| PythonCompiler.LowerLayer | python/src/graph_engineering/compiler.py:200-206 | lowering the targets of level k leaves every counter equal to the edges still coming in and collects exactly the nodes of level k + 1 |
| PythonCompiler.ReachableFrom | python/src/graph_engineering/compiler.py:228-236 | the search that marks nodes when it queues them computes the same reachable set |
| PythonFindings.CheckIdentities | python/src/graph_engineering/compiler.py:114-173 | the Python identity phase reports exactly the specified findings, in order, each repeated id once |
| PythonFindings.RepeatsInOrder | python/src/graph_engineering/compiler.py:75-77 | of two repeated values the one that occurs first is listed first |
| PythonFindings.IdentityPhasesAgree | python/src/graph_engineering/compiler.py:114-173 | the identity phases of both runtimes name the same faults, and both are silent exactly on well-identified graphs |
| PythonCompiler.TryCompileGraph | python/src/graph_engineering/compiler.py:113-273 | the Python compiler's graph, layers and ordered findings are those of the specification |
| PythonCompiler.CompilersAgree | python/src/graph_engineering/compiler.py:113-273 | on every graph both compilers give the same verdict, layers, cycle nodes and portable findings |
| ReadyQueue.OrderIsTopological | packages/runtime/src/scheduler.ts:398-403 | the layers read in order list every node once, each after the sources of its incoming edges |
| ReadyQueue.FailedUpstreamMembers | packages/runtime/src/scheduler.ts:454-458 | the reported upstream ids are exactly the direct predecessors that did not succeed |
| ReadyQueue.FailedUpstreamListed | packages/runtime/src/scheduler.ts:454-458 | they are listed once each, in order of their ids by code point |
| Bindings.BindInputExact | packages/runtime/src/scheduler.ts:84-113 | a node without incoming edges receives the graph input; any other receives exactly the key-ordered object with one field per incoming edge, named by the target port or else the source node, holding the source's whole output or what its port takes of it; none iff two edges share a key or one finds no output or port |
| Readiness.InitialInv | packages/runtime/src/scheduler.ts:391-406 | the start state satisfies the ready-queue invariant: counters count the unsettled incoming edges, and exactly the nodes at zero are queued |
| Readiness.SettleCounters | packages/runtime/src/scheduler.ts:437-447 | settling keeps every counter equal to the number of incoming edges from unsettled sources and queues each newly free node exactly once |
| Readiness.SettleActive | packages/runtime/src/scheduler.ts:437-447 | settling a launched node with any result that fits its predecessors keeps the whole invariant |
| Readiness.LaunchNextInv | packages/runtime/src/scheduler.ts:449-516 | one turn of the launch loop keeps the invariant and schedules one more node |
| Readiness.LaunchAllInv | packages/runtime/src/scheduler.ts:449-516 | launching keeps the invariant and empties the queue |
| RunGuarantees.NoDeadlock | packages/runtime/src/scheduler.ts:518-523 | on an accepted graph, with nothing ready and nothing active every node has settled |
| RunGuarantees.ExitsCoincide | packages/runtime/src/scheduler.ts:518-523 | the break on no active node is taken exactly when all nodes have results |
| RunGuarantees.FinalOrders | python/src/graph_engineering/scheduler.py:591-604 | scheduled and completion order are permutations of the nodes that respect every edge |
| RunGuarantees.ResultPlaced | packages/runtime/src/scheduler.ts:398-403 | every result bears its node's id and the position of its node in the order |
| RunGuarantees.FailureContainment | packages/runtime/src/scheduler.ts:454-479 | without cancellation a node is skipped iff some proper ancestor failed, and its failure lists exactly its unsuccessful direct predecessors |
| GraphRuns.GraphRun.constructor | packages/runtime/src/scheduler.ts:381-406 | the counters and the first ready queue, built by a pass over the edges |
| GraphRuns.GraphRun.Settle | packages/runtime/src/scheduler.ts:437-447 | the closure's whole new state is that of the settle transition |
| GraphRuns.GraphRun.LaunchReady | packages/runtime/src/scheduler.ts:449-516 | the loop's whole new state is that of launching until the queue is empty, and keeps the invariant |
| GraphRuns.GraphRun.SettleBatch | python/src/graph_engineering/scheduler.py:699-701 | settling finished tasks in sequence order keeps the invariant and appends them to the completion order |
| GraphRuns.GraphRun.Run | python/src/graph_engineering/scheduler.py:694-701 | the main loop ends with a result for every node, permutations of the nodes that respect every edge, and each result explained by its predecessors' results and its own task |
| Explanations.LaunchAccounted | packages/runtime/src/scheduler.ts:449-500 | launching settles a node only as skipped below a failure, as unbound, or as cancelled under the signal |
| Reasons.AccountReasoned | packages/runtime/src/scheduler.ts:449-516 | a result is that of a cancelled node, of one below unsuccessful predecessors, of one that receives no input, or of a run on the input it receives, with every field of the first three stated |
| ReadyOrder.SequenceOrder | packages/runtime/src/scheduler.ts:398-403 | sequence numbers order nodes by depth, and by declaration at equal depth |
| ReadyOrder.SettledInOrder | packages/runtime/src/scheduler.ts:437-447 | every settle leaves the ready queue in sequence order |
| ReadyOrder.InitialInOrder | packages/runtime/src/scheduler.ts:404-406 | the first ready queue is in sequence order |
| ReadyOrder.LaunchedInOrder | packages/runtime/src/scheduler.ts:449-516 | every turn of the launch loop keeps the ready queue in sequence order |
| ReadyOrder.ReadyIsSorted | packages/runtime/src/scheduler.ts:398-403 | in such a queue, of two waiting nodes the shallower stands first, and of equally deep ones the one declared first |
| ReadyOrder.DeclarationOrderExact | spec/runtime-semantics.md:43-44 | two nodes waiting together stand in the queue, and are launched, in declaration order exactly unless the one declared first is the deeper |
| OrderWitness.DeclarationOrderFails | spec/runtime-semantics.md:43-44 | on an accepted graph, three nodes succeed in turn from the launched start; the last frees two nodes together, and the one declared later stands first and is launched first |
| Semaphores.AttemptSemaphore.Acquire | packages/runtime/src/scheduler.ts:340-364 | a request is rejected, granted or queued, with the new state stated in full |
| Semaphores.AttemptSemaphore.Release | packages/runtime/src/scheduler.ts:320-338 | the first call frees the slot and hands it to the first live waiter; later calls change nothing |
| Semaphores.AttemptSemaphore.Cancel | packages/runtime/src/scheduler.ts:356-359 | the listener marks exactly the waiter of its arrival |
| Semaphores.AcquireInv | packages/runtime/src/scheduler.ts:340-364 | a request keeps the semaphore invariant; it queues only when every slot is held |
| Semaphores.ReleaseInv | packages/runtime/src/scheduler.ts:320-338 | a release keeps the invariant: the slot is idle only if every queued waiter was cancelled, else it goes to the first live one; double release is harmless |
| Semaphores.SemaphoreSafety | packages/runtime/src/scheduler.ts:316-365 | in every reachable state the count equals the granted unreleased slots and is within the limit, a live waiter implies no idle slot, and grants follow arrival order past cancelled waiters |
| Semaphores.PeakObserved | packages/runtime/src/scheduler.ts:425-427 | what is reported as observed is the most slots that were ever in use at once |
| NodeRuns.ExecuteNode | packages/runtime/src/scheduler.ts:210-306 | the retry loop returns the specified result, a success exactly when there is an executor and some attempt within the node's limit, all before it having failed and been retried, is claimed and succeeds |
| NodeReports.NodeEndExact | packages/runtime/src/scheduler.ts:210-306 | the whole result of one node for every sequence of answers: where the loop ends, and there status, attempts, output and failure with its code and attempt, never retryable |
| NodeReports.AlwaysFailing | packages/runtime/src/scheduler.ts:222-226 | a node that always fails is tried exactly as often as it declares |
| NodeRuns.ExecuteNodePython | python/src/graph_engineering/scheduler.py:388-533 | the Python retry loop returns the specified result and always leaves by a return |
| NodeRuns.TypeScriptWins | packages/runtime/src/scheduler.ts:226-296 | the result of a success is that of the first attempt that succeeds, and attempts never exceed the node's limit |
| NodeRuns.RuntimesAgree | python/src/graph_engineering/scheduler.py:402-409 | both loops return the same result exactly unless the signal fires between a grant and its use; then the TypeScript loop has counted one attempt more |
| NodeRuns.RuntimesDiffer | python/src/graph_engineering/scheduler.py:402-409 | answers on which the loops report one attempt and none |
| NodeRuns.Undisturbed | packages/runtime/src/scheduler.ts:226-296 | with slots and budget granted and no signal both loops are the attempts of the sequential meaning |
| Scheduler.Concurrency | packages/runtime/src/scheduler.ts:74-78 | the limit is the smaller of the policy, by default 4, and the caller's request if it makes one |
| NodeReports.DeclaredLimits | packages/runtime/src/scheduler.ts:222 | a node may make as many attempts as it declares if that is positive, else one; it has a timeout iff it declares one, and an executor iff one is registered for its id or kind or it is a transform or barrier |
| NodeReports.DeclaredBudget | packages/runtime/src/scheduler.ts:422 | the attempt budget is the declared one if positive, else the largest safe integer |
| Attempts.VerdictStays | packages/runtime/src/scheduler.ts:143-198 | once an attempt's outcome is fixed, no abort, timer, executor or job changes it |
| Attempts.DecideExact | packages/runtime/src/scheduler.ts:143-198 | the outcomes an attempt can have in a given abort state, over every order in which executor, timer, abort and jobs come, are exactly those the scheduler's machine allows |
| Attempts.VerdictDelivered | packages/runtime/src/scheduler.ts:153-197 | the fixed outcome is the one delivered, and until then a job is left to run |
| Attempts.NoLateSuccess | packages/runtime/src/scheduler.ts:157-185 | an attempt not yet decided when the signal fires never delivers a success, also when the executor returns a value after the timer |
| Attempts.CaughtBeforeTimer | packages/runtime/src/scheduler.ts:184-192 | a rejection is only ever caught before the timer fires, so the clause always reports the abort or the failed execution and never a timeout |
| Attempts.LateValueDropped | packages/runtime/src/scheduler.ts:161-185 | such a value exists: its callback yields a success that the race against the timeout discards |
| SlotLinks.LinksRelease | packages/runtime/src/scheduler.ts:258-260 | a release keeps slots tied to exactly the tasks that hold them and live waiters to exactly the tasks that wait |
| SchedulerInvariant.InitInv | packages/runtime/src/scheduler.ts:398-422 | the first launch establishes the run invariant, with every started task before its first attempt |
| SchedulerInvariant.ClaimInv | packages/runtime/src/scheduler.ts:235-250 | claiming an attempt, or failing to, keeps the run invariant and the attempt accounts |
| SchedulerInvariant.ResumeInv | packages/runtime/src/scheduler.ts:252-306 | success, retry and giving up after an attempt keep the run invariant |
| SchedulerInvariant.CompleteInv | packages/runtime/src/scheduler.ts:518-527 | settling a finished task and launching what it frees keeps the run invariant |
| SchedulerInvariant.AbortInv | packages/runtime/src/scheduler.ts:356-359 | the abort keeps the run invariant and leaves no live waiter |
| SchedulerRuns.NextInv | packages/runtime/src/scheduler.ts:210-306 | every step of every task, and the abort, keeps the run invariant |
| SchedulerRuns.Progress | packages/runtime/src/scheduler.ts:518-527 | until every node has settled, some task can move: no reachable state is stuck |
| SchedulerRuns.StepDecreases | packages/runtime/src/scheduler.ts:226-296 | every step lowers a measure of unsettled nodes, attempts left and phase |
| SchedulerRuns.RunBounded | packages/runtime/src/scheduler.ts:226-296 | no run is longer than the measure of its start, retries and cancellation included |
| SchedulerSafety.SlotsExact | packages/runtime/src/scheduler.ts:316-365 | the running count is the number of nodes between grant and release, a node waits only while all slots are taken, and one in backoff holds none |
| SchedulerSafety.EveryState | packages/runtime/src/scheduler.ts:222-306 | in every state of every run attempts are accounted for exactly and within the budgets, unsuccessful results carry a failure, and executors are called once per attempt, in order, after all predecessors succeeded |
| NodeReports.EveryStateAsDeclared | packages/runtime/src/scheduler.ts:222-306 | in every state of every run a node's attempts and calls are within what it declares, all attempts within the declared budget, and running attempts within the declared and the requested limit |
| SchedulerSafety.EveryRunEnds | packages/runtime/src/scheduler.ts:518-530 | every run is bounded and can be continued exactly until every node has settled; then the orders are permutations that respect every edge and the total is the sum of the nodes' attempts |
| RunScripts.EveryResultAccounted | packages/runtime/src/scheduler.ts:210-306 | in every state of every run each result is that of a skip, of a failed binding, or of the retry loop on the bound input and exactly the answers the run gave it |
| NodeReports.EveryResultExact | packages/runtime/src/scheduler.ts:449-527 | in every state of every run each result has its reason in the document's own terms: cancelled, skipped, unbound, or its node's run on exactly the input it receives |
| RunScripts.EveryRunContainsFailures | packages/runtime/src/scheduler.ts:449-500 | while a run is not cancelled, a settled node is skipped iff some proper ancestor failed, listing exactly its direct unsuccessful predecessors; every other one failed to bind its input or ended as its retry loop does on it |
| RunScripts.LateGrantReached | packages/runtime/src/scheduler.ts:226-250 | a run in which the signal fires between a grant and its use; on its answers the loops of the two runtimes report one attempt and none |
| LaunchEffects.LaunchAllCancelled | packages/runtime/src/scheduler.ts:460-479 | under the signal, launching starts nothing, skips every waiting node as cancelled with zero attempts and empties the queue |
| Cancellation.NextAfterAbort | packages/runtime/src/scheduler.ts:226-296 | after the abort no step calls an executor or commits a success that was not already returned |
| Cancellation.CancellationSafety | packages/runtime/src/scheduler.ts:272-296 | however a run goes on after the abort: no executor call begins, no new success appears, and nodes launched later are skipped with NODE_CANCELLED and zero attempts |
| Cancellation.RunningNeverSucceeds | packages/runtime/src/scheduler.ts:245-272 | a node whose attempt is still running at the abort never becomes a success, neither by that attempt nor by a later one |
| Reference.ConsistentIsMeaning | packages/runtime/src/scheduler.ts:449-527 | results that each follow from their predecessors' results are the left-to-right evaluation of the topological order |
| Reference.MeaningSame | packages/runtime/src/scheduler.ts:74-78 | concurrency, depth, fan-out and attempt limits do not enter the sequential meaning |
| ScheduleIndependence.NextDeterministic | packages/runtime/src/scheduler.ts:210-306 | with deterministic executors every step keeps each task on course to its sequential result |
| ScheduleIndependence.BudgetLeft | packages/runtime/src/scheduler.ts:429-435 | a run budget of at least the sum of the nodes' own never refuses a claim |
| ScheduleIndependence.ResultsAreMeaning | packages/runtime/src/scheduler.ts:210-306 | every complete run without abort, under any interleaving and limit, has exactly the results of the sequential meaning |
| ScheduleIndependence.RunsAgree | packages/runtime/src/scheduler.ts:437-530 | two complete runs of the same work have equal result maps: status, attempts, input, output and failure |
| RunReports.AssembleReport | packages/runtime/src/scheduler.ts:532-571 | node results in topological order; outputs iff each declared one takes a value from its succeeded node, and then by name exactly the values their ports take; a failure for each failed node and each output whose port is missing; and the run status |
| RunReports.SuccessMeans | packages/runtime/src/scheduler.ts:559-563 | a run succeeds iff it was not cancelled, every node succeeded and every output binds |
| JsonParser.PrintRoundTrip | packages/core/src/canonical.ts:191-204 | parsing the printed text of a captured value, whatever follows it, gives the value and what follows |
| Json.SerializeIsPrintCanon | packages/core/src/canonical.ts:191-204 | sorting keys while printing is printing the key-ordered value |
| Characters.ScalarText | packages/core/src/canonical.ts:191-194 | words and decimal numbers, character by character |
| Characters.StringText | packages/core/src/canonical.ts:191-194 | quotes, short escapes, escapes by number in lower-case hexadecimal, surrogate pairs as they are |
| Characters.ArrayText | packages/core/src/canonical.ts:195-198 | brackets and commas, no whitespace |
| Characters.ObjectText | packages/core/src/canonical.ts:199-203 | braces, colons and commas, no whitespace |
| Characters.EscapesRead | packages/persistence/src/json.ts:108-110 | the escapes that are read: the short ones, and hexadecimal digits of either case |
| Characters.CapturedText | packages/persistence/src/json.ts:18-83 | a captured value holds safe integers, and each key once in every object |
| JsonParser.AssignAllMeans | packages/persistence/src/json.ts:108-110 | of repeated keys in a text the last field counts, and a parsed object has each key once |
| JsonParser.BlanksIgnored | packages/persistence/src/jsonl-event-store.ts:76-80 | blanks, tabs, line feeds and carriage returns around a value do not matter |
| CanonicalForm.CanonicalRoundTrip | packages/persistence/src/json.ts:86-110 | parsing canonical text gives the value with its keys in order |
| CanonicalForm.SameTextIffSame | packages/core/src/canonical.ts:191-204 | two captured values have equal canonical text iff they are equal up to object key order |
| CanonicalForm.CloneIsStable | packages/persistence/src/json.ts:108-110 | a clone is the key-ordered value, and cloning or printing it again changes nothing |
| CanonicalForm.SerializePrintable | packages/persistence/src/json.ts:86-102 | canonical text holds no control character, so a record is one line |
| EventStreams.ValidateAppendEvents | packages/persistence/src/store-validation.ts:51-90 | the loop lists every fault of the new events and none exactly when they continue the stream |
| EventStreams.MemoryAppendKeeps | packages/persistence/src/memory-event-store.ts:11-23 | an append succeeds iff the request is well formed, the version matches and the events continue the stream; it then only extends it, and otherwise changes nothing |
| EventStreams.MemoryReadMeans | packages/persistence/src/memory-event-store.ts:25-32 | a read returns the stored stream from the given sequence on |
| StoreAnswers.MemoryAnswers | packages/persistence/src/memory-event-store.ts:11-23 | the answer to every append: unsafe id, invalid version, conflict with the expected and the actual version, exactly the faults of the events, or the new version, checked in this order |
| StoreAnswers.MemoryReadAnswers | packages/persistence/src/memory-event-store.ts:25-32 | the answer to every read, faults included |
| Characters.SafeIdentifierText | packages/persistence/src/identifiers.ts:4-13 | a safe identifier is 1 to 128 letters, digits, dots, underscores and hyphens, the first a letter or digit |
| EventStreams.MemoryEventStore.Append | packages/persistence/src/memory-event-store.ts:11-23 | answer and new streams are those of the specified append |
| EventStreams.MemoryEventStore.Read | packages/persistence/src/memory-event-store.ts:25-32 | the filtered clones are those of the specified read |
| EventStreams.MemoryEventStore.Version | packages/persistence/src/memory-event-store.ts:35-38 | the last sequence, -1 for an empty stream, an error for an unsafe id |
| EventLogs.SplitConcat | packages/persistence/src/jsonl-event-store.ts:72 | a newline separates: the lines of two texts joined by one are the lines of both |
| EventLogs.TornLog | packages/persistence/src/jsonl-event-store.ts:51-105 | a cut of a decodable log decodes iff it is not empty and ends a line, and then to a prefix of the stream |
| EventLogs.AppendBatch | packages/persistence/src/jsonl-event-store.ts:128-132 | writing a batch of records to a log adds exactly their events to the decoded stream |
| EventLogs.TornAppend | packages/persistence/src/jsonl-event-store.ts:128-132 | a write cut short leaves a corrupt log, or the whole old stream and the first few new events |
| JsonlStore.LoadRecords | packages/persistence/src/jsonl-event-store.ts:72-104 | the decoding loop accepts exactly the logs whose every line is a valid event of the run in sequence |
| JsonlStore.JsonlEventStore.Load | packages/persistence/src/jsonl-event-store.ts:51-105 | a missing file is the empty stream; an undecodable, empty or unterminated one is corrupt, and so is one with a record that is not the next event of its run; any other is its events |
| JsonlStore.JsonlEventStore.Append | packages/persistence/src/jsonl-event-store.ts:107-143 | answer and new files are those of the specified append, errors in the order identifier or request, corruption, version, events |
| JsonlStore.JsonlEventStore.Read | packages/persistence/src/jsonl-event-store.ts:145-159 | the answer is that of the specified read |
| JsonlStore.AppendRefines | packages/persistence/src/jsonl-event-store.ts:107-143 | an append answers as the memory store does, and decoding the files still gives its streams |
| JsonlStore.ReadRefines | packages/persistence/src/jsonl-event-store.ts:145-159 | a read answers as the memory store does |
| StoreAnswers.JsonlAnswers | packages/persistence/src/jsonl-event-store.ts:107-159 | the file store gives those answers from the stream its file decodes to |
| StoreAnswers.CorruptAnswers | packages/persistence/src/jsonl-event-store.ts:107-159 | on a corrupt log every well-formed request is answered with corruption and nothing is written |
| JsonlStore.JsonlRefinesMemory | packages/persistence/src/jsonl-event-store.ts:51-159 | from any directory of decodable logs, every sequence of appends and reads is answered alike by both stores |
| JsonlStore.NewStoresAgree | packages/persistence/src/jsonl-event-store.ts:51-159 | two stores that start empty answer every sequence of operations alike |
| JsonlStore.StreamsGrow | spec/persistence-semantics.md:13-18 | under any sequence of operations streams stay numbered from 0, belong to their run and only grow |
| JsonlStore.CasChain | packages/persistence/src/jsonl-event-store.ts:114-119 | a later successful append expects at least the version an earlier one returned, exactly that one if nothing was written between; equal expectations never both win |
| SerialQueues.SerialQueue.Enter | packages/persistence/src/serial-queue.ts:5-12 | the operation is queued behind the key's previous tail and becomes the tail |
| SerialQueues.SerialQueue.Leave | packages/persistence/src/serial-queue.ts:13-17 | the tail is forgotten only if it is still this operation's |
| SerialQueues.MachineIsQueue | packages/persistence/src/serial-queue.ts:5-18 | the interleaved machine moves the queue exactly as the queue object does: arrivals enter behind the tail they wait for, cleanups leave, loads and writes do not touch it |
| SerialQueues.BeginsAlone | packages/persistence/src/serial-queue.ts:6-7 | an operation begins only after all earlier ones of its key are over, failed or not |
| SerialQueues.MutualExclusion | packages/persistence/src/serial-queue.ts:5-18 | at most one operation per key is between its load and its end |
| SerialQueues.QueueMoves | packages/persistence/src/serial-queue.ts:7-11 | while an operation is unfinished, it or an earlier one of its key can move, whatever the others answered |
| SerialQueues.Linearizable | packages/persistence/src/jsonl-event-store.ts:107-143 | under any interleaving each run's log and answers are those of its finished operations executed atomically in arrival order |
| SerialQueues.ConcurrentStoreIsMemory | packages/persistence/src/jsonl-event-store.ts:107-159 | interleaved use of the file store is answered, run by run, as the memory store answers the same operations in arrival order |
| SerialQueues.OneWinner | packages/persistence/src/jsonl-event-store.ts:114-119 | of two successful non-empty appends to a run the later arrival expected a version at least as new as the earlier one wrote |
| PythonText.NormalizeJsonString | python/src/graph_engineering/_json.py:20-37 | the index loop computes the code points of the string's UTF-16 form |
| PythonText.NormalForm | python/src/graph_engineering/_json.py:20-37 | normalizing is idempotent, keeps the UTF-16 form, and is equal on two strings iff their UTF-16 forms are |
| PythonText.SameOrder | python/src/graph_engineering/_json.py:95-105 | Python's order of normalized strings is the JavaScript order by code point |
| PythonText.NormalizeJsonStrings | python/src/graph_engineering/_json.py:40-80 | the recursive pass fails exactly when JavaScript would see two keys of an object as one |
| PythonText.DumpsAgree | python/src/graph_engineering/_json.py:95-105 | the compact sorted text of a value, read as UTF-16, is the JavaScript canonical text |
| PythonText.CompactJson | python/src/graph_engineering/_json.py:83-105 | the text exists iff no keys collide, equals the canonical text of the JavaScript runtime and holds no surrogate |
| PythonText.SameTextAcrossRuntimes | python/src/graph_engineering/_json.py:95-105 | Python texts of two values are equal iff JavaScript sees the values as equal up to key order |
| Patterns.IdsDiffer | packages/patterns/src/internal.ts:356-358 | edge ids of different indices differ, whatever their number of digits |
| Patterns.EdgeIdText | packages/patterns/src/internal.ts:356-358 | an edge id is the pattern's name and the index in at least four digits |
| Characters.NodeIdText | packages/patterns/src/internal.ts:12 | a node id is 1 to 128 characters, the first a letter |
| Characters.KeyText | packages/patterns/src/internal.ts:192-205 | a key is 1 to 64 characters, the first a letter, and no name that every object inherits |
| Characters.ItemLimit | packages/patterns/src/internal.ts:219-250 | a fan takes exactly one to a hundred items with safe, distinct keys and valid node ids |
| Characters.RoundLimit | packages/patterns/src/patterns.ts:192-225 | a loop takes as many such rounds |
| Patterns.ParseKeyedNodes | packages/patterns/src/internal.ts:219-250 | the loop accepts exactly one to a hundred items with safe distinct keys and valid node ids, and returns them sorted by key; otherwise it reports the fault of the first bad item |
| Patterns.UniqueNodeIds | packages/patterns/src/internal.ts:252-263 | the check passes iff the node ids are distinct |
| Patterns.BuildGraph | packages/patterns/src/internal.ts:300-342 | the graph is returned iff the output key is safe and the compiler accepts it |
| GradedGraphs.GradedAccepted | packages/patterns/src/internal.ts:328-342 | a graph with a rank for every node, entered at rank zero, compiles to its ranks as layers and is valid iff its policies allow its fan-out and depth |
| FanPatterns.BuildEdges | packages/patterns/src/patterns.ts:81-88 | the two loops with a running index push the numbered edges to every item and from every item to its own port |
| FanPatterns.FanAccepted | packages/patterns/src/patterns.ts:70-97 | the compiled graph has the layers head, items by key, tail, and is valid iff the caller's policies allow that fan-out and depth |
| FanPatterns.Fan | packages/patterns/src/patterns.ts:70-97 | the constructor succeeds iff the input is well formed and the policies allow the graph; the graph is entered at the head, has the numbered edges to and from the items by key, and one output, the whole output of the tail, which alone has no outgoing edge and is the last layer; otherwise the first fault in the order of the checks is reported |
| FanPatterns.OrderIrrelevant | packages/patterns/src/internal.ts:249 | the graph does not depend on the order in which the items were given |
| LoopPatterns.BuildEdges | packages/patterns/src/patterns.ts:274-308 | the loop with a running edge index pushes the 3n - 1 numbered edges in order |
| LoopPatterns.ParseRounds | packages/patterns/src/patterns.ts:192-225 | rounds are accepted iff there are one to a hundred with safe distinct keys and valid node ids; otherwise the fault of the first bad round is reported |
| LoopPatterns.LoopAccepted | packages/patterns/src/patterns.ts:242-322 | n rounds give 2n + 1 nodes in as many singleton layers and 3n - 1 edges, valid iff the caller's policies allow that fan-out and depth |
| LoopPatterns.Unroll | packages/patterns/src/patterns.ts:242-322 | the constructor succeeds iff the input is well formed and the policies allow the graph; the graph is entered at the first find, has the numbered edges of each round, and one output, the whole output of finalize, which alone has no outgoing edge and is the last layer; otherwise the first fault in the order of the checks is reported |
| PatternInputs.FanBinds | packages/runtime/src/scheduler.ts:94-113 | on fan-out graphs input binding never collides: it succeeds whenever the predecessors have outputs |
| PatternInputs.LoopBinds | packages/runtime/src/scheduler.ts:94-113 | the same for unrolled loops |
| Checkpoints.RecordRoundTrip | packages/persistence/src/file-checkpoint-store.ts:130-198 | a stored record is read back as it was, its content hash verified |
| RecordChecks.RecordExact | packages/persistence/src/file-checkpoint-store.ts:130-198 | a record is loaded as a checkpoint exactly if it is one line of an object with just the known fields and the checkpoint's values, in range and well formed, for this run and file, whose hash is the digest of the canonical text of its other fields |
| RecordChecks.AlteredStateRejected | packages/persistence/src/file-checkpoint-store.ts:194-196 | a record whose state alone was changed is corrupt, unless the digest collides on the two bodies |
| RecordChecks.WrittenRecord | packages/persistence/src/file-checkpoint-store.ts:228-250 | what a save writes is such a record of its checkpoint |
| RecordChecks.SaveAnswers | packages/persistence/src/file-checkpoint-store.ts:57-88 | which inputs a save refuses and with which error, and what it stores otherwise |
| Checkpoints.TruncatedRejected | packages/persistence/src/file-checkpoint-store.ts:136-145 | no proper prefix of a record is accepted |
| CheckpointStore.CrashAtomic | packages/persistence/src/file-checkpoint-store.ts:228-260 | wherever a save stops, the records are all as before, or as before but for the complete new one, the latter exactly after the rename |
| CheckpointStore.WriteRecord | packages/persistence/src/file-checkpoint-store.ts:228-260 | a save that meets no failure is a run of those steps to their end |
| CheckpointStore.SaveIsOldOrNew | packages/persistence/src/file-checkpoint-store.ts:215-261 | a stopped save leaves a directory that holds the old checkpoints, or those and the new one |
| CheckpointStore.LoadMeans | packages/persistence/src/file-checkpoint-store.ts:263-272 | loading an id finds the checkpoint last saved under it, if any, and nothing else |
| CheckpointStore.ListMeans | packages/persistence/src/file-checkpoint-store.ts:274-300 | whatever order the directory is read in and whatever temporary files it holds, the listing has one entry per saved id, strictly ordered by sequence and then id |
| CheckpointStore.FileCheckpointStore.Save | packages/persistence/src/file-checkpoint-store.ts:215-261 | the answer, the one file that changes, and that the directories then hold the new checkpoint beside the old ones |
| CheckpointStore.FileCheckpointStore.Load | packages/persistence/src/file-checkpoint-store.ts:263-272 | the specified load, and on a directory written by saves the checkpoint last saved |
| CheckpointStore.FileCheckpointStore.List | packages/persistence/src/file-checkpoint-store.ts:274-300 | the specified listing, and on a directory written by saves every saved checkpoint in order |

## Left out

- Host-language object inspection: proxies, accessors, prototypes, symbols, sparse arrays, cyclic values and property enumeration order; values start as already captured plain JSON.
- Schema and envelope validation of graphs, events and datetimes: long field-by-field checks; a schema-valid graph document, an envelope predicate and a calendar predicate stand for them.
- Numbers other than safe integers and the printing of floats; the repository keeps them outside the stable hash contract.
- SHA-256 and UTF-8: the digest is a parameter, and a file's bytes are either its text or undecodable, so a write cut inside a multi-byte character appears as undecodable.
- Other I/O failures of the stores (`PERSISTENCE_IO`) and fsync hardware semantics; what a crash leaves of a write is modelled as a prefix.
- Wall-clock time: delays, timeouts and backoff lengths are steps that may happen at any later point; `retryDelay` is not part of this model.
- Promise and asyncio internals: only the interleavings they allow; Python's own attempt semaphore is library code.
- `resolveConcurrency` is modelled for the TypeScript runtime only; the Python default differs.
- Edge modes and conditions, metadata, labels, schemas and schema identity of patterns, node configuration: no modelled code reads them; the annotations of routed branches and loops are therefore not in `Edge`.
- The diagnostics' messages and JSON pointers, and the messages of all other errors.
- The primitives package (barrier, router), the command line, initialisation, visualisation, the MCP server and packaging scripts: plumbing or finite tables.
- GraphRuns.GraphRun.Run: executes each task in one step, without attempts, slots or interleaving inside a task; those are modelled by the machine in `Scheduler`.
- FanPatterns.Fan: stands for `diamond`, `routedBranches` and `verifiedFanout`, which differ in names and in edge annotations; refusals of unknown fields and of metadata are not modelled, nor the path a fault names.
- LoopPatterns.Unroll: refusals of unknown fields and of metadata are not modelled, nor the path a fault names.
- Patterns.BuildGraph: takes metadata and schemas as valid; reserved labels and malformed schema fields, which are also refused, are not modelled.
- Compiler.CompileGraph: the semantic phase only; the graph hash and the canonical text of the result are not part of it.
- EventStreams.ValidateAppendEvents: one entry stands for all schema faults of an event.
- JsonlStore.JsonlEventStore.Load: all faults of a log are one answer, as they are one error class; which line and which fault the message names is not modelled.
- RunReports.AssembleReport: the graph hash, the attempt total and the peak concurrency are copied into the report and not modelled there.
- PythonText.CompactJson: the sorted text only, which is the one that is hashed and compared; the unsorted default is not modelled.
- Attempts: the promises of one attempt and their order; a thenable that is not a promise only settles later, which is a later event of the model.
- The machine in `Scheduler` follows the TypeScript runtime. The Python main loop settles all finished tasks of a turn before it launches again; `GraphRuns.GraphRun` covers that loop, and `NodeRuns` the Python retry loop, but their interleavings are not a second machine.
- Concurrent saves of checkpoints: they queue per run as event-log operations do; only single saves, cut at any step, are modelled.
- SchedulerRuns.RunBounded: bounds the number of steps; that a running executor returns at all is an assumption on the executor.

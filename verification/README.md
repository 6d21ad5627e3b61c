# AetherMesh, in Dafny

A model of the AetherMesh controller's hard logic, and proofs about it. AetherMesh runs
tasks on a mesh of nodes: workflows whose steps read each other's outputs, a queue that
promotes what has waited, data moved to nodes once and reused, results remembered. Each
part below is a model of one part of the repository and the laws it keeps over whole runs.

- **Workflows** (`Workflow`, `Ancestry`, `Flow*`, `Journal`, `Utf8`). Kahn's ordering, the
  runner that releases steps as others finish in any order, which steps it lists as skipped,
  whole histories of attempts that resume from the journal, and the bytes of the journal. A
  run is the list of finishes; the reference is a sequential evaluation. An unsigned counter
  that would go below zero is an explicit stop, as in a build with overflow checks.
- **Queue and dispatcher** (`Queue*`, `Dispatcher`, `DispatchAnswers`, `HangUp`). The ageing
  priority queue and the loop that drives it. The dispatcher is a state machine in which
  clients, dispatches and the loop interleave freely; who is told what is stated of the
  commands sent and of what the queue did.
- **Dispatch protocol** (`Protocol*`). Any number of concurrent submissions: the map of
  transfer locks with its reference counts, the catalog, one first-in first-out connection
  per node, in-flight counts, retries, cancellation. `Protocol.Step` says, table by table,
  what each step does; the shared tables are also a class whose methods are proved to
  compute exactly those functions.
- **Chunks** (`Chunks`, `Assembly`). Splitting a dataset, choosing what a node lacks,
  rebuilding it from pieces in any order.
- **Arithmetic** (`Calendar*`, `Autoscale*`). Day counts to dates, written twice; the
  autoscaler's rounding, dead band and cooldown.
- **Cache** (`Cache`). Answering repeated work without running it.

`dafny verify dfyconfig.toml` checks everything.

Where the code does not do what its comments say, the code is modelled and the exact
condition under which the comment holds is proved:

| comment | what holds |
|---|---|
| a failed step stops the steps waiting on it (flow.rs:128-131) | for every run from the start or from a closed set of finished steps, exactly when each step's dependencies form a chain: `FlowIsolation.FailureStopsDownstream` |
| skipped steps are reported (flow.rs:75-76) | all of them, in every run from the start or from a closed set, exactly when nobody waits for a step that is listed without passing it on: `FlowSkips.SkipsExactly`; with one dependency each, when no four steps lie in a row: `FlowSkips.ChainsOfFour` |
| success means every step ran (flow.rs:109) | exactly when no step lists a dependency twice: `FlowLaws.DuplicatesStarve` |
| a finished step is not run again (flow.rs:143-144) | exactly when the resumed set is closed under dependencies: `FlowResume.ResumeIsSafeIffClosed` |
| a resumed run picks up where it stopped (flow.rs:143-155) | an attempt that resumes a closed set has the same outputs, whatever the attempts before it resumed, exactly when of any two dependencies of a step one is itself a dependency of the other: `FlowUnclosed.ResumeAnyExactly`; if every attempt resumed a closed set, exactly when one is upstream of the other: `FlowPoison.ResumeExactly`; after a single attempt always: `FlowHistory.OneInterruption` |
| a torn line costs that line (checkpoint.rs:128-130) | cut between two characters, it costs the next record as well, and itself even when only its end was cut; cut inside one, it costs the whole file: `Journals.TornLineTakesTheNext` |
| the newest among equals gives way (queue.rs:256-257) | the one that has waited longest does, so exactly when it has no equal: `QueueRuns.LongestWaitGivesWay` |
| the lock map does not leak (dispatch.rs:588-592) | entries are orphaned by exactly the steps `ProtocolTransfers.LeaksExactly` names, and left exactly when nobody takes the pair up again: `ProtocolTransfers.EntriesLeftExactly`; two reachable leaks are in `ProtocolLeaks` |
| every submission is answered (client.rs:451-453) | every one received: `Dispatchers.ExactlyOneAnswer`; every one sent, exactly when the clients do not hang up between the loop's last look at the channel and its check that they are gone, the running of workflows included, with commands in the channel and only dated tasks queued: `HangUps.UnheardExactly` |
| a chunk is never sent to a node twice (dispatch.rs:665-666) | nor once more when the first batch was lost: `Assembly.LostBatchIsNotRepeated` |
| the dead band stops the mesh oscillating (autoscale.rs:84-85) | exactly when the load does not swing: `AutoscaleSettles.SharedSettlesExactly` |

## Model

| member | source | states |
|---|---|---|
| Workflows.Order | crates/aether-core/src/workflow.rs:143-185 | Kahn's loop succeeds exactly when the graph is acyclic; the plan lists every step once after its dependencies and always takes the least ready index; on failure every step named waits for another of those named or for one that does not exist |
| Flows.BuildTask | crates/aether-controller/src/flow.rs:344-358 | the loop over dependencies yields the declared inputs followed by each known output not yet listed |
| Flows.TaskReads | crates/aether-controller/src/flow.rs:344-358 | what is submitted for a step is the step's own task, reading its declared inputs first and then each output it depends on once, in the order the dependencies are listed |
| Flows.InputsAre | crates/aether-controller/src/flow.rs:350-356 | a step reads exactly its declared inputs and the outputs of its own dependencies |
| Flows.CompleteStep | crates/aether-controller/src/flow.rs:261-312 | the release and give-up loops compute the same state as the transition the theorems are about, including where a counter would go below zero |
| FlowRuns.StartInv | crates/aether-controller/src/flow.rs:180-221 | every start, resumed or not, has exact counters, marks exactly the usable steps as resumed with their recorded outputs, and never takes a counter below zero |
| FlowInvariant.CompleteKeeps | crates/aether-controller/src/flow.rs:288-311 | a finish of a step not resumed that is a success, or that nothing resumed waits on (as when the resumed set is closed), keeps every counter equal to the dependencies not yet heard from and never goes below zero |
| FlowRuns.SeqEvalFixpoint | crates/aether-controller/src/flow.rs:344-358 | the sequential reference: every step's output is its work applied to the task built from the final outputs |
| FlowLaws.DependenciesFirst | crates/aether-controller/src/flow.rs:226-313 | with nothing failing, every step comes back after everything it depends on |
| FlowLaws.Confluence | crates/aether-controller/src/flow.rs:219-313 | when all steps succeed, any order of finishes is a topological order with each step once, and the outputs equal sequential evaluation in any topological order |
| FlowLaws.DuplicatesStarve | crates/aether-controller/src/flow.rs:109-112 | a run in which nothing fails reports success, yet ran every step if and only if no step lists a dependency twice |
| FlowLaws.SuccessMeansEverything | crates/aether-controller/src/flow.rs:109-112 | without duplicates and with a closed resumed set, success is reported if and only if every step was resumed or ran and succeeded |
| FlowLaws.UntouchedByFailure | crates/aether-controller/src/flow.rs:128-131 | a step none of whose ancestors failed runs, is not skipped, and has its all-success output, whatever else failed |
| FlowTheorems.FailureIsolation | crates/aether-controller/src/flow.rs:252-313 | run, skipped and resumed steps are disjoint; a closed set in which nothing failed is complete with the sequential outputs |
| FlowIsolation.FailureStopsDownstream | crates/aether-controller/src/flow.rs:288-310 | no descendant of a failed step is ever submitted, in any run from the start or from a closed set of finished steps, if and only if every step's dependencies are pairwise ordered by ancestry |
| FlowIsolation.OneDependencyIsChained | crates/aether-controller/src/flow.rs:288-310 | in particular when each step has at most one dependency |
| FlowSkips.FailedFinish | crates/aether-controller/src/flow.rs:288-310 | a failure makes exactly those dependents give up and pass it on that have heard from everything else, counting those written before them that gave up on the same failure |
| FlowSkips.SkippedNearFailure | crates/aether-controller/src/flow.rs:303-309 | in every run from the start or from a closed set, a step is listed as skipped only when a step failed one or two edges upstream of it |
| FlowSkips.UnlistedExactly | crates/aether-controller/src/flow.rs:288-310 | in every finished run from the start or from a closed set, a step is neither run nor listed nor resumed if and only if something it depends on was neither run, nor resumed, nor gave up and passed it on |
| FlowSkips.SkipsExactly | crates/aether-controller/src/flow.rs:75-76 | every finished run from the start or from a closed set accounts for every step, run, listed or resumed, if and only if no step of the workflow waits for one that a failure would list without its passing it on; a condition on the graph and the order steps are written in |
| FlowSkips.ChainsOfFour | crates/aether-controller/src/flow.rs:303-309 | with at most one dependency each: if and only if no four steps lie in a row |
| FlowRunner.SkippedStopsAtTwo | crates/aether-controller/src/flow.rs:303-309 | an instance: in every chain of four or more steps, failing the first ends a run with exactly the next two listed as skipped and the rest neither run nor listed |
| FlowRunner.RunsEnd | crates/aether-controller/src/flow.rs:226-239 | every run is finite: each finish spends a budget fixed at the start |
| FlowRunner.RunWorkflow | crates/aether-controller/src/flow.rs:167-337 | the whole loop: refused exactly for cyclic workflows, naming steps that wait on each other; otherwise a run of the step relation; a result is the report of a finished run, with each step that came back, its last result, the steps resumed and (with a closed set and no duplicates) exactly those given up on; a dispatch error comes exactly of a task no node could take, a loss exactly of a lost task, and a closed resumed set rules out underflow |
| FlowReport.ReportExactly | crates/aether-controller/src/flow.rs:62-79 | of every run: one result per step that came back, in the order the steps were written, each beside its own step and equal to what it last came back with; and exactly the steps resumed |
| FlowReport.SkippedExactly | crates/aether-controller/src/flow.rs:288-316 | a finished run from the start or from a closed set lists as skipped exactly the steps that were not resumed and never came back though everything they depend on was resumed, came back, or gave up on a failure and passed it on |
| FlowRunner.ResumeLoop | crates/aether-controller/src/flow.rs:191-221 | the loop over the plan computes the starting state from the records whose output is still held |
| FlowResume.OneAttemptIsClean | crates/aether-controller/src/flow.rs:261-286 | the records one attempt writes, taken closed under dependencies, have no failed ancestor in it |
| FlowResume.SoundRunIsRight | crates/aether-controller/src/flow.rs:191-221 | a run that resumes from a closed set of right outputs, and in which nothing fails, ends with the sequential outputs, each step resumed or run and never both |
| FlowHistory.JournalCame | crates/aether-controller/src/flow.rs:261-286 | the journal holds a record exactly for each success with an output that came back in an earlier attempt |
| FlowHistory.FoundLatest | crates/aether-controller/src/checkpoint.rs:219-244 | what an attempt finds for a step is its latest record in the journal of all attempts so far |
| FlowHistory.OneInterruption | crates/aether-controller/src/flow.rs:143-155 | after one interrupted attempt, for every workflow: an attempt that found a closed set and ends well has the outputs of an uninterrupted run |
| FlowHistory.ResumePreserves | crates/aether-controller/src/flow.rs:143-155 | after any number of attempts, each of which found a closed set of what the journal has and the mesh still holds, whatever failed: on a workflow whose dependencies lie on one path, an attempt that ends well has the outputs of an uninterrupted run, each step resumed or run and never both |
| FlowPoison.PoisonedHistory | crates/aether-controller/src/flow.rs:261-294 | on every other workflow of distinguishable steps, three attempts from closed sets, the last of which ends well with a wrong output |
| FlowPoison.ResumeExactly | crates/aether-controller/src/flow.rs:143-155 | over the histories in which every attempt found a closed set, and for every kind of work, resuming preserves meaning if and only if of any two dependencies of a step one is upstream of the other |
| FlowPoison.ResumeExactlyForShape | crates/aether-controller/src/flow.rs:143-155 | the same, over the same histories, of the graph alone and whatever its steps do, with nothing asked of them |
| FlowTally.AdvanceEven | crates/aether-controller/src/flow.rs:288-311 | in a run that resumed any set, closed or not, every finish that does not underflow keeps each counter at the dependencies less those resumed and less those that came back or gave up, a step that is both counted twice |
| FlowTally.NoDouble | crates/aether-controller/src/flow.rs:198-216 | where of any two dependencies of a step one is a dependency of the other, no resumed step that others wait on is ever counted a second time |
| FlowDirect.FinishClean | crates/aether-controller/src/flow.rs:288-302 | there, whatever was resumed and whatever failed, every step submitted has all its dependencies resumed or succeeded |
| FlowDirect.DirectRecord | crates/aether-controller/src/flow.rs:261-286 | there, a run from right outputs, closed under dependencies or not, records right outputs only, whatever fails in it |
| FlowDirect.DirectPreserves | crates/aether-controller/src/flow.rs:143-155 | there, an attempt that ends well from a closed set has the outputs of an uninterrupted run, whatever the attempts before it resumed, whatever failed and was lost |
| FlowUnclosed.UnclosedHistory | crates/aether-controller/src/flow.rs:198-294 | on every other workflow of distinguishable steps: the first attempt runs everything, the second resumes a set that is not closed and records a join that ran past a failure, the third finds everything, ends at once and reports success with a wrong output |
| FlowUnclosed.ResumeAnyExactly | crates/aether-controller/src/flow.rs:143-155 | over all histories in which the attempt that ends found a closed set, and for every kind of work, resuming preserves meaning if and only if of any two dependencies of a step one is a dependency of the other |
| FlowUnclosed.ResumeAnyExactlyForShape | crates/aether-controller/src/flow.rs:143-155 | the same, over all those histories, of the graph alone and whatever its steps do |
| FlowUnclosed.LadderHistory | crates/aether-controller/src/flow.rs:198-294 | an instance whose dependencies do lie on one path: four steps, the last reading the first and the third; an attempt that finds the second step alone, the third failing, then success reported with the wrong output of the last |
| FlowJoin.JoinHistory | crates/aether-controller/src/flow.rs:261-294 | two steps and their join, with nothing ever lost: a failure, an interruption, and a third attempt that ends at once without a failure and with the wrong output of the join |
| FlowResume.ResumeIsSafeIffClosed | crates/aether-controller/src/flow.rs:198-216 | with nothing failing, a resumed run ends without re-running a finished step and without underflow if and only if the resumed steps are closed under dependencies |
| Journals.Journal.Append | crates/aether-controller/src/checkpoint.rs:166-185 | if nothing was cut short before and all of it is text, the record is read back after everything that was there, and nothing is cut short now |
| Journals.AppendReads | crates/aether-controller/src/checkpoint.rs:171-217 | after a torn end, an append is read as everything before and one line made of the torn end and the new record, and the file is text if and only if what was before is and that line is |
| Journals.Journal.Records | crates/aether-controller/src/checkpoint.rs:192-217 | the loop yields the readable lines, oldest first, skipping blank and unreadable ones, and refuses the whole file if and only if some line is not text |
| Journals.Journal.Completed | crates/aether-controller/src/checkpoint.rs:224-244 | the loop computes the map from the file, or either refusal |
| Journals.RoundTrip | crates/aether-controller/src/checkpoint.rs:171-217 | what was appended is read back, all of it and in order |
| Journals.TornLineTakesTheNext | crates/aether-controller/src/checkpoint.rs:166-185 | after a write cut short at any byte, the end of line included: reading is refused, before the next append and after it, if and only if the cut is inside a character; otherwise the cut record reads back if and only if all of it is there, and the next append loses both records unless nothing of the cut one was left |
| Journals.RefusedForGood | crates/aether-controller/src/checkpoint.rs:198-202 | a file refused for one of its ended lines is refused whatever is appended |
| Utf8.RoundTrip | crates/aether-controller/src/checkpoint.rs:171-202 | text written as UTF-8 reads back as it was |
| Utf8.DecodeSound | crates/aether-controller/src/checkpoint.rs:198-202 | bytes are accepted only as the encoding of the text they read as |
| Utf8.StandardForms | crates/aether-controller/src/checkpoint.rs:171-185 | the encoding is the standard one on the examples of section 7 of RFC 3629 |
| Utf8.CutShort | crates/aether-controller/src/checkpoint.rs:128-130 | written text cut at any byte is text if and only if the cut is between two characters, whatever is written after it |
| Journals.FormatsExist | crates/aether-controller/src/checkpoint.rs:171-217 | there is a format of which all that is assumed of the JSON text holds |
| Journals.CompletedIsLatest | crates/aether-controller/src/checkpoint.rs:219-244 | accepted if and only if every record of the run has this fingerprint, and then each step maps to its latest record and to nothing otherwise; a refusal names the first other fingerprint and this one |
| Queues.EffectivePriority | crates/aether-controller/src/queue.rs:81-95 | the promotion loop gives the declared level plus one for each ageing period waited, up to critical |
| Queues.Queue.PushWithTimeout | crates/aether-controller/src/queue.rs:201-232 | the new queue and the answer, for all three rejection policies |
| Queues.Queue.MakeRoom | crates/aether-controller/src/queue.rs:238-271 | the victim the policy names is removed and returned, or nothing changes |
| Queues.Queue.PopNext | crates/aether-controller/src/queue.rs:274-291 | the most urgent entry, the earliest among equals, is removed and returned |
| Queues.Queue.ExpireAll | crates/aether-controller/src/queue.rs:298-309 | the index loop splits the entries by deadline, both parts in order |
| QueueRuns.SweepPartitions | crates/aether-controller/src/queue.rs:298-309 | a sweep is a stable partition: nothing lost or made up, each part exactly its kind, arrival order kept |
| QueueFates.SweepExactly | crates/aether-controller/src/queue.rs:201-309 | in any run, a sweep removes a task if and only if it still waits and has waited its own limit, or else the queue's; never when neither is set |
| QueueFates.ExpiresExactly | crates/aether-controller/src/queue.rs:298-309 | over any run, a task ends expired if and only if some sweep found it waiting and overdue |
| QueueFates.AgesExactly | crates/aether-controller/src/queue.rs:81-95 | a task is as urgent as a higher level if and only if it has waited one ageing period for each level in between |
| QueueFates.OfferExactly | crates/aether-controller/src/queue.rs:201-271 | in any run, an offer is queued if and only if there is room, takes another's place if and only if the policy finds one, and is refused otherwise; dropping the oldest drops the earliest arrival still waiting, dropping the least urgent one than which none waiting is less so |
| QueueRuns.Conservation | crates/aether-controller/src/queue.rs:201-309 | over any run, the offered tasks are exactly those waiting, taken, expired, refused and displaced, each entry in one place once; strict arrival order and the size limit hold |
| QueueRuns.Precedence | crates/aether-controller/src/queue.rs:274-291 | in any run, what is taken while an earlier arrival waits is not outranked by it: its priority exceeds the other's plus the levels of its head start |
| QueueRuns.PrecedenceIsExact | crates/aether-controller/src/queue.rs:274-291 | the bound is tight: of two tasks, the second goes first if and only if it is not outranked |
| QueueRuns.NoStarvation | crates/aether-controller/src/queue.rs:79-95 | with ageing on, no more are taken while a task waits than were waiting when it came plus those offered before waiting alone made it critical |
| QueueRuns.FullQueueKeepsUrgent | crates/aether-controller/src/queue.rs:250-269 | under drop-lowest-priority, over any run of offers, everything refused or displaced was at that moment no more urgent than anything still held |
| QueueRuns.LongestWaitGivesWay | crates/aether-controller/src/queue.rs:256-260 | among the equally urgent, the displaced entry is the earliest arrival; it is the newest if and only if it is the only one |
| Dispatchers.Dispatcher.Admit | crates/aether-controller/src/client.rs:526-609 | a read is answered, a workflow set aside, a submission queued or somebody told there is no room |
| Dispatchers.Dispatcher.Choose | crates/aether-controller/src/client.rs:476-495 | everything late is answered, in order, and the next entry taken from what is left |
| Dispatchers.ExactlyOneAnswer | crates/aether-controller/src/client.rs:424-522 | in every run, a request received is pending in one place or answered, once; nobody else is; all are answered when the dispatcher returns; requests are received in order; dispatches out never exceed max(in_flight, 1) |
| Dispatchers.UnheardSubmission | crates/aether-controller/src/client.rs:465-493 | a submission that arrives during the last workflow can be left in the channel when the dispatcher returns |
| DispatchAnswers.AnswersExactly | crates/aether-controller/src/client.rs:440-600 | in every run, who is told what: a timeout exactly those the queue expired, no room exactly those it refused or displaced, a result exactly those taken and no longer out, a report exactly the workflows that are through and in the order they came, facts exactly the reads; and the queue is offered exactly the submissions received, in order, with their own limits |
| DispatchAnswers.SpawnsExactly | crates/aether-controller/src/client.rs:503-516 | a task taken goes out if and only if fewer dispatches than allowed hold a permit, one being always allowed |
| DispatchAnswers.RestsWhenIdle | crates/aether-controller/src/client.rs:440-458 | with nothing owed, nothing in the channel and nothing out, the loop waits for a client |
| HangUps.UnheardExactly | crates/aether-controller/src/client.rs:440-495 | when the clients hang up, some continuation returns with commands left in the channel if and only if there are some, the loop is past its last look at the channel and not yet at its check for a hang-up (workflows run in between, if there are any), and everything queued has a deadline |
| HangUps.EveryoneHeard | crates/aether-controller/src/client.rs:440-522 | otherwise everything ever sent is received, and answered exactly once, in every run that returns |
| Dispatchers.DispatchOrder | crates/aether-controller/src/client.rs:473-487 | the queue's precedence holds of whole runs of the dispatcher |
| Dispatchers.NeverStuck | crates/aether-controller/src/client.rs:440-521 | while an answer is owed or the clients have gone, some step of the dispatcher's own is possible |
| Dispatchers.RunsEnd | crates/aether-controller/src/client.rs:440-521 | once the clients have gone every run is bounded and can always go on until the dispatcher returns |
| Dispatchers.EveryRunAnswers | crates/aether-controller/src/client.rs:450-453 | a run that cannot go on has answered exactly once everyone it received |
| Protocol.Controller.TransferLock | crates/aether-controller/src/dispatch.rs:581-586 | the pair's lock, made if missing, with one more reference |
| Protocol.Controller.ReleaseTransfer | crates/aether-controller/src/dispatch.rs:593-600 | the entry goes when two references or fewer are left |
| Protocol.Controller.BeginOn | crates/aether-controller/src/dispatch.rs:629-633 | one more out on the node |
| Protocol.Controller.FinishedOn | crates/aether-controller/src/dispatch.rs:635-643 | one fewer, and no entry left at zero |
| ProtocolLocks.SingleFlight | crates/aether-controller/src/dispatch.rs:531-600 | under every interleaving, with submissions cancelled wherever they await, the lock a submission waits for or holds is the one the map has for its pair, and no two submissions transfer the same pair at once |
| ProtocolLocks.ReleaseExact | crates/aether-controller/src/dispatch.rs:593-600 | a release removes the entry if and only if no other submission has a handle |
| ProtocolTransfers.SendBound | crates/aether-controller/src/dispatch.rs:540-574 | with reuse on, whole sends of a pair are at most one more than the times the catalog forgot it |
| ProtocolTransfers.NoDeadlock | crates/aether-controller/src/dispatch.rs:532-575 | while a submission is not over, some submission can take a step without being cancelled |
| ProtocolTransfers.LeaksExactly | crates/aether-controller/src/dispatch.rs:537-600 | an entry is orphaned by a step if and only if the last submission concerned leaves by error, by being cancelled wherever it awaits, or by releasing while another still has a handle |
| ProtocolTransfers.OrphanStays | crates/aether-controller/src/dispatch.rs:526-600 | an orphaned entry stays one through every step but a submission taking its pair up |
| ProtocolTransfers.EntriesLeftExactly | crates/aether-controller/src/dispatch.rs:588-600 | in every run, once every submission is over, an entry is left if and only if some step abandoned it and no submission took the pair up after that |
| ProtocolTransfers.TidyLeavesNothing | crates/aether-controller/src/dispatch.rs:588-600 | a run without such steps leaves the map empty once every submission is over |
| ProtocolLeaks.MissingInputLeaks | crates/aether-controller/src/dispatch.rs:548-551 | a submission with an unknown input ends and leaves its lock behind |
| ProtocolLeaks.CrossingReleasesLeak | crates/aether-controller/src/dispatch.rs:593-600 | two submissions that both succeed can leave the lock behind, each counting the other's handle |
| ProtocolDelivery.DeliveryOrder | crates/aether-controller/src/network.rs:65-113 | under every interleaving, each catalog entry is in its node's store or ahead in its queue, and no assignment is handled, nor task executed, without all its inputs in the store |
| ProtocolDelivery.HandleInOrder | crates/aether-agent/src/client.rs:274-300 | the agent taking the oldest message keeps every queued assignment's inputs stored or ahead of it |
| ProtocolDelivery.LearnedReal | crates/aether-controller/src/dispatch.rs:489-511 | the catalog is never told of data that is neither stored on the node nor on its way |
| ProtocolOutcomes.DecideExactly | crates/aether-controller/src/dispatch.rs:437-480 | in every run, after an attempt a submission is through if and only if a node answered, no other node could help, or it has used up its attempts; otherwise every node not yet tried may be chosen |
| ProtocolOutcomes.DecideLearns | crates/aether-controller/src/dispatch.rs:455-511 | the catalog then loses exactly the pairs of a node that is to be retried elsewhere, and gains exactly the output of a success, which the controller keeps too |
| ProtocolOutcomes.EndsExactly | crates/aether-controller/src/dispatch.rs:437-482 | in every run, a submission is over if and only if it went through, was offered no node or was dropped; one that went through has what its last attempt came to, and if that was a node out of reach it had tried as many as it may |
| ProtocolOutcomes.CatalogExactly | crates/aether-controller/src/dispatch.rs:455-575 | in every run, the catalog has a pair if and only if it was told of it and has not had to forget it since |
| ProtocolOutcomes.LibraryExactly | crates/aether-controller/src/dispatch.rs:489-511 | in every run, the controller holds exactly what was published or produced |
| ProtocolWire.WireExactly | crates/aether-controller/src/network.rs:65-113 | in every run and for every node, the queue is what was sent less what was taken, in order; the store holds exactly the data taken and the outputs left there; a submission runs there if and only if its assignment was taken |
| ProtocolWire.InputsExactly | crates/aether-controller/src/dispatch.rs:425-437 | in every run, each submission reads what it was made with, and what is sent to a node to be run is that submission with just those inputs |
| ProtocolWire.SendsWhatItHas | crates/aether-controller/src/dispatch.rs:548-551 | in every run, a dataset is only ever sent that the controller holds |
| ProtocolWire.SentOnceMore | crates/aether-controller/src/dispatch.rs:530-576 | with reuse on, the sends of a dataset to a node among the steps of any run are at most one more than the times the catalog lost the pair |
| ProtocolRetry.RetryAccounting | crates/aether-controller/src/dispatch.rs:425-481 | under every interleaving a node's in-flight count is its outstanding attempts plus those cancelled half way; attempts are on distinct nodes, at most max_attempts and at most the nodes there are |
| ProtocolRetry.EmptyAtRest | crates/aether-controller/src/dispatch.rs:629-643 | with every submission over, the in-flight map is empty if and only if none was cancelled half way |
| ProtocolRetry.SubmissionsEnd | crates/aether-controller/src/dispatch.rs:437-480 | the submissions there are take a bounded number of steps, however they interleave |
| Chunks.PiecesExact | crates/aether-core/src/chunk.rs:34-47 | every piece has the size asked for but the last, which has what is left and is not empty |
| Chunks.RangesExact | crates/aether-core/src/chunk.rs:34-63 | chunk ranges are the pieces' own if and only if the chunk size fits 32 bits or there is one piece |
| Chunks.Sender.SendChunked | crates/aether-controller/src/dispatch.rs:653-690 | the loop's batch is the plan, with the bytes of each chunk's range, which are its own piece where the chunk size fits 32 bits; skipped plus sent is the manifest length; bytes counted are those in the batch; every chunk is credited |
| Chunks.ChunkPlan | crates/aether-controller/src/dispatch.rs:664-683 | with reuse on, the batch holds exactly the first occurrence of each content the node lacked, in order, none twice |
| Chunks.EveryChunk | crates/aether-controller/src/dispatch.rs:664-670 | with reuse off, the batch holds every chunk in order |
| Assembly.FillRight | crates/aether-core/src/chunk.rs:154-175 | filling from the store ends with every piece the store has, or with the original bytes when that is all of them |
| Assembly.AnyOrderRebuilds | crates/aether-core/src/chunk.rs:124-242 | a node holding what it is credited with, receiving the batch in any order with repetitions, delivers the original bytes exactly once and nothing else |
| Assembly.NothingForged | crates/aether-core/src/chunk.rs:124-242 | whatever arrives, in whatever order, nothing but the dataset comes out, at most once; a piece is refused exactly for a place there is not or bytes that do not belong there, until the dataset is out |
| Assembly.FalseManifest | crates/aether-core/src/chunk.rs:221-241 | a manifest that names one dataset and lists the pieces of another delivers neither and says so |
| Assembly.LostBatchIsNotRepeated | crates/aether-controller/src/dispatch.rs:679-689 | once credited, a dataset's next plan is empty, and the node then has it if and only if every piece is already in its store |
| Calendar.YearOfEraRight | crates/aether-cloud/src/sigv4.rs:145-148 | the year formula finds the year the day falls in, for every day of an era |
| Calendar.NextDay | crates/aether-cloud/src/sigv4.rs:141-154 | for every day count the date is valid and the next count gives the next date of the calendar |
| Calendar.RoundTrip | crates/aether-cloud/src/sigv4.rs:141-154 | conversion and counting days year by year and month by month are inverse, both ways |
| Calendar.DatesGrow | crates/aether-cloud/src/sigv4.rs:141-154 | later day counts have later dates |
| Calendar.UtcRight | crates/aether-benchmark/src/network.rs:651-675 | both implementations agree at every second; the fields are a time of day on a valid date and give the seconds back |
| CalendarText.SameText | crates/aether-cloud/src/sigv4.rs:129-137 | the signed form of a moment is the reported form without its separators |
| CalendarText.ReportReads | crates/aether-benchmark/src/network.rs:674-674 | through the year 9999, a report is twenty characters from which each field reads back |
| CalendarText.TextOrder | crates/aether-benchmark/src/network.rs:674-674 | reports sort as text in time order, through the year 9999 |
| Autoscale.Autoscaler.Decide | crates/aether-controller/src/autoscale.rs:172-178 | a change is recommended only when none is settling, and then every decision for the whole cooldown, on any reading, is to wait |
| Autoscale.CooldownKept | crates/aether-controller/src/autoscale.rs:162-178 | in any run of readings, two recommendations are at least the cooldown apart |
| Autoscale.RecommendationsSane | crates/aether-controller/src/autoscale.rs:185-275 | in any run, a recommendation is inside the limits, really a change in its direction, and never shrinks the mesh while work waits |
| AutoscaleTargets.DecisionExactly | crates/aether-controller/src/autoscale.rs:185-275 | for each of the three targets, from what was read: grow if and only if the reading is above the dead band and the fewest nodes that are enough, inside the limits, are more than there are, and to those; shrink if and only if it is under the band, nothing waits and the most nodes kept busy are fewer, and to those; and the reason otherwise |
| AutoscaleTargets.CooldownExactly | crates/aether-controller/src/autoscale.rs:162-178 | in any run, nothing is recommended for the last change's sake if and only if one was recommended less than the cooldown ago; waiting does not start it anew |
| AutoscaleSettles.QueueSettles | crates/aether-controller/src/autoscale.rs:202-275 | with a constant queue and any tolerance, following queue-length recommendations from any size rests after two changes for ever |
| AutoscaleSettles.TwoChanges | crates/aether-controller/src/autoscale.rs:172-275 | with the cooldown counted, any run of readings under a constant queue holds at most two recommendations |
| AutoscaleSettles.SharedSettlesExactly | crates/aether-controller/src/autoscale.rs:213-275 | under constant work, busy processors or a wait that more nodes shorten, following the recommendations rests from every size if and only if something waits or the two roundings of the load are not both outside the dead band |
| AutoscaleSettles.SharedSettles | crates/aether-controller/src/autoscale.rs:213-275 | and then three changes are enough |
| AutoscaleSettles.WideBandSettles | crates/aether-controller/src/autoscale.rs:82-86 | a tolerance of one node in the number needed is enough |
| AutoscaleSettles.NarrowBandSwings | crates/aether-controller/src/autoscale.rs:82-98 | the default tolerance, for work of 1.3 nodes, alternates between one node and two for ever |
| Caches.SameWork | crates/aether-controller/src/cache.rs:29-36 | two tasks share a key if and only if they are the same work |
| Caches.ResultCache.Get | crates/aether-controller/src/cache.rs:83-107 | the live entries stay, the stored result comes back under the asker's id, and one counter moves |
| Caches.ResultCache.Put | crates/aether-controller/src/cache.rs:111-140 | a success is stored, an oldest entry making room when full; a failure changes nothing; the capacity holds |
| Caches.CacheRefines | crates/aether-controller/src/cache.rs:83-140 | in any run of lookups, stores and clears, an answer has the output of running the task, the asker's id, and is a success stored earlier within the time to live; the capacity always holds |
| Caches.HitsExactly | crates/aether-controller/src/cache.rs:83-140 | in any run, a lookup finds an answer if and only if a success of the same work was stored and not cleared, dropped or found too old since, and is not too old now; and it is the last one stored |
| Caches.StoringExactly | crates/aether-controller/src/cache.rs:111-140 | in any run, a success is always stored, and a full cache drops exactly one entry for it, stored no later than any other there |

## Left out

- FlowHistory.ResumePreserves: histories in which every attempt found a closed set; an attempt that did not may repeat finished steps, stop at a counter (`FlowResume.ResumeIsSafeIffClosed`) or record a wrong output, and `FlowUnclosed.ResumeAnyExactly` is about all of these. Records that could not be written are not modelled.
- FlowPoison.ResumeExactly: the same histories; `FlowUnclosed.ResumeAnyExactly` has the condition for all. Both ask that no two steps be the same work, since two that are have the same output and either does for the other; `FlowPoison.ResumeExactlyForShape` and `FlowUnclosed.ResumeAnyExactlyForShape` ask nothing of the steps.
- Flows.CompleteStep: a counter that would go below zero stops the run, as a build with overflow checks does; the release profile (Cargo.toml:31-36) sets none, so there the counter wraps and the run goes on.
- FlowRunner.RunWorkflow: placements and bytes moved are not part of the report; a panic in a spawned dispatch is not modelled.
- Protocol.Step: submit and ensure_inputs are steps of an interleaved machine rather than loops in a method, because other submissions run between any two of their lines; the tables they share are updated in place in `Protocol.Controller`. Choosing a node is any member of the mesh not yet tried.
- ProtocolDelivery.DeliveryOrder: one connection per node, datasets sent whole, and a store that never evicts; a store that evicts without reporting, and tasks that straddle a reconnect, are not guaranteed by the code.
- ProtocolTransfers.SendBound: counts whole datasets; chunked transfers are planned in `Chunks` without other transfers crediting the same node meanwhile.
- ProtocolLeaks.CrossingReleasesLeak: stated with reuse on, as configured by default.
- Chunks.Sender.SendChunked: asks for a manifest made from these bytes, as publishing makes it; compression is left out, so bytes counted are those before it; chunk indices beyond 32 bits are not modelled.
- Assembly.Add: the assembler works on values, one dataset at a time; what several data channels share is not modelled beyond the order pieces arrive in.
- DispatchAnswers.AnswersExactly: says which kind of answer, not the task's own result or how long it waited.
- Dispatchers.ExactlyOneAnswer: speaks of requests the loop took from its channel (`HangUps` says when that is all of them); the channel's own capacity, reads' contents and the counters kept for reporting are left out.
- Queues.EffectivePriority: the ratio of durations is exact, where the code divides floating-point seconds; a deadline past the end of the clock is not modelled.
- Autoscale.Evaluate: exact reals in place of floating point, so no NaN, no rounding and no saturation of a cast; a minimum above the maximum, on which clamping panics, is a precondition.
- CalendarText.TextOrder: years beyond 9999 have more digits and do not sort as text.
- Caches.CacheRefines: the work is taken to be deterministic, as the cache itself assumes, and content addresses to be collision free.
- The fingerprint of a workflow: equal fingerprints are taken to mean the same workflow; the byte string behind it does not separate payloads that contain zero bytes.
- Journal input and output errors other than bytes that are no text, and the JSON text itself: a format is any that writes one line and reads back what it wrote.
- Connections beyond the control channel, heartbeats, probing, link smoothing, history, metrics, and the pending maps for pongs.
- Schedulers' scoring, constraints and link speeds: any candidate may be chosen.
- Sockets, framing, configuration, command lines, SDKs, examples and benchmark drivers: input, output and formatting.
- Cloud adapters, request signing beyond its timestamps, TLS and tokens.

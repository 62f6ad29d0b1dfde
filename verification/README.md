# Coordination engines: a verified model

The repository is a family of small, deterministic engines that coordinate work
between agents, humans and machines. This project models seven of them and
proves what they promise over every input, every run and every reachable state.

* **Workflows** (`toolbox/workflow`): a compiler that sorts steps, and a runtime
  with retries, failure policies, gates and resumption. The sort is the
  lexicographically least topological order and fails exactly on cycles; a run
  never starts a step early, never reruns a finished one, and a series of runs
  stopped at gates makes the calls and reaches the state of one single run.
* **Control cycle** (`kernel`): dispatch, approval and resolution over a graph of
  work packages. In every run, whatever states packages were inserted with, each
  starts at most once, after the acceptance of exactly those dependencies that were
  not inserted as completed; if everything can succeed, what remains of the graph is
  completed in its sorted order, by dispatches alone or with a human approving each
  package.
* **Replication** (`sync`): chunk transfer over a wire that may drop the rest of a
  session, one-way revision sync with tombstones, and two-sided reconciliation.
* **Event projection and replay** (`visualizer`): a live bridge that always equals
  a replay, frames that are single steps of one fold, graphs that only grow and
  depend on nothing but which events were delivered.
* **Task graphs and context fitting** (`sifter`): batches of concurrent workers
  that come to the same as one pass over the tasks, the exact condition on the
  workers under which every run ends, the exact condition on the insertion order
  under which skips reach everything, and the exact condition under which a message
  list can be fitted into a token budget.
* **Memory** (`memory`): a store, a projection kept beside it, and repositories
  with a forward-only lifecycle.
* **Human approval** (`sifter/src/aa_sifter/app.py`): who must have said what
  before the expert tier is called, and exactly how each run ends.

## How to read it

Code that changes things step by step is modelled by methods and classes whose
contracts tie the new state to a specification function of the old one
(`RunResult`, `KState` steps, `ApplyAll`, `Rounds`, `Run`, ...). What the engines
promise is then proved about those functions as lemmas. Outside answers (runners,
gates, workers, humans, models, hashes, dropped sends) are parameters: arbitrary
functions, quantified over in the lemmas. Where the answerer may see more than
one call, as the humans and models of an approval run do, the function is given
everything that happened before.

Modules by engine: `Lex`, `Outcomes`, `Contracts` and `DependencyGraph` are
shared; `WorkflowCompiler`, `WorkflowRuntime`, `WorkflowGuarantees`,
`WorkflowResume`, `WorkflowHistory`; `WorkPlan`, `Assignments`, `Gates`, `ControlState`,
`ControlInvariant`, `ControlCycle`, `ControlRuns`, `ControlApprovals`, `ControlVerdicts`;
`ChunkTransfer`, `TransferSessions`, `TransferOutcomes`, `RevisionSync`,
`OperationOrder`, `RevisionOutcomes`, `ChangeQueue`, `Reconciliation`,
`ReconcileOutcomes`; `SessionProjection`, `ProjectionGuarantees`, `ProjectionExactly`,
`ProjectionNodes`, `Replay`, `Redelivery`, `Bridge`; `TaskGraphs`, `TaskRounds`,
`TaskExecutor`, `SkipPropagation`, `TaskOutcomes`; `ContextFit`, `FittingExactly`;
`MemoryStore`, `MemoryRepos`, `MemoryRuns`, `MemoryOutcomes`; `RoutingPolicy`,
`ApprovalProtocol`, `ApprovalGuarantees`, `ApprovalOutcomes`.

The modules `WorkflowHistory`, `ControlVerdicts`, `ProjectionExactly`,
`ProjectionNodes`, `FittingExactly` and those ending in `Outcomes` (but for the shared
one) say what the engines answer without their specification functions: on the fields
of records, edges, events and messages, on positions in streams and traces, and on what
runners, gates, workers, humans and models return. They fix those functions from
outside, case by case and in both directions.

## Hypotheses the code forces, and where they are lost

* Resuming a workflow needs an attempt left for every unfinished step. The
  requirement is exact (`WorkflowResume.ResumeSafeExactly`), and the state a
  failed step leaves never meets it (`FailedStateIsHopeless`).
* `Add` takes work packages in any state. In every run, at the start of a package
  each dependency has been accepted exactly when it was not inserted as COMPLETED
  (`ControlRuns.RunsAreSafe`); packages inserted in any other state than the
  undispatched ones never move (`RecordsAgree`). A package whose result the intake
  refuses stays RUNNING for good (`StepIsMonotone`), which happens exactly when the
  result is not admissible (`IntakeRefusesExactly`). Packages inserted in other states
  than the undispatched ones and COMPLETED hold back what is behind them, and nothing
  else (`DispatchesGoAsFarAsTheyCan`).
* A newer tombstone over an older one is skipped, so a second difference is empty
  only under an exact condition (`RevisionSync.SecondDiffEmptyExactly`), and the
  order of operations matters (`OrderMatters`) unless, on each path, an operation of
  the top revision is a put with only lower revisions beside it, or there is no
  other operation at all (`OperationOrder.OrderFreeExactly`).
* An exact tie in the queue keeps the first change
  (`Reconciliation.OrderFreeExactly`). Tied sequence numbers keep the order of
  delivery, and a replay shows it: its frames are free of the order of delivery
  exactly when different events have different sequence numbers
  (`Redelivery.FramesOrderFreeExactly`); of a tied cause and effect, the graph has
  the causation edge exactly when the cause came first (`TiedCauseShowsDelivery`).
* A self-loop appears exactly when an event names its own aggregate as actor;
  valid events never do (`ProjectionGuarantees.SelfLoopExactly`).
* A worker may hand a task back as pending or ready. All that is said of whole runs
  of a task graph is said of every run that ends (`TaskRounds.Ends`), and every run
  ends exactly when, after any number of attempts at any task, one is still to come
  that decides it (`TaskRounds.EndsExactly`).
* In every run that ends, skips have reached every task behind a failure, whatever the
  workers did, exactly when two sweeps in insertion order reach all that is behind
  each single failure (`SkipPropagation.SettlesExactly`). A chain of four inserted
  backwards does not meet this (`TaskExecutor.BackwardsLeavesPending`).
* Raw writes bypass the projection and put exactly the written key out of step
  (`MemoryStore.RawPutDesyncsExactly`). A transition takes effect unless the new
  document hashes like the stored one (`MemoryRuns.TransitionExactly`).
  Superseding is not all or nothing: it reports an error and changes memory exactly
  when the old strategy is active, the new one missing and the hashes differ
  (`SupersedeHalfDoneExactly`).
* The call budget is exact; the token and cost limits are checked on estimates, so
  the last reply can pass them by what it exceeds its estimate
  (`ApprovalGuarantees.OvershootsByOneReply`).
* Truncating to m tokens gives m + 4, so a message cannot be reduced below 8
  tokens; the documentation promises that the budget is met, the code meets it
  exactly when the sum of min(tokens, 8) fits (`ContextFit.FitsExactly`).

## Model

| member | source | states |
|---|---|---|
| `DependencyGraph.Drain` | toolbox/workflow/compile.go:107-121 | The loop both sorts share emits, each time, the least node whose dependencies are all out, until no node is available |
| `DependencyGraph.Release` | toolbox/workflow/compile.go:112-119 | Releasing the dependents of an emitted node adds to the ready list exactly those whose last open dependency it was |
| `DependencyGraph.GreedyUnique` | toolbox/workflow/compile.go:87-126 | The greedy order is determined by the graph alone, so map iteration order cannot show |
| `DependencyGraph.GreedyIsLeast` | toolbox/workflow/compile.go:85-121 | A complete greedy order precedes every other topological order lexicographically |
| `DependencyGraph.TopologicalAcyclic` | toolbox/workflow/compile.go:122-125 | A graph with a topological order has no dangling dependency and no cycle |
| `DependencyGraph.StuckHasCycle` | toolbox/workflow/compile.go:122-125 | A sort that stops short leaves a cycle behind |
| `DependencyGraph.OutcomeUnique` | kernel/plan/graph.go:107-143 | Two sorts of graphs with the same dependencies, repetitions aside, return the same: the work-package sort and the workflow sort agree |
| `WorkflowCompiler.TopoOrder` | toolbox/workflow/compile.go:87-126 | Returns the least topological order, or nothing exactly when there is none |
| `WorkflowCompiler.CollectDependencies` | toolbox/workflow/compile.go:51-65 | A step's dependencies without repetition, refused exactly for itself or an unknown step |
| `WorkflowCompiler.CompileStep` | toolbox/workflow/compile.go:42-67 | A step is refused exactly when it is not acceptable; its compiled list is its dependencies sorted, each once |
| `WorkflowCompiler.CompiledSameShape` | toolbox/workflow/compile.go:53-67 | Sorting and removing repetitions keeps every dependency and every cycle |
| `WorkflowCompiler.Compile` | toolbox/workflow/compile.go:30-83 | Compilation succeeds exactly when the structure is acceptable and the dependencies have no cycle, tells the two apart, and the plan says the same as the workflow in the least order |
| `WorkflowCompiler.StructureExactly` | toolbox/workflow/compile.go:30-58 | When a structure is accepted, said of the fields of the workflow and of each step: header, version, distinct ids, known kinds and policies, tools and gates named, retries not negative, dependencies that name other steps |
| `WorkflowRuntime.RunAttempts` | toolbox/workflow/runtime.go:190-201 | The retry loop stops at the first success, with attempt numbers counted on from the prior ones |
| `WorkflowRuntime.RunWithPolicy` | toolbox/workflow/runtime.go:182-221 | Retries, then the failure policy: compensate, skip or fail, and the crash when no attempt was left |
| `WorkflowRuntime.GiveUp` | toolbox/workflow/runtime.go:203-220 | What a step's failure leaves under each policy |
| `WorkflowRuntime.VisitStep` | toolbox/workflow/runtime.go:139-170 | One step of the loop: skip finished ones, check dependencies, ask a gate or run |
| `WorkflowRuntime.Run` | toolbox/workflow/runtime.go:123-173 | The run loop against its reference, from any prior state |
| `WorkflowGuarantees.CompiledPlanReady` | toolbox/workflow/compile.go:30-83 | Every compiled plan has what the runtime relies on |
| `WorkflowGuarantees.PassFacts` | toolbox/workflow/runtime.go:139-151 | The exit for unsatisfied dependencies is never taken |
| `WorkflowGuarantees.RunGuarantees` | toolbox/workflow/runtime.go:123-173 | Finished results come out as they went in and are not run again; the status is complete exactly when every step is terminal |
| `WorkflowGuarantees.RunnerCalls` | toolbox/workflow/runtime.go:182-201 | No call repeats, no step is called after a step that depends on it, attempt numbers continue from the prior count and never pass retries + 1 |
| `WorkflowGuarantees.CallsAfterDependencies` | toolbox/workflow/runtime.go:139-170 | Every call of a run is made when the pass has come to its step, and at that time every dependency of the step is terminal |
| `WorkflowGuarantees.StepCalls` | toolbox/workflow/runtime.go:182-201 | The calls of one step number on from its prior attempts up to its maximum |
| `WorkflowResume.ResumeSafeExactly` | toolbox/workflow/runtime.go:188-220 | A state can be resumed without a crash, whatever runner and gates follow, exactly when every unfinished step has an attempt left |
| `WorkflowResume.FailedStateIsHopeless` | toolbox/workflow/runtime.go:215-220 | The state a failed step leaves has no attempt left, so resuming it never runs the step again |
| `WorkflowResume.GatesAsked` | toolbox/workflow/runtime.go:144-166 | A pass only depends on the gates that are not terminal yet |
| `WorkflowResume.ResumeOnce` | toolbox/workflow/runtime.go:123-173 | Stopping at a gate and resuming makes the calls and reaches the end of one run in which the gates passed so far pass at once |
| `WorkflowResume.TurnedTerminal` | toolbox/workflow/runtime.go:152-166 | A gate that turned terminal during a run has passed in it |
| `WorkflowResume.SeriesIsOneRun` | toolbox/workflow/runtime.go:123-221 | Any series of runs stopped at gates has the state, error and calls of one run |
| `WorkflowResume.SeriesAsIfApprovedAtOnce` | toolbox/workflow/runtime.go:123-221 | When approvals stand, that one run is a run with the last gates |
| `WorkflowHistory.CallsExactly` | toolbox/workflow/runtime.go:182-221 | The calls a step takes: its attempts up to the first that succeeds or the last allowed, then one undo exactly if all failed and the policy compensates |
| `WorkflowHistory.SomeHistory` | toolbox/workflow/runtime.go:123-172 | Every run has a history: steps passed by the rules for steps (complete at the first successful attempt, skipped or compensated after the last, gates passed), and then a stop or the end of the plan |
| `WorkflowHistory.HistoryDecides` | toolbox/workflow/runtime.go:123-221 | The history of a run from any prior state decides its status, error, step entries and attempts: it completes, waits, fails or crashes exactly where and as the rules say |
| `WorkflowHistory.RunFailsExactly` | toolbox/workflow/runtime.go:123-221 | A run fails exactly when its history comes to a step all of whose attempts failed and whose policy neither skips nor could compensate, and completes exactly when it comes to the end |
| `WorkPlan.WorkGraph.Add` | kernel/plan/graph.go:53-67 | Refuses an empty or repeated id; takes any state, PROPOSED by default |
| `WorkPlan.WorkGraph.Topological` | kernel/plan/graph.go:107-143 | The same least order as the workflow sort, though it counts repeated dependencies |
| `WorkPlan.WorkGraph.Validate` | kernel/plan/graph.go:88-104 | Accepts exactly graphs without dangling, self or cyclic dependencies |
| `WorkPlan.WorkGraph.SetState` | kernel/plan/graph.go:146-153 | Sets the state of a known package and nothing else |
| `WorkPlan.WorkGraph.ReadyPackages` | kernel/plan/graph.go:157-178 | Exactly the undispatched packages whose dependencies are completed, in order |
| `Assignments.Assignment.Transition` | kernel/control/assignment.go:80-89 | Moves exactly along the transition table |
| `Assignments.MovesExactly` | kernel/control/assignment.go:31-43 | Exactly the moves there are: on along the line to acceptance, into a pause and back, canceled before collecting, failed between preparation and acceptance, expired under a lease, planned anew after failing or expiring |
| `Assignments.Assignment.Expire` | kernel/control/assignment.go:103-111 | Only a leased or preparing assignment past its lease expires |
| `Assignments.Assignment.Retry` | kernel/control/assignment.go:114-124 | Only an expired or failed assignment starts over, with the next attempt and no lease |
| `Assignments.AcceptedHasRun` | kernel/control/assignment.go:32-44 | An accepted assignment has gone through every stage, in order, since it was last planned |
| `Assignments.FinalStates` | kernel/control/assignment.go:32-44 | Accepted and canceled are final |
| `Gates.EvaluateTests` | kernel/gate/gate.go:45-55 | The tests gate passes exactly when tests were reported and all passed |
| `Gates.Evaluate` | kernel/gate/gate.go:96-115 | The report passes exactly when every gate does and is pending exactly when some gate is |
| `Gates.ApproveKeepsPassing` | kernel/gate/gate.go:72-86 | Approving one package never takes a passing report from another |
| `Gates.ApprovalDecides` | kernel/gate/gate.go:45-86 | With the built-in gates a package passes exactly when its tests do and each human gate has approved it |
| `Gates.Intake.Submit` | kernel/intake/intake.go:47-75 | A new id is recorded once, the same content again changes nothing, other content is a conflict |
| `ControlCycle.Orchestrator.Wire` | kernel/orchestrator/orchestrator.go:66-98 | A new orchestrator has nothing recorded and an empty log |
| `ControlCycle.Orchestrator.New` | kernel/orchestrator/orchestrator.go:66-98 | A graph gets an orchestrator exactly when its dependencies name packages and have no cycle |
| `ControlCycle.Orchestrator.EmitEvent` | kernel/orchestrator/orchestrator.go:336-339 | Appends the event under the next sequence number |
| `ControlCycle.Orchestrator.AcceptWork` | kernel/orchestrator/orchestrator.go:295-309 | Acceptance moves the assignment and its package together and logs it |
| `ControlCycle.Orchestrator.Dispatch` | kernel/orchestrator/orchestrator.go:112-219 | Picks the least ready package and does the reference step, from whatever states packages were inserted with; keeps the invariant, and no discarded transition ever fails |
| `ControlCycle.Orchestrator.Resolve` | kernel/orchestrator/orchestrator.go:222-241 | Re-evaluates the gates of a waiting package and does the reference step, keeping the invariant |
| `ControlCycle.Orchestrator.Approve` | kernel/orchestrator/orchestrator.go:244-250 | Records the approval in every human gate, keeping the invariant |
| `ControlInvariant.IntakeOnlyOnce` | kernel/orchestrator/orchestrator.go:179-192 | The submission of a ready package has an id the intake has never seen, so it is refused exactly when the result is not admissible |
| `ControlRuns.RunsAreSafe` | kernel/orchestrator/orchestrator.go:112-241 | In every run, from any inserted states, log entries are numbered 1..n, no package starts or is accepted twice, at each start a dependency has been accepted exactly when it was not inserted as COMPLETED, and each acceptance follows its own start |
| `ControlRuns.RecordsAgree` | kernel/orchestrator/orchestrator.go:149-241 | Between calls recorded assignments are accepted with COMPLETED, failed with DEFICIENT, or awaiting gates with RUNNING; completion in the run goes with acceptance and rests on a succeeded or partial result passing every gate; other inserted states never move |
| `ControlRuns.StepIsMonotone` | kernel/orchestrator/orchestrator.go:112-250 | The log only grows, completion is final, and a package whose result the intake refused is never picked up again |
| `ControlRuns.IntakeRefusesExactly` | kernel/orchestrator/orchestrator.go:179-192 | In every dispatch of every run the intake refuses exactly when a package was started and the delivered answer is not admissible |
| `ControlRuns.PresetCompletionSkipsAcceptance` | kernel/plan/graph.go:60-62 | Right after wiring, the package picked next starts although none of its dependencies, all inserted as COMPLETED, was ever accepted |
| `ControlRuns.DisabledNeverAccepts` | kernel/orchestrator/orchestrator.go:88-90 | With execution disabled nothing is ever accepted |
| `ControlRuns.DispatchesCompleteInOrder` | kernel/orchestrator/orchestrator.go:112-219 | With packages inserted undispatched or COMPLETED, the former all able to succeed, as many dispatches as there are of them complete the graph in exactly the order the sort gives for what remained (the whole graph, if nothing was COMPLETED), and the next finds nothing |
| `ControlRuns.DispatchesGoAsFarAsTheyCan` | kernel/orchestrator/orchestrator.go:112-219 | With packages inserted in any states, dispatching completes exactly those that no stuck package holds back, in the greedy order of what remained, and then finds nothing |
| `ControlApprovals.ApprovedRunCompletesInOrder` | kernel/orchestrator/orchestrator.go:112-250 | With human gates and packages inserted undispatched or COMPLETED, dispatching, approving and resolving package by package completes the graph in the sorted order of what remained: each dispatch ends pending, each resolution succeeds |
| `ControlVerdicts.DispatchesObey` | kernel/orchestrator/orchestrator.go:112-219 | Every dispatch of every run takes the least package that may start, or does nothing when none may; an admitted succeeded or partial result is accepted exactly when every gate lets it through, stays pending exactly when some gate is undecided, and fails with DEFICIENT exactly when none is undecided and some refuses; any other result fails |
| `ControlVerdicts.ResolutionsObey` | kernel/orchestrator/orchestrator.go:222-241 | Every resolution of every run asks the gates again by the same three rules, for assignments awaiting them, and refuses any other without a change |
| `ControlVerdicts.ApprovalsObey` | kernel/orchestrator/orchestrator.go:244-250 | Every approval of every run adds the package to the human gates and does nothing else |
| `ChunkTransfer.Build` | sync/transfer/transfer.go:26-54 | The manifest describes the payload chunk by chunk, for every size and chunk size, and only an empty id is refused |
| `ChunkTransfer.Receiver.Accept` | sync/transfer/transfer.go:97-113 | Stores exactly chunks whose index, length and hash match the manifest |
| `ChunkTransfer.Receiver.Have` | sync/transfer/transfer.go:116-124 | The held indices in order |
| `ChunkTransfer.Receiver.Missing` | sync/transfer/transfer.go:127-135 | The other indices in order |
| `ChunkTransfer.Receiver.Complete` | sync/transfer/transfer.go:146-158 | Assembles once nothing is missing and checks the whole hash |
| `ChunkTransfer.Receiver.Run` | sync/transfer/transfer.go:228-256 | Consumes frames until close, an error, a frame of another kind, or the end of the inbox |
| `ChunkTransfer.Push` | sync/transfer/transfer.go:170-196 | Sends the chunks not held in index order, then close, until a send is dropped or a chunk cannot be read, and tells the three endings apart |
| `TransferSessions.RunSession` | sync/transfer/transfer.go:219-272 | One session over both halves of the connection, for any source |
| `TransferSessions.SendsExactlyTheMissing` | sync/transfer/transfer.go:170-196 | What arrives is the missing chunks in index order, and close exactly when the session is not cut |
| `TransferSessions.SessionFacts` | sync/transfer/transfer.go:170-256 | A session adds exactly the delivered chunks, keeps only correct ones, and returns the payload exactly when uncut |
| `TransferSessions.SeriesFacts` | sync/transfer/transfer.go:170-256 | Over any series of cut sessions no chunk is delivered twice and none already held is delivered |
| `TransferSessions.FirstUncutSessionReturnsPayload` | sync/transfer/transfer.go:146-256 | The first uncut session returns exactly the payload |
| `TransferSessions.OnlyGenuineKept` | sync/transfer/transfer.go:97-158 | With a collision-free hash only correct chunks are kept and only the payload is returned, whatever frames arrive |
| `TransferOutcomes.DescribesExactly` | sync/transfer/transfer.go:26-54 | A manifest describes a payload exactly when it cuts it every chunkSize bytes, each chunk with its index, offset, length and hash, the last one what is left |
| `TransferOutcomes.ReceiveExactly` | sync/transfer/transfer.go:97-166 | For any manifest and any frames: frames are taken in up to the first that is no fitting data, each chunk with the bytes of its last frame, and that one decides: an unlisted index is invalid, a wrong length or hash corrupt, a close frame completes with exactly the held chunks one after the other if nothing is missing and their hash is that of the whole |
| `TransferOutcomes.PushExactly` | sync/transfer/transfer.go:170-196 | For any manifest and payload: one frame for each chunk that is not offered, in order, with the bytes listed under its index, then close; or those before the first that cannot be read, and its error |
| `RevisionSync.Replica.Put` | sync/revision/revision.go:30-39 | An older revision never overwrites a newer one; an empty path is refused |
| `RevisionSync.Diff` | sync/revision/revision.go:71-98 | The operations that bring a replica up to the source, by path |
| `RevisionSync.Apply` | sync/revision/revision.go:123-152 | Applies operations in order, refusing and skipping as the reference does |
| `RevisionSync.RevisionsNeverDecrease` | sync/revision/revision.go:123-152 | For arbitrary operations no path is lost and no revision decreases |
| `RevisionSync.DistinctPathsAnyOrder` | sync/revision/revision.go:123-152 | Operations on distinct paths may come in any order: the records, the number applied and the paths refused, each once, are the same |
| `RevisionSync.OrderMatters` | sync/revision/revision.go:134-136 | A skipped tombstone lets a later put bring a path back, so order matters |
| `OperationOrder.CommuteExactly` | sync/revision/revision.go:123-152 | Two operations on a path commute exactly when they are the same or the one of strictly higher revision is a put |
| `OperationOrder.OrderFreeExactly` | sync/revision/revision.go:123-152 | A list gives the same records in any order exactly when on every path an operation of the top revision has only lower revisions beside it and is then a put |
| `RevisionOutcomes.DiffExactly` | sync/revision/revision.go:71-100 | The operations are, by path and once each, the source's records on exactly the paths the replica lacks, holds at a lower revision, or holds at the same revision while disagreeing on deletion; deletions exactly for deleted records |
| `RevisionOutcomes.ApplyExactly` | sync/revision/revision.go:123-152 | For any replica and operations: each is written, refused or skipped by what is held just before it, said of revision, hash and deletion; the result counts the written, lists the refused in order, and stops at exactly the first that would be written without a path |
| `RevisionSync.DiffThenApply` | sync/revision/revision.go:71-152 | Applying a difference refuses nothing, leaves replica-only and newer paths alone, copies newer live records, and makes every other source path agree on live or deleted |
| `RevisionSync.SecondRoundChangesNothing` | sync/revision/revision.go:71-152 | A second round leaves the replica as it is |
| `RevisionSync.SecondDiffEmptyExactly` | sync/revision/revision.go:134-136 | The second difference is empty exactly when no path is a tombstone on both sides with the source's strictly newer |
| `ChangeQueue.Queue.Enqueue` | sync/queue/queue.go:30-41 | Keeps the newer change of a path, the first one on an exact tie |
| `ChangeQueue.Queue.Pending` | sync/queue/queue.go:51-58 | The queued changes by path |
| `ChangeQueue.Queue.Drain` | sync/queue/queue.go:61-65 | Returns and forgets them |
| `ChangeQueue.BestByPath` | sync/queue/queue.go:130-141 | The best change per path, refused exactly when a change has no path |
| `ChangeQueue.Reconcile` | sync/queue/queue.go:85-128 | The decision over both sides' best changes |
| `Reconciliation.ReconcilePartitions` | sync/queue/queue.go:85-128 | Every path is in exactly one of the four lists |
| `Reconciliation.ReconcileMirrored` | sync/queue/queue.go:85-128 | Swapping the sides mirrors the decision |
| `Reconciliation.SecondReconcileSettled` | sync/queue/queue.go:85-128 | After both sides enqueue what they are to apply, a second reconciliation sends and applies nothing and keeps the conflicts |
| `Reconciliation.PendingRoundTrip` | sync/queue/queue.go:51-58 | Enqueueing the pending list gives the queue again |
| `Reconciliation.QueueHoldsBest` | sync/queue/queue.go:30-48 | The queue holds a best change for each path enqueued |
| `Reconciliation.OrderFreeExactly` | sync/queue/queue.go:43-48 | The queue is free of the order of enqueueing exactly when the best changes of each path agree |
| `Reconciliation.DeterminedChangesAreOrderFree` | sync/queue/queue.go:43-48 | In particular when path, revision and node determine a change |
| `ReconcileOutcomes.BelowMeans` | sync/queue/queue.go:43-48 | The order of strings behind every tie and every sorted list: at the first difference the one that is over or has the smaller character is below |
| `ReconcileOutcomes.QueueHoldsExactly` | sync/queue/queue.go:30-48 | For exactly the paths enqueued the queue holds the change of the highest revision, then of the greatest node, then the first |
| `ReconcileOutcomes.ReconcileExactly` | sync/queue/queue.go:85-145 | By revision, deletion and hash alone: what is converged, in conflict, to send and to apply, each list by path |
| `ReconcileOutcomes.ExchangeAgrees` | sync/queue/queue.go:85-145 | After the exchange every path holds the same deletion and hash on both sides, but for the paths in conflict, which stay as they were |
| `SessionProjection.NodeSet.Ensure` | visualizer/session/session.go:167-174 | Adds a node under its derived id unless it is there |
| `SessionProjection.NodeSet.Annotate` | visualizer/session/session.go:176-191 | Sets the metadata of an existing node |
| `SessionProjection.EdgeSet.Add` | visualizer/session/session.go:210-220 | Adds an edge, or lowers the sequence of the one that is there |
| `SessionProjection.LinkEvent` | visualizer/session/session.go:52-77 | The links of one event: containment, access, causation, correlation |
| `SessionProjection.FoldEvent` | visualizer/session/session.go:51-99 | One round of the projection is one step of the fold, or its metadata error |
| `SessionProjection.Project` | visualizer/session/session.go:35-106 | The projection is the fold over the stably sorted events, or one of three errors |
| `ProjectionExactly.FoldEdgesExact` | visualizer/session/session.go:51-99 | The edges after any events are exactly those the events ask for, from source to target: session to aggregate, actor to aggregate, aggregate of the named cause, delivered by then, to aggregate, first aggregate of a correlation to a later other one, aggregate to named work package and artifact |
| `ProjectionExactly.ExactMeans` | visualizer/session/session.go:210-220 | For valid events edge keys do not collide, each edge is filed under the key of its own source, target and kind, and its sequence is that of the first event to ask for it |
| `ProjectionNodes.FoldNodesExact` | visualizer/session/session.go:46-99 | The nodes are exactly the session, the aggregates, the actors and the named work packages and artifacts, each with its kind, its reference and the sequence of the first event to name it |
| `ProjectionNodes.FoldNotesExact` | visualizer/session/session.go:176-191 | Each node carries exactly the path and access lists last noted for it, without repetitions, joined by commas |
| `ProjectionNodes.DedupKeepsFirsts` | visualizer/compat/compat.go:109-123 | Repetitions go, and the first occurrences stay in their order |
| `ProjectionNodes.ProjectionIsExactly` | visualizer/session/session.go:35-106 | A projection of valid events fails exactly without a session, without events or for unreadable metadata, and is otherwise exactly that graph of the events in the order of their sequence numbers |
| `ProjectionGuarantees.DeliveryOrderIrrelevant` | visualizer/session/session.go:35-106 | Projection is invariant under permutation when different events have different sequences, redelivery included |
| `ProjectionGuarantees.TiesFollowDelivery` | visualizer/session/session.go:142-146 | The sort keeps tied events in the order of delivery |
| `ProjectionGuarantees.OrderFreeExactly` | visualizer/session/session.go:142-146 | The order in which events are folded is free of the order of delivery exactly when different events have different sequences |
| `ProjectionGuarantees.StepKeeps` | visualizer/session/session.go:51-99 | One event only adds nodes and edges, changes no sequence, and keeps every edge between nodes of the graph |
| `ProjectionGuarantees.EdgesHaveEndpoints` | visualizer/session/session.go:51-99 | In every projected graph edges join nodes of the graph |
| `ProjectionGuarantees.SelfLoopExactly` | visualizer/session/session.go:59-62 | A step brings a self-loop exactly when an event names its own aggregate as actor and that edge is not there yet |
| `ProjectionGuarantees.ProjectionHasNoSelfLoop` | visualizer/session/session.go:51-99 | Valid events project to graphs without self-loops |
| `Replay.Build` | visualizer/replay/replay.go:47-75 | Projecting every prefix afresh gives the frames of one incremental fold, errors included |
| `Replay.FramesShow` | visualizer/replay/replay.go:54-73 | One frame per event, in order, each the projection of the events up to it |
| `Replay.LastFrameIsProjection` | visualizer/replay/replay.go:54-73 | The last frame is the live graph |
| `Replay.FramesGrow` | visualizer/replay/replay.go:54-73 | Everything shown stays shown under the same kind, reference and sequence |
| `Replay.FrameIsOneStep` | visualizer/replay/replay.go:54-73 | Each frame is one step of the fold from the frame before |
| `Replay.BuildSucceedsExactly` | visualizer/replay/replay.go:56-64 | A list exists exactly when the whole stream projects to a graph within the layout budget |
| `Replay.BuildFailsExactly` | visualizer/replay/replay.go:47-75 | Why there is none: no session, no events, some prefix over the layout budget, or otherwise metadata that cannot be read |
| `Replay.FramesIgnoreDelivery` | visualizer/replay/replay.go:41-54 | Frame lists do not depend on the order of delivery |
| `Redelivery.FramesOrderFreeExactly` | visualizer/replay/replay.go:41-75 | Every order of delivery gives the same frames exactly when different events have different sequence numbers |
| `Redelivery.TiedCauseShowsDelivery` | visualizer/session/session.go:64-68 | Of two valid tied events, one the cause of the other, the graph has the causation edge exactly when the cause is delivered first |
| `Redelivery.TiedCausesExist` | visualizer/session/session.go:64-68 | Two such events exist |
| `Redelivery.StepTwice` | visualizer/session/session.go:51-99 | Folding a redelivered event again changes nothing |
| `Redelivery.ProjectionIsOfTheSet` | visualizer/session/session.go:35-106 | The projection depends only on which events were delivered, neither on their order nor on how often each came |
| `Replay.Cursor.Seek` | visualizer/replay/replay.go:122-131 | Moves to an index in range, or stays |
| `Replay.Cursor.Step` | visualizer/replay/replay.go:113-118 | Moves by a distance, or stays |
| `Replay.Cursor.SeekSequence` | visualizer/replay/replay.go:135-146 | Moves to the first frame of a sequence number, or stays |
| `Redelivery.FrameShowsThePast` | visualizer/replay/replay.go:135-146 | The frame at a sequence number is what projecting just the events up to it gives, copies included |
| `Bridge.LiveBridge.Apply` | visualizer/bridge/bridge.go:43-54 | A batch is taken whole or, with an invalid event in it, not at all |
| `Bridge.LiveBridge.FrameList` | visualizer/bridge/bridge.go:65-77 | Reads the cache, or builds and fills it |
| `Bridge.LiveBridge.Consume` | visualizer/bridge/bridge.go:90-107 | Applies a subscription up to its first invalid event |
| `Bridge.CacheIsFresh` | visualizer/bridge/bridge.go:43-77 | A cache marked built is never stale |
| `Bridge.LiveEqualsReplay` | visualizer/bridge/bridge.go:43-77 | After any interleaving of calls a read gives what Build gives for the accepted events in any other order |
| `Bridge.LiveGraphsAreProper` | visualizer/bridge/bridge.go:43-77 | Every live frame's edges join two different nodes of its graph |
| `TaskGraphs.ReadySweepTriages` | sifter/src/aa_sifter/tasks/graph.py:39-53 | The ready sweep keeps decided tasks, skips for a bad dependency, offers when all are done, and otherwise changes nothing |
| `TaskGraphs.InvalidateSkips` | sifter/src/aa_sifter/tasks/graph.py:30-37 | Invalidation only skips pending tasks that have a bad dependency |
| `TaskGraphs.SweepLeavesNoneBehind` | sifter/src/aa_sifter/tasks/graph.py:39-53 | In dependency order one sweep leaves no undecided task behind a bad one |
| `TaskGraphs.Visit` | sifter/src/aa_sifter/tasks/graph.py:80-91 | A visit places a task after its dependencies, or finds the cycle it is on, or a missing task |
| `TaskGraphs.TopologicalOrder` | sifter/src/aa_sifter/tasks/graph.py:75-95 | An order of all tasks, dependencies first, exactly when every dependency names a task and there is no cycle |
| `TaskGraphs.Descendants` | sifter/src/aa_sifter/tasks/graph.py:58-67 | Exactly the tasks that reach the given one by a non-empty dependency path |
| `TaskExecutor.TaskGraph.Add` | sifter/src/aa_sifter/tasks/graph.py:21-25 | A second task with the same id is refused |
| `TaskExecutor.TaskGraph.ReadyTasks` | sifter/src/aa_sifter/tasks/graph.py:39-53 | The ready sweep and its list; a KeyError exactly when an undecided task has a dependency that names no task |
| `TaskExecutor.TaskGraph.InvalidateDependencies` | sifter/src/aa_sifter/tasks/graph.py:30-37 | The invalidation sweep; a KeyError only where an undecided task has a dependency that names no task |
| `TaskExecutor.TaskGraph.HasPending` | sifter/src/aa_sifter/tasks/graph.py:69-70 | Whether some task is not terminal |
| `TaskExecutor.Executor.Finish` | sifter/src/aa_sifter/tasks/executor.py:78-95 | The status a worker's outcome leaves |
| `TaskExecutor.Executor.RunBatch` | sifter/src/aa_sifter/tasks/executor.py:70-95 | Whatever the interleaving under the concurrency limit, a batch has the same effect, and every call starts with all dependencies done |
| `TaskExecutor.Executor.Run` | sifter/src/aa_sifter/tasks/executor.py:57-72 | For every run that ends: the method returns, having done its rounds and made each call with all dependencies done; a KeyError leaves it before any call, exactly when a dependency of an undecided task names no task |
| `TaskExecutor.RunFacts` | sifter/src/aa_sifter/tasks/executor.py:57-95 | In every run that ends a task is called only with all dependencies done, and up to its first deciding attempt, so once if the next attempt decides it; each skip has its bad dependency; what is left undecided was never called, is unchanged and behind one not done |
| `TaskExecutor.RunIsOnePass` | sifter/src/aa_sifter/tasks/executor.py:57-95 | For dependency-ordered insertion every run that ends, retries and skips included, comes to one pass over the tasks |
| `TaskExecutor.WaitingBehindHeld` | sifter/src/aa_sifter/tasks/executor.py:60-71 | What such a run leaves unrun is behind a task held up, for approval say |
| `TaskExecutor.BackwardsLeavesPending` | sifter/src/aa_sifter/tasks/graph.py:39-53 | A chain inserted backwards ends with a task pending behind a skipped one |
| `TaskRounds.HandedBackForever` | sifter/src/aa_sifter/tasks/executor.py:93-95 | A task that no attempt decides is called again every round, without end |
| `TaskRounds.RoundOn` | sifter/src/aa_sifter/tasks/executor.py:57-95 | One round leaves a decided task alone, calls a ready one once and leaves it as its worker does, and keeps or skips any other |
| `TaskOutcomes.ReadyExactly` | sifter/src/aa_sifter/tasks/graph.py:39-53 | The ready sweep, task by task in insertion order: by the statuses its dependencies have at its visit, each is skipped, offered or left, and the offered are listed in order |
| `TaskOutcomes.InvalidExactly` | sifter/src/aa_sifter/tasks/graph.py:30-37 | The invalidation sweep, task by task in insertion order: exactly the pending tasks with a failed or skipped dependency by then are skipped |
| `TaskOutcomes.RoundExactly` | sifter/src/aa_sifter/tasks/executor.py:57-95 | A round is a ready sweep, one call of each offered task under its next attempt number, and an invalidation; a call leaves its task blocked on approval, failed, done if it was left running, and otherwise as the worker left it |
| `TaskOutcomes.RunExactly` | sifter/src/aa_sifter/tasks/executor.py:57-72 | Every run that ends is a series of such rounds, as long as some task is not done, failed or skipped and one is offered |
| `TaskRounds.UndecidedWaits` | sifter/src/aa_sifter/tasks/executor.py:57-72 | What a finished run leaves undecided has a dependency that is not done |
| `TaskRounds.EndsExactly` | sifter/src/aa_sifter/tasks/executor.py:57-72 | For a task DAG every run ends, from any statuses and attempts, exactly when after any number of attempts at any task there is one to come that decides it |
| `SkipPropagation.SettlesExactly` | sifter/src/aa_sifter/tasks/executor.py:57-72 | For a task DAG every run that ends has skipped everything behind a failure, whatever the workers did, exactly when two sweeps suffice for each single failure |
| `SkipPropagation.SettledRunsAnswerVerdicts` | sifter/src/aa_sifter/tasks/executor.py:57-95 | Then every task of every run that ends is as its dependencies and its first deciding attempt say it must be |
| `SkipPropagation.DependencyOrderSettles` | sifter/src/aa_sifter/tasks/graph.py:39-53 | Dependency order meets the condition, for every run that ends |
| `ContextFit.TruncatedTokens` | sifter/src/aa_sifter/context/compression.py:36-42 | Truncating to m tokens gives exactly m + 4 |
| `ContextFit.TruncatedEnds` | sifter/src/aa_sifter/context/compression.py:39-42 | Both ends of the text survive around the marker |
| `ContextFit.TruncatingToZeroGrows` | sifter/src/aa_sifter/context/compression.py:39-42 | A budget of zero returns the marker and the whole text |
| `ContextFit.Compress` | sifter/src/aa_sifter/context/compression.py:10-33 | Compaction keeps system messages and recent turns, with a summary of the rest |
| `ContextFit.CompressedSize` | sifter/src/aa_sifter/context/compression.py:22-33 | Compaction never adds messages and bounds their number |
| `ContextFit.FitMessages` | sifter/src/aa_sifter/context/compression.py:45-70 | The halving loop ends and equals its reference |
| `ContextFit.ShrinkTrims` | sifter/src/aa_sifter/context/compression.py:61-70 | Only messages above 8 tokens are reduced, none below 8, and the loop stops within the budget or with all at 8 or less |
| `ContextFit.FitsExactly` | sifter/src/aa_sifter/context/compression.py:45-70 | The budget is met exactly when the sum of min(tokens, 8) fits into it |
| `ContextFit.FittedBound` | sifter/src/aa_sifter/context/compression.py:45-70 | The total is at most max(budget, 8 times the number of messages) |
| `ContextFit.FittingAgainChangesNothing` | sifter/src/aa_sifter/context/compression.py:45-70 | Fitting a fitted list changes nothing |
| `ContextFit.FitToContext` | sifter/src/aa_sifter/app.py:814-822 | Without a limit nothing changes; with at most 121 system messages the outbound budget is met |
| `ContextFit.OutboundFits` | sifter/src/aa_sifter/app.py:814-822 | Every budget of at least 1024 is met with at most 121 system messages |
| `ContextFit.OneMoreSystemMessageFails` | sifter/src/aa_sifter/app.py:821-822 | The bound is sharp: with 122 the budget of 1024 can be missed |
| `FittingExactly.CompressedExactly` | sifter/src/aa_sifter/context/compression.py:10-33 | Over the budget: every system message, the summary of the turns that go, line by line, and exactly the last keepRecent turns, each in its order; otherwise the messages as they are |
| `FittingExactly.CutAgain` | sifter/src/aa_sifter/context/compression.py:36-42 | Cutting a text twice is cutting it once: the marker of the first cut goes with the second |
| `FittingExactly.FittedExactly` | sifter/src/aa_sifter/context/compression.py:45-70 | Each compacted message stays or has one middle cut out and keeps its two ends; none is cut while one has more than twice as much; and one halving of a largest message earlier the budget was still passed |
| `FittingExactly.BudgetLeavesRoom` | sifter/src/aa_sifter/app.py:814-822 | What the answer may take is left free, and never less than 1024 for the rest |
| `MemoryStore.PutRaisesRevisions` | memory/store/store.go:77-104 | A put changes a record only to a higher revision |
| `MemoryStore.EntryKeysApart` | memory/projection/projection.go:47 | Projection keys of different records never collide |
| `MemoryStore.SyncedUnique` | memory/projection/rebuild.go:7-19 | There is only one projection in step with a store |
| `MemoryStore.PutBothKeepsSync` | memory/repo/repo.go:28-34 | A record stored and projected keeps every key in step |
| `MemoryStore.RawPutDesyncsExactly` | memory/memory.go:62-65 | A record written to the store alone puts exactly its own key out of step |
| `MemoryStore.LogIsFirstById` | memory/store/store.go:174-208 | Over appends and reopenings the log is the first event of each id in order |
| `MemoryStore.Store.PutRecord` | memory/store/store.go:77-104 | Unchanged for the same hash, refused for a stale revision or an invalid record |
| `MemoryStore.Store.AppendEvent` | memory/store/store.go:174-208 | Appends unless the id is in the log, which is read back after reopening |
| `MemoryStore.MemProjection.Put` | memory/projection/projection.go:61-78 | Inserts or replaces unless the hash is the same or the revision lower |
| `MemoryStore.Rebuild` | memory/projection/rebuild.go:7-19 | The projection becomes the one in step with the store, in whatever order records are read |
| `MemoryRepos.TransitionsGoForward` | memory/repo/promotion.go:16-23 | Transitions only go forward, nothing leaves ARCHIVED, ACTIVE follows VALIDATED only |
| `MemoryRepos.Repository.Put` | memory/repo/repo.go:19-36 | Stores, and projects when the store changed and there is a projection |
| `MemoryRepos.Repository.ProposeStrategy` | memory/repo/strategy.go:24-47 | Stores a new candidate at revision 1 |
| `MemoryRepos.Repository.TransitionStrategy` | memory/repo/strategy.go:87-108 | Moves a strategy along the table at the next revision |
| `MemoryRepos.Repository.SupersedeStrategy` | memory/repo/strategy.go:111-130 | Retires the old strategy, then links the new one |
| `MemoryRepos.Repository.Create` | memory/repo/issue.go:26-46 | Stores a new issue at revision 1 |
| `MemoryRepos.Repository.SetIssueStatus` | memory/repo/issue.go:71-92 | Moves an issue to a known status at the next revision |
| `MemoryRuns.UntouchedKeysStaySynced` | memory/repo/repo.go:19-36 | After any run every key never written raw is in step |
| `MemoryRuns.ProjectionEqualsRebuild` | memory/projection/rebuild.go:7-19 | After any run of repository operations the projection equals a fresh rebuild |
| `MemoryRuns.RevisionsRiseInRuns` | memory/store/store.go:85-95 | In any run, raw writes included, a record that differs later has a higher revision |
| `MemoryRuns.EntriesArePastRecords` | memory/projection/projection.go:61-78 | Over single writes, raw ones included, every projected entry was in the store at some time |
| `MemoryRuns.RunEntriesArePastRecords` | memory/repo/strategy.go:24-130 | A run of operations is a run of single writes, superseding two of them; so every entry projected after it was in the store after one of its writes or at its start |
| `MemoryRuns.LifecyclesGoForward` | memory/repo/strategy.go:87-130 | Over a run lifecycles only move forward and ARCHIVED is final |
| `MemoryRuns.ActiveOnlyThroughValidated` | memory/repo/strategy.go:24-130 | ACTIVE is reached only after VALIDATED, VALIDATED only after CANDIDATE |
| `MemoryRuns.TransitionExactly` | memory/repo/strategy.go:87-108 | A transition succeeds exactly when the table allows it and takes effect unless the hashes collide |
| `MemoryRuns.SupersedeHalfDoneExactly` | memory/repo/strategy.go:111-130 | Superseding reports an error and yet changes memory exactly when the old strategy is active, the new one is missing and the retired document hashes differently; the error is then not-found and the old strategy superseded |
| `MemoryOutcomes.PutsExactly` | memory/repo/repo.go:19-36 | A document is stored unless its names are no identifiers, the stored one hashes the same, or has at least its revision; what is stored is projected unless a newer one is shown; no other record or entry changes |
| `MemoryOutcomes.TransitionsExactly` | memory/repo/promotion.go:16-31 | The lifecycle goes one stage on at a time, or from any stage to the last, and nowhere else |
| `MemoryOutcomes.ProposeExactly` | memory/repo/strategy.go:24-47 | A proposal is stored as given, as a candidate at revision 1, under the new id if it has none; one in another state, or unsound, is refused |
| `MemoryOutcomes.TransitionIs` | memory/repo/strategy.go:87-108 | A transition changes the lifecycle, raises the revision by one and touches nothing else; its own state is no change, a state out of reach an error |
| `MemoryOutcomes.SupersedeIs` | memory/repo/strategy.go:111-130 | Superseding is the transition of the old strategy, and then, if it succeeds, the link from the new one at its next revision |
| `MemoryOutcomes.CreateExactly` | memory/repo/issue.go:26-46 | An issue is stored as given, at revision 1, open if it has no status |
| `MemoryOutcomes.SetStatusExactly` | memory/repo/issue.go:71-92 | A status is set at the next revision if it is known and another one; nothing else of the issue changes |
| `MemoryOutcomes.NewNeverReplaces` | memory/repo/strategy.go:24-47 | Where only the repositories write, proposing and creating never replace a stored document |
| `MemoryOutcomes.LogExactly` | memory/store/store.go:174-208 | The log holds, in order, the events of exactly the calls that were the first to bring their id |
| `RoutingPolicy.KindTellsTiers` | sifter/src/aa_sifter/routing/policy.py:29-43 | The route kinds tell the truth about the tiers |
| `RoutingPolicy.UsesCloudExactly` | sifter/src/aa_sifter/routing/policy.py:53-199 | When a route uses the expert tier, policy by policy |
| `ApprovalProtocol.Sifter.Call` | sifter/src/aa_sifter/app.py:824-890 | What leaves the machine needs the cloud allowed; the expert tier needs budget and is charged for |
| `ApprovalProtocol.Sifter.HandleMajorDecision` | sifter/src/aa_sifter/app.py:370-457 | The two approval stages and what each answer leads to |
| `ApprovalProtocol.Sifter.Execute` | sifter/src/aa_sifter/app.py:532-564 | The three routes |
| `ApprovalProtocol.Sifter.ExecuteWithPlan` | sifter/src/aa_sifter/app.py:566-619 | Plan, local execution, verification and review |
| `ApprovalProtocol.Sifter.ExecuteWithRetries` | sifter/src/aa_sifter/app.py:621-657 | Local attempts until one passes, failing providers counted |
| `ApprovalProtocol.Sifter.EscalateAfterFailure` | sifter/src/aa_sifter/app.py:689-794 | The escalation question and the one call it may allow |
| `ApprovalProtocol.Sifter.PerformTask` | sifter/src/aa_sifter/app.py:270-339 | Routing, execution, escalation and the status |
| `ApprovalProtocol.Sifter.RunTask` | sifter/src/aa_sifter/app.py:184-368 | A whole run with its early ends |
| `ApprovalGuarantees.ExpertOnlyAfterHuman` | sifter/src/aa_sifter/app.py:237-321 | At major and critical level every expert call follows a human decision to approve, choose or allow; a standing grant is no exception |
| `ApprovalGuarantees.AnalysisIsNotPermission` | sifter/src/aa_sifter/app.py:413-457 | After an expert analysis no model is called without a second approve or choose |
| `ApprovalGuarantees.StoppingCallsNothing` | sifter/src/aa_sifter/app.py:396-399 | Stop, reject or modify: no call at all |
| `ApprovalGuarantees.KeptLocal` | sifter/src/aa_sifter/app.py:400-404 | Kept local, the expert is called only if let in at the escalation question |
| `ApprovalGuarantees.ConstraintsReachExecution` | sifter/src/aa_sifter/app.py:659-687 | Accepted human constraints are in every execution and escalation message |
| `ApprovalGuarantees.ExpertCallsWithinBudget` | sifter/src/aa_sifter/routing/budget.py:31-38 | A run never calls the expert more often than the call budget allows, makes no expert call whose estimate would pass the token or cost limit, and has spent exactly what the replies report |
| `ApprovalGuarantees.OvershootsByOneReply` | sifter/src/aa_sifter/routing/budget.py:73-107 | A run passes its token and cost limits by at most what the reply to its last expert call exceeds its estimate, and spends nothing without an expert call |
| `ApprovalGuarantees.ExpertExecutesOnlyByRoute` | sifter/src/aa_sifter/app.py:237-299 | In a whole run the expert plans, executes or reviews only if the policy in force at routing leads to it: never local-only, and otherwise only expert-first, cloud-only, or with budget for a task the local model is not trusted with |
| `ApprovalGuarantees.NothingLeavesWithoutCloud` | sifter/src/aa_sifter/app.py:845-849 | With the cloud disabled nothing leaves the machine |
| `ApprovalGuarantees.CompletionIsEarned` | sifter/src/aa_sifter/app.py:301-321 | Completed means verified, or answered by the expert at escalation |
| `ApprovalOutcomes.EndsExactly` | sifter/src/aa_sifter/app.py:184-368 | Every event of a run follows the rules, read off the trace, the answers and the policy in force; and each status has exactly its endings: completed iff the answer passed, with no review due or affordable, or the expert reviewed or replaced it; failed iff it did not pass, with every local attempt made, and escalation was refused, not permitted or unaffordable; blocked iff an analysis, plan or execution due was unaffordable; error iff a call that ends the run was refused or failed; stopped iff the human ended it |
| `ApprovalOutcomes.RouteIs` | sifter/src/aa_sifter/routing/policy.py:53-149 | The route, policy by policy, from what is viable, required and left of the budget |

## Left out

- Files, JSON, SQLite, HTTP and the desktop and command-line front ends: input and output; the store is a map, the logs are sequences.
- SHA-256, signatures and pairing: foreign cryptography; hashes are arbitrary functions, assumed collision-free only in `TransferSessions.OnlyGenuineKept`.
- Layout coordinates: floating-point trigonometry; positions are any function of the graph, only the size budget is modelled.
- Sorted node and edge lists of a projected graph: determined by the node and edge tables the model keeps.
- Timestamps, labels, progress, telemetry and error texts: carried opaquely or dropped.
- Mutexes and cancellation: calls are atomic; concurrency is modelled where it decides something, in task batches and dropped sends.
- Worker registry, contract building and context compilation: answers of the environment of a dispatch.
- Regex classification, preflight scoring and redaction: the decision level and the findings are inputs.
- Machine integer widths: numbers are unbounded; offsets and lengths in a chunk manifest are not negative, and frame bodies that cannot be decoded are left to the decoder.
- Other exceptions than provider errors and exceeded budgets in an approval run, and asynchronous cancellation: they leave the run without a result.
- Retention, ingestion batches, parallel partitioning, forge and RPC adapters, tool host: single-pass code that would add easy members.
- TaskExecutor.Executor.RunBatch: worker outcomes are a function of task and attempt number, because no run calls a task twice with the same attempt number; max_concurrency must be positive, as a semaphore of zero never lets a call start.
- TaskExecutor.Executor.Run: requires that the run ends, because one in which a worker hands the same task back for ever is not a call that returns; `TaskRounds.EndsExactly` says which workers end every run.
- TaskGraphs.Descendants: returns a set, because the list of the original has no defined order.
- ContextFit.TruncatedEnds: the split is the exact 70 percent, where the original multiplies by a floating-point 0.7; the total length does not depend on it.
- Gates.Evaluate: gates of equal name run in some fixed order, because the original sort does not promise one; the report does not depend on it.
- ControlCycle.Orchestrator.Dispatch: the worker's result is a function of the package, because a package is started at most once in a run.
- MemoryRepos.Repository.TransitionStrategy: a document that is not a strategy counts as unreadable, where the original may decode a foreign document in part.
- Replay.Cursor.Seek: a cursor over no frames is refused at construction, so the checks for it later are left out.

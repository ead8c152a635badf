# Neocortex: verified models of its four hard cores

Neocortex runs coding agents on a queue of tasks. This project models the parts of it whose
correctness is hardest to see from the code, and proves what they promise, over all inputs and runs:

* **Proposals and tasks** (`Texts`, `Digraph`, `Proposals`, `TaskIds`, `Tasks`, `Futures`, `State`): the iterative
  three-colour search, atomic approval of a batch with forward references, and the dependency graph of the whole task
  table, with references to ids that are still to be handed out.
* **Scheduler and lifecycle** (`Lifecycle`, `LifecycleSafety`, `Provenance`, `Sums`, `Termination`, `Planning`,
  `Scheduler`, `Operations`, `Wakeup`, `PlanReview`): tasks, workers, critics, planners and the owner. Every change is a single
  commit and a turn is a list of commits, so a process that dies has made a prefix of the list. What a session,
  the repository and the checks answer are inputs.
* **Backup store and acknowledgement** (`Json`, `Blocks`, `Manifests`, `StoreMachine`, `StoreSafety`, `Restore`,
  `Retention`, `Snapshot`, `BackupWorker`): content-addressed blocks shared by many sources, manifests published
  last, retention and collection, and the worker that acknowledges dirty generations. The store is a machine
  whose steps are single filesystem changes, any of which may be the last; the loops of `Snapshot` perform steps
  of this machine only. The digest is assumed not to collide on the byte strings that occur (`Blocks.CollisionFree`).
* **ACP wire** (`Framing`, `Correlation`, `Decoder`, `Interference`, `Reconciliation`, `PromptDecoder`,
  `Verdict`, `Projection`, `Collector`): newline framing over arbitrary reads and writes, request and response correlation,
  the decoder of a prompt's result, and the bounded projection that is decoded in place of the wire.

Objects the program updates in place are classes, and their methods are proved against specification functions;
protocols with several actors are state machines over their steps. Files of the program are cited by path and line.

Results that differ from what one might expect of the code, each with its exact condition or a witness:

* As long as no approval is forced, no run of writes closes a dependency cycle (`Tasks.TableStaysAcyclic`). A forced
  approval may store a reference to an id that is still to be handed out. The cycle then closes at once
  (`Tasks.ForcedApprovalCanCloseCycle`) or later, by an insert that passes every check (`Tasks.CycleMayCloseLater`).
  Precisely: an approval closes one when its batch does through the rows of the table (`Tasks.ApprovalAcyclicIff`), an
  insert when a dependency leads to the id the row is about to get (`Tasks.InsertAcyclicIff`), a run when one of its
  writes does (`Tasks.RunAcyclicIff`). A table is safe from every ordinary write to come precisely when no project waits,
  through rows and projects, for an id that it is itself still to hand out (`Futures.SafeIff`); forced approvals that
  pass the test `Tasks.Foreseen` leave only such tables (`Tasks.ForeseenStaysAcyclic`).
* Framing depends on how bytes are cut into reads precisely for a complete line of one byte more than the limit that
  ends in a carriage return (`Framing.CutsAgreeOffTheEdge`), and what a whole connection reads depends on it precisely
  when it gets to such a line (`Framing.StreamCutsAgreeIff`).
* The projection of a failure reads differently from the failure precisely when an array or object in `details` or
  `severity` is the only thing wrong with it (`Projection.ProjectionReadsSame`, `Projection.HarmDone`), and this reaches
  the verdict on whole prompts (`Collector.HarmReachesVerdict`).
* Retrying all blocked tasks keeps the joint invariant precisely when none of them has an open question
  (`LifecycleSafety.RetryKeepsIff`). A question that outlives a retry can still be answered. An answer leaves one agent
  of the task runnable precisely when no agent other than the asker can run when it is given
  (`LifecycleSafety.AnswerRunsOneIff`). Given directly after the retry, it leaves two if a critic had asked
  (`LifecycleSafety.RetryThenAnswer`); given after the worker's next turn, it may leave two if the worker had
  (`LifecycleSafety.RetryReviewAnswer`). Both states occur (`LifecycleSafety.CriticMayAsk`, `LifecycleSafety.WorkerMayAsk`).
* Recovering a planner's interrupted run leaves it halted with whatever was undelivered; so does a turn that fails
  without feedback in between, and nothing else (`Wakeup.StrandedIff`, on a state that occurs: `Wakeup.StrandedIsReachable`).
* A crash between the claim of a plan review and its attempt's row leaves the review claimed for good
  (`PlanReview.EarlyCrashOrphans`, `PlanReview.OrphanForGood`; any other claimed review between sessions can be
  released, `PlanReview.OrphanIffNotRecoverable`), and recovering an old attempt can release the claim
  of a newer one (`PlanReview.RecoveryCanReleaseAnotherClaim`, exactly when: `PlanReview.RecoveryReleases`).
* A fallback backup that acknowledges nothing new leaves the row alone, so the fallback stays due
  (`BackupWorker.AckCoversTheRead`).

## Model

| member | source | states |
|---|---|---|
| Digraph.AcyclicIffRanked | nc/proposals.py:77-97 | a dependency graph has no closed walk iff its tasks can be ranked below what they depend on |
| Digraph.ExtensionIsAcyclic | nc/state.py:460-503 | adding rows that refer to old rows and, acyclically, to each other keeps a graph acyclic |
| Digraph.GrowthIsAcyclicIff | nc/state.py:460-503 | whatever old rows named the new ones beforehand, adding rows keeps a graph acyclic iff the new rows, connected through old ones, form no cycle |
| Proposals.DependencyCycles | nc/proposals.py:77-97 | the iterative search ends; it reports nothing iff the proposal's local graph is acyclic, self-loops included, and every edge it reports lies on a cycle |
| Proposals.SearchFrom | nc/proposals.py:77-97 | one pass of the explicit stack finishes everything reachable from its start and reports only edges on cycles |
| Proposals.AmbiguousIds | nc/proposals.py:29-36 | an identifier is reported iff two proposed tasks share it or it names an existing task |
| Proposals.CheckProposal | nc/proposals.py:21-97 | each kind of finding is reported iff its cause is there, and there are none iff the proposal is clean |
| Proposals.DollarComesFirst | nc/proposals.py:45-46 | a criterion can be checked by the machine iff a dollar sign is its first character that is not blank |
| TaskIds.TaskIdInjective | nc/state.py:294-301 | the printed `project-Tnnn` determines both the project and the number |
| TaskIds.TaskIdPrints | nc/state.py:294-301 | an id is the project, "-T" and the number in decimal with three digits or more |
| Tasks.NextIdIsFresh | nc/state.py:289-301 | a number not yet handed out never names an existing row |
| Tasks.BatchIdsFresh | nc/state.py:485-493 | the ids of a batch are new and pairwise different |
| Tasks.ApprovalIsIsomorphic | nc/state.py:485-497 | approval maps the proposal's graph onto the new rows edge for edge, forward references included, and leaves old rows alone |
| Tasks.ApprovalStaysSound | nc/state.py:460-503 | after an unforced approval ids are allocated, references stay in the project and resolve, and the graph is acyclic |
| Tasks.InsertStaysSound | nc/state.py:311-361 | so they are after a single insert or import |
| Tasks.TableStaysAcyclic | nc/state.py:303-361 | no run of inserts, imports, unforced approvals and lifecycle changes ever closes a cycle, dangles a reference or rewrites a dependency |
| Tasks.ApprovalAcyclicIff | nc/state.py:478-497 | on any acyclic table an approval, forced or not, keeps it acyclic iff the graph predicted for the batch, through rows of the table and with references to ids to come, is acyclic |
| Tasks.InsertAcyclicIff | nc/state.py:311-328 | a single insert does iff no dependency of the row leads to the id it is about to get |
| Tasks.RunAcyclicIff | nc/state.py:303-503 | a run of writes, forced approvals among them, ends in an acyclic table iff each write met its condition |
| Tasks.WriteAnchoredIff | nc/state.py:460-503 | a write keeps every stored dependency off the ids still to be handed out iff it passes a test that only forced approvals can fail |
| Tasks.CleanIsForeseen | nc/state.py:460-503 | an unforced approval always passes it |
| Tasks.ForeseenStaysAcyclic | nc/state.py:460-503 | if every forced approval of a run passes the test, no write of the run closes a cycle |
| Tasks.CleanPrediction | nc/state.py:485-497 | when no stored dependency names an id to come, the prediction for a clean proposal is the proposal's own graph |
| Tasks.ForcedSelfReference | nc/state.py:480-497 | the shortest cycle of a forced batch by itself: a task that names the id it is about to get |
| Tasks.ForcedApprovalCanCloseCycle | nc/state.py:480-497 | such a proposal exists for the empty table |
| Tasks.CycleMayCloseLater | nc/state.py:480-497 | a forced approval of the empty table that leaves it acyclic, and an insert after it that passes every check and closes a cycle |
| Futures.WriteSettles | nc/state.py:303-503 | an ordinary write opens no new way from a project to ids that a project is still to hand out |
| Futures.CycleCloses | nc/state.py:289-328 | where projects wait in a circle for ids still to come, ordinary inserts close a cycle of rows |
| Futures.SafeIff | nc/state.py:303-503 | whatever earlier forced approvals left, no run of ordinary writes closes a cycle iff no project waits, through rows and projects, for an id it is itself still to hand out |
| Futures.AnchoredIsSafe | nc/state.py:460-503 | a table without references to ids to come is safe in this sense |
| Tasks.QueueIsLive | nc/scheduler.py:251-258 | on an acyclic table a queued task that waits, directly or not, only for queued or done tasks implies a ready task |
| State.State.ValidateTaskFields | nc/state.py:330-361 | the first error among project, title, objective, budget and the dependencies in their order, before anything is written |
| State.State.AddTask | nc/state.py:303-328 | succeeds exactly when the fields are acceptable and the dependencies exist; the row gets the next id and is stored queued and never attempted, with the priority, budget, dependencies and time it was given; the table stays acyclic iff no dependency leads to the new id; an error is the first there is and leaves rows and counters as they were |
| State.State.ApproveProposal | nc/state.py:460-503 | succeeds exactly when the proposal is pending, has no findings or is forced, and all fields are acceptable; then each task is stored queued under the next ids, its local references replaced by row ids, and the table is acyclic iff the predicted graph is; otherwise rows, counters and status are as before |
| State.State.WriteBatch | nc/state.py:485-493 | inserts the batch row by row or fails with nothing left behind |
| State.ApprovedIsStored | nc/state.py:311-328 | what every row of an approved batch holds, stated of the table alone, and that the lifecycle admits it |
| State.State.ResolveReferences | nc/state.py:494-497 | replaces local ids by row ids, which completes the approved table |
| Lifecycle.ApplyAppend | nc/scheduler.py:348-530 | commits made in two parts have the effect of making them all |
| Lifecycle.TurnEffect | nc/scheduler.py:348-530 | the commits of a whole turn, from any state, change task, agents and questions precisely as the decision table says |
| Lifecycle.VerdictEffect | nc/scheduler.py:456-510 | a critic's verdict: accepted, handed back, blocked, or retried when it is missing |
| Lifecycle.WorkerDoneEffect | nc/scheduler.py:426-454 | a worker's DONE: reworked without commits or with failing checks, else a new critic and review |
| Lifecycle.TurnGoesBack | nc/scheduler.py:203-211 | after its turn an agent has been changed later than every other agent but its worker, so it goes behind all equals |
| LifecycleSafety.TurnKeeps | nc/scheduler.py:348-530 | a complete turn keeps the joint invariant |
| LifecycleSafety.StepKeeps | nc/operations.py:466-502 | so do spawning, creation, cancellation, requeue, answer, rollback, and retry when no blocked task waits for an answer |
| LifecycleSafety.CancelKeeps | nc/state.py:363-392 | cancellation keeps the joint invariant |
| LifecycleSafety.RequeueKeeps | nc/operations.py:454-502 | requeue keeps it: agents stop, counts start over, old questions are retired |
| LifecycleSafety.AnswerKeeps | nc/operations.py:690-725 | an answer keeps it: the asking agent becomes the one runnable agent of its task |
| LifecycleSafety.RollbackKeeps | nc/operations.py:505-550 | rollback keeps it |
| LifecycleSafety.JointInvariant | nc/scheduler.py:265-530 | in every state reached without cut-off turns, and with retry only where no blocked task waits for an answer, an active task has exactly one runnable agent and any other none, queued and active tasks have attempts left, turns stay within budgets, and an open owner question means a blocked or cancelled task |
| LifecycleSafety.ConflictReturnsToWorker | nc/scheduler.py:480-491 | a merge conflict alone never blocks a task, costs no attempt and hands it back to its worker |
| LifecycleSafety.RetryKeepsIff | nc/operations.py:381-404 | retrying all blocked tasks keeps the joint invariant iff none of them has an open question |
| LifecycleSafety.AnswerRunsOneIff | nc/operations.py:675-725 | from any state: after an answer exactly one agent of the task is runnable iff no agent other than the asker was before it |
| LifecycleSafety.RetryThenAnswer | nc/operations.py:675-725 | after a retry an open question can still be answered; given at once, exactly one agent of the task is then runnable iff the worker had asked |
| LifecycleSafety.RetryReviewAnswer | nc/scheduler.py:426-454 | if the worker had asked and its next turn after the retry passes the checks, the answer leaves it runnable beside the new critic |
| LifecycleSafety.CriticMayAsk | nc/scheduler.py:407-413 | an orderly run reaches a state with a critic's open question |
| LifecycleSafety.WorkerMayAsk | nc/scheduler.py:407-413 | an orderly run reaches a state with a worker's open question and turns left |
| Provenance.StatusMoves | nc/scheduler.py:456-510 | one step, cut off anywhere: done is entered only by an accepting turn of the task's critic, left only by rollback; cancelled is left only by requeue |
| Provenance.AgentsAppear | nc/scheduler.py:265-287 | a worker row appears only in a spawn of a ready task, a critic only in a submitting turn of the worker |
| Provenance.NoRunBeforeSpawn | nc/scheduler.py:251-287 | over every run, no session of a task starts unless since its last requeue it was spawned with all its dependencies done |
| Provenance.CriticIsCurrent | nc/operations.py:454-502 | a critic that runs was created since the last requeue, by a worker spawned since then: requeue puts earlier critics to rest for good |
| Provenance.DoneIsEarned | nc/scheduler.py:426-510 | over every run with crashes, retry and recovery, a done task was spawned ready, submitted with commits and passing checks, passed by the critic this created and integrated, without a requeue in between, and has been done ever since |
| Provenance.SettledUntilOwnerActs | nc/operations.py:454-550 | done persists until that task's rollback, cancelled until its requeue |
| Provenance.LifecycleKeepsGraph | nc/state.py:528-538 | no turn, cut off or not, and no owner action on tasks touches the dependency graph |
| Termination.SpawnDecreases | nc/scheduler.py:265-287 | spawning a task uses up work |
| Termination.TurnDecreases | nc/scheduler.py:348-530 | from any state a turn that is not deferred uses up work, although conflicts and yields cost no attempt and reviews create critics |
| Planning.PlanDecreases | nc/turn.py:356-387 | a planner session that is not deferred uses up more work than the proposal it leaves to review |
| Planning.ReviewDecreases | nc/turn.py:476-570 | so does a review that is not deferred |
| Scheduler.Scheduler.BestCandidate | nc/scheduler.py:203-211 | a runnable critic or worker of an uncancelled task that none precedes by role, priority, age of the task, last change and id |
| Scheduler.BestComesFirst | nc/scheduler.py:203-211 | what the selected agent has over any other: role, then priority, age of the task, last change and id, which are never all equal |
| Scheduler.Scheduler.UnmetDependencies | nc/state.py:394-404 | the dependencies not accepted yet, a missing one included |
| Scheduler.Scheduler.NextReadyTask | nc/scheduler.py:251-258 | the first ready task in priority and creation order, or none exactly when none is ready |
| Scheduler.Scheduler.SpawnForQueuedTask | nc/scheduler.py:265-287 | activates that task as one step of the machine |
| Scheduler.Scheduler.OnAsk | nc/scheduler.py:407-413 | the commits of an ASK |
| Scheduler.Scheduler.OnFail | nc/scheduler.py:418-424 | the commits of a failed session |
| Scheduler.Scheduler.Rework | nc/scheduler.py:512-522 | the commits of a rework, which blocks at the attempt limit |
| Scheduler.Scheduler.Integrate | nc/scheduler.py:474-504 | the commits after a pass: accepted, handed back on a conflict, blocked on an error |
| Scheduler.Scheduler.ApplyVerdict | nc/scheduler.py:456-510 | the commits of a verdict, and that a missing one counts as a failure |
| Scheduler.Scheduler.OnWorkerDone | nc/scheduler.py:426-454 | the commits of a worker's DONE, including exceptions of the repository or the checks |
| Scheduler.Scheduler.TaskTurn | nc/scheduler.py:348-404 | a turn makes precisely the listed commits, is deferred exactly when the provider defers, and counts consecutive failures |
| Scheduler.Scheduler.PickPlanner | nc/scheduler.py:219-248 | puts on hold exactly the planners with a reason to wait, wakes the first one without by last change and id, and leaves every other row alone |
| Scheduler.Scheduler.RunPlanner | nc/turn.py:356-387 | what a planner session leaves of planner, proposals and failure count, for each of its outcomes |
| Scheduler.Scheduler.Pick | nc/scheduler.py:203-249 | work before planning, spawning at most one task, and nothing picked only when nothing can be |
| Scheduler.Scheduler.StepLocked | nc/scheduler.py:297-346 | a pass activates a ready task only when no agent can run and then gives the best candidate, if eligible, one turn with the session of this pass; else the first reviewable proposal its review; else the first planner its session; what each leaves of tasks, agents, planners, proposals and failures; and it ends the loop or leaves strictly less work |
| Scheduler.Scheduler.GiveTurn | nc/scheduler.py:329-350 | the turn of the selected agent: looked at again, refused by the preflight, or made with this session |
| Scheduler.Scheduler.Run | nc/scheduler.py:574-633 | with no turn limit the loop always ends; its passes, each with its own input and in order, lead from the first state to the last; it stops at the breaker exactly when a pass has reached the failure limit, and ends otherwise for the reason its last input gives |
| Scheduler.StreakCounts | nc/scheduler.py:382-403 | the failures counted are the failed sessions since the last one that ended well, plus one if that one could not be applied |
| Scheduler.IdleIsQuiet | nc/scheduler.py:607-616 | when it ends idle after an orderly history nothing is active, no task is ready and every queued task waits for one that is neither queued nor done |
| Operations.Operations.CancelTask | nc/state.py:363-392 | succeeds exactly for a queued, blocked or failed task without an open run and with a reason; then the task is cancelled and its agents are done, and nothing else differs; otherwise the first error in order and no change |
| Operations.Operations.RequeueTask | nc/operations.py:454-502 | likewise: the task is queued with no attempts and the given budget, its agents wait with no turns, and its open questions are retired |
| Operations.Operations.RollbackTask | nc/operations.py:505-550 | likewise for rollback of a done task, with the confirmed commit and a revert that succeeds |
| Operations.Operations.AnswerMessage | nc/operations.py:675-725 | likewise for an answer: the question is closed, the asker runnable and its task in progress |
| Operations.Operations.RetryBlockedTasks | nc/operations.py:381-404 | exactly the blocked tasks go on with no attempts, their workers runnable, and are returned |
| Operations.Operations.RecoverRuns | nc/operations.py:181-257 | recovers the selection as a whole, exactly when every run is open and none may be alive: these runs are closed and their agents blocked; otherwise the first reason against it |
| Wakeup.NothingIsLost | nc/turn.py:294-387 | in every interleaving with feedback, crashes and recovery, each message delivered was in the brief of the delivering turn, and a satisfied planner has read every message and owes no revision |
| Wakeup.StampedByFeedback | nc/state.py:623-689 | during a turn the planner's row is stamped exactly by feedback |
| Wakeup.NoLostWakeup | nc/turn.py:301-387 | feedback after the row was read leaves the planner runnable at the end; without any the turn gets the state it asks for and leaves nothing undelivered when it ends well |
| Wakeup.StrandedIff | nc/operations.py:237-246 | undelivered messages are left with a halted planner exactly by recovering its run or by a turn that fails without feedback, until feedback or an answer comes |
| Wakeup.RecoveryStrandsFeedback | nc/operations.py:237-246 | feedback after the brief of a session that then crashes is left so when the run is recovered |
| Wakeup.StrandedIsReachable | nc/operations.py:237-246 | a run from the start does so |
| PlanReview.AdviceIsTimely | nc/state.py:598-621 | under any step of the session, the owner or recovery, advice is recorded only for a proposal pending at that commit, by the session that returned it, and finished reviews are final |
| PlanReview.FinishedForGood | nc/state.py:550-586 | over every run a finished review is never claimed again or altered |
| PlanReview.OrphanForGood | nc/operations.py:250-256 | a claimed review without session and attempt stays claimed over every run, whatever is recovered |
| PlanReview.OrphanIffNotRecoverable | nc/operations.py:250-256 | between sessions some recovery releases a claimed review iff it is no such orphan |
| PlanReview.ReachableKeeps | nc/turn.py:476-570 | in every reachable state attempts belong to runs, and one under way to an open run |
| PlanReview.EarlyCrashOrphans | nc/turn.py:487-497 | one crash between claim and attempt row is enough for that |
| PlanReview.RecoveryReleases | nc/operations.py:250-256 | recovering a run releases its review exactly when its own attempt was under way and the review claimed, and touches no other attempt |
| PlanReview.RecoveryCanReleaseAnotherClaim | nc/operations.py:250-256 | a run exists in which this makes a review claimable while another attempt of it is under way |
| Blocks.PiecesJoin | nc/snapshot.py:176-181 | cutting loses nothing; pieces have 1 to BLOCK_SIZE bytes, all but the last a full block, and their sizes sum to the file |
| Manifests.DecodeEncode | nc/snapshot.py:226-271 | what a backup writes the validator recognises as exactly that |
| Manifests.DecodeIsWellFormed | nc/snapshot.py:226-271 | whatever the validator recognises is well formed and would be recognised again when rewritten |
| Manifests.RecognisedIff | nc/snapshot.py:226-271 | precisely which JSON the validator takes for which manifest, field by field |
| Manifests.IncrementalManifest | nc/snapshot.py:226-271 | the validator's loops decide precisely recognition |
| StoreMachine.WrittenManifestIsRecognised | nc/snapshot.py:320-337 | new plus reused bytes equal the logical bytes, and the manifest written is always recognised |
| StoreMachine.DigestsArePlan | nc/snapshot.py:320-331 | a manifest mentions exactly the digests of the staged pieces |
| StoreSafety.StepKeepsInv | nc/snapshot.py:184-367 | every single filesystem step, and a cut after it, keeps every recognised manifest's blocks present and intact |
| StoreSafety.RunKeepsInv | nc/snapshot.py:295-367 | so does every run of backups from any number of sources |
| Restore.MaterializedBytesMatch | nc/snapshot.py:370-408 | for arbitrary block contents materialising fails or yields bytes of the recorded checksum and size |
| Restore.ReadFileIff | nc/snapshot.py:386-404 | a file is read back iff every block is there with its digest and size and the whole has the recorded size and checksum, and then it is the blocks joined |
| Restore.RecognisedLeafRestores | nc/snapshot.py:370-408 | in a safe store a recognised manifest materialises to exactly the staged bytes |
| Restore.EveryRunRestores | nc/snapshot.py:184-408 | so it does in every state any interleaved, cut-off run reaches |
| Restore.NewestSurvives | nc/snapshot.py:344-349 | no step removes the newest recognised manifest of a source; only a newer publication supersedes it |
| Retention.NewestSurvive | nc/snapshot.py:344-349 | pruning keeps exactly the newest min(retain, n) recognised manifests and no other leaf is touched |
| Retention.CollectedIsReferenced | nc/snapshot.py:350-367 | after collection the digest-named blocks are exactly those some recognised manifest of any source mentions |
| Snapshot.BlockStore.SettlePiece | nc/snapshot.py:184-215 | reuses a sound block, refuses a damaged one, writes and reads back a missing one, and alters no existing block |
| Snapshot.BlockStore.CopyBlocks | nc/snapshot.py:184-215 | copies a file's pieces or stops at the first that cannot be settled; new plus reused bytes are the file's size |
| Snapshot.BlockStore.RecognisedLeaves | nc/snapshot.py:344-348 | the recognised leaves of a source, newest first |
| Snapshot.BlockStore.RemoveLeaves | nc/snapshot.py:349 | removes exactly the leaves beyond the retention |
| Snapshot.BlockStore.CollectBlocks | nc/snapshot.py:350-367 | unlinks exactly the digest-named blocks nothing mentions |
| Snapshot.BlockStore.PruneStore | nc/snapshot.py:344-367 | retention of one source, then collection across all |
| Snapshot.BlockStore.CopyStage | nc/snapshot.py:316-331 | copies database and configuration in order and builds the manifest's entries |
| Snapshot.BlockStore.IncrementalBackup | nc/snapshot.py:295-341 | succeeds exactly when every piece can be settled; then the published JSON describes the stage and the arguments field by field, with the bytes of blocks the store did not have as new and the rest as reused, the leaf is pruned around and restores the stage; otherwise no leaf changes and no block is lost |
| Snapshot.PublishedDescribes | nc/snapshot.py:326-333 | every field of the published manifest |
| Snapshot.BlockStore.ReadBlocks | nc/snapshot.py:386-404 | a file's blocks, each checked before it is copied |
| Snapshot.BlockStore.MaterializeIncremental | nc/snapshot.py:370-408 | the plain files, or which of the two errors |
| BackupWorker.StepSafe | nc/backup_worker.py:93-116 | every step of workers, owner, other backups and crashes keeps acknowledged work covered by the newest snapshot |
| BackupWorker.AcknowledgedIsRestorable | nc/backup_worker.py:93-116 | over every interleaving acknowledged never exceeds dirty nor decreases, and the newest recognised snapshot restores a database of at least the acknowledged generation |
| BackupWorker.AckCoversTheRead | nc/backup_worker.py:110-116 | an acknowledgement covers what was read and no later event, and leaves the row alone exactly when the generation did not advance |
| BackupWorker.Home.RunOnce | nc/backup_worker.py:56-119 | attempts exactly when mounted and dirty or a quarter of an hour after the last success; acknowledges the generation read before staging only if it was saved, and then the leaf describes and restores the stage |
| Framing.FramingIgnoresCuts | nc/acp_stream.py:253-279 | off the edge the verdict on a line depends on the bytes and not on the reads, and exactly the bytes behind it are left |
| Framing.OnlyWholeLines | nc/acp_stream.py:407-419 | for any bytes and reads only a complete line within the limit is dispatched, without its line end |
| Framing.EdgeDependsOnCut | nc/acp_stream.py:253-279 | every line on the edge is accepted under one cut and refused under another |
| Framing.CutsAgreeOffTheEdge | nc/acp_stream.py:253-279 | all cuts agree iff the line is off the edge |
| Framing.StreamIgnoresCuts | nc/acp_stream.py:407-419 | a whole connection that gets to no edge line dispatches the same texts and ends the same way under every cut |
| Framing.StreamCutsAgreeIff | nc/acp_stream.py:253-279 | all cuts of a stream are read alike iff the connection gets to no edge line |
| Framing.CodecExists | nc/acp_stream.py:286-292 | for every list of messages there is a codec with the facts that are assumed of it |
| Framing.MessagesReadBack | nc/acp_stream.py:407-419 | messages within the limit are read back complete and in order under every cut |
| Framing.SendMessages | nc/acp_stream.py:281-318 | what a stream puts out for messages, through partial writes of any sizes, is read back as these messages under every cut |
| Framing.FrameStream.Read | nc/acp_stream.py:253-279 | the read loop computes the frame and keeps the buffer within the limit plus one read |
| Framing.FrameStream.Write | nc/acp_stream.py:281-318 | partial writes put out the whole frame or, when blocked, a prefix of it; an oversized one puts out nothing |
| Framing.FrameStream.WriteAll | nc/acp_stream.py:281-318 | several messages go out back to back |
| Correlation.ReplyIsResponse | nc/acp_stream.py:356-405 | every peer request gets a valid response with its own id |
| Correlation.ReplySays | nc/acp_stream.py:356-405 | what each peer request is answered: refusals and error codes without a handler, the result or an internal error with one |
| Correlation.EnvelopeKinds | nc/acp_stream.py:101-130 | precisely which messages are requests, notifications and responses |
| Correlation.FirstIsFinal | nc/acp_stream.py:423-430 | no later value changes which response to an id was first |
| Correlation.Connection.SendRequest | nc/acp_stream.py:320-343 | ids increase by one each time, pending stays within its bound, and the slot opens only when the frame was written |
| Correlation.Connection.Pump | nc/acp_stream.py:407-434 | a response fills only an open empty slot; a request gets exactly one reply, in order of arrival |
| Correlation.Connection.WaitFor | nc/acp_stream.py:436-448 | returns the first response with that id heard since registration and closes the slot, has answered every request in between and nothing else, and fails only at a malformed message |
| Interference.RecordIgnored | nc/acp_decoder.py:212-259 | a record outside the interval, of another session, without a failure or with another prompt's, put in anywhere, never changes kind, stop reason or failures |
| Interference.ForeignIsSkipped | nc/acp_decoder.py:253-268 | records of other sessions and other prompts' incidents are such records |
| Interference.BeforeIgnored | nc/acp_decoder.py:212-234 | records before the prompt that are neither its request nor its response change nothing |
| Interference.AfterIgnored | nc/acp_decoder.py:212-234 | nor do such records after its response |
| Reconciliation.TopIsNewest | nc/acp_decoder.py:282-299 | the effective evidence of an incident is of its highest revision |
| Reconciliation.GatheredIsTop | nc/acp_decoder.py:285-299 | gathering succeeds iff no highest revision comes up again with different contents, and then holds per incident the first evidence of the highest revision |
| Reconciliation.OrderAndRepeatsDoNotMatter | nc/acp_decoder.py:285-299 | when equal revisions agree, dropping stale or repeated evidence and reordering changes nothing |
| PromptDecoder.NotificationUsage | nc/acp_decoder.py:139-160 | the loop yields the last snapshot reported in the interval |
| PromptDecoder.RawFailures | nc/acp_decoder.py:246-271 | the loop yields the prompt's own failures or stops at a malformed one |
| PromptDecoder.DecodePromptResult | nc/acp_decoder.py:201-310 | the decoder's loops compute the specified result, which is the one the records call for |
| Verdict.DecodeIsJudged | nc/acp_decoder.py:201-310 | for every wire, from its records: cancelled iff the stop reason says so; a success iff the turn came to its end and the evidence that counts for each incident is a warning; failed otherwise; invalid, or an exception, exactly at a conflicting identity, envelope or failure; with the failures in order of their incidents and the usage that counts |
| Verdict.ReadFailureIff | nc/acp_decoder.py:173-198 | a failure is read field by field as what it says, and raises iff its severity is an array or object |
| Verdict.ReadUsageIff | nc/acp_decoder.py:108-136 | a usage report is read iff it is complete and its two spellings agree, and then as what it says |
| Projection.ProjectionReadsSame | nc/acp_client.py:360-397 | the projection of a failure reads like the failure iff no container was the only thing wrong |
| Projection.HarmDone | nc/acp_client.py:371-389 | otherwise a refused failure becomes evidence or an exception a refusal |
| Projection.KeptMeansSame | nc/acp_client.py:254-297 | a kept record means for the prompt what the notification meant |
| Projection.ResultProjected | nc/acp_client.py:299-330 | the projected result has the same stop reason and the same terminal failures, projected |
| Collector.ProjectionKeepsVerdict | nc/acp_client.py:735-757 | decoding what was kept gives the kind, stop reason and failures of decoding the whole traffic, with requests of the peer and responses to other requests in between |
| Collector.ConnectionKeepsVerdict | nc/acp_client.py:735-757 | the same for the traffic of a whole connection around the prompt |
| Collector.PassedOver | nc/acp_decoder.py:212-259 | which requests of the peer and late responses are passed over |
| Collector.HarmReachesVerdict | nc/acp_client.py:371-389 | for every harmful failure of the prompt, a single update with it makes the traffic invalid but what was kept a success or a failure, by its severity, or makes decoding raise where what was kept is invalid |
| Collector.TurnEvidenceCollector.Add | nc/acp_client.py:201-220 | takes a record exactly when count and bytes stay within their limits |
| Collector.TurnEvidenceCollector.Notification | nc/acp_client.py:254-297 | keeps the specified record and observation exactly when the failure is within its limits and there is room, else overflows with the records unchanged; and the last complete usage |
| Collector.TurnEvidenceCollector.PromptResponded | nc/acp_client.py:299-344 | likewise for the response |
| Collector.TurnEvidenceCollector.ProjectPromptResponse | nc/acp_client.py:735-757 | gives a result exactly when the response can be taken in, the one its records decode to, which has the verdict of the whole traffic since the request |
| Collector.ProjectedUsageReads | nc/acp_client.py:347-357 | the projection of a usage report is complete and reports the same |

## Left out

- Proposals.CheckProposal: takes the findings of the regular expressions over boundaries as an input (`Spec.lint`).
- LifecycleSafety.JointInvariant: excludes interrupted turns, and retry while a blocked task has an open question, because the invariant then fails (`LifecycleSafety.RetryKeepsIff`); `Provenance` covers both.
- Exceptions of a mirror push or a worktree removal other than the three kinds the handler catches, and failing database writes: handlers raise only where the repository, the checks or integration answer.
- The recorded merge commit: a done task has one, and whether the owner confirmed it is an input of rollback.
- Messages that are not owner questions, incidents, memos, briefs and timed escalation of unanswered questions.
- Run rows of planners and plan reviews: in the program one that was left open also keeps task turns from starting.
- In `Scheduler` a plan review is one step of the loop; its separate commits are those of `PlanReview`. A proposal's specification never changes, so it is identified with the proposal.
- Preflight probes: their outcome is an input. Locks appear as atomic steps; a second scheduler that finds the lock taken is idle.
- SQLite, schema migration and `reject_proposal`, which only sets a status.
- Symbolic links, permissions, temporary files and flushing to disk; names of snapshot directories are numbers that increase within a source.
- Full (non-incremental) backups, `_validate` and `restore` of the older format.
- Operations.Operations.RecoverRuns: does not release plan reviews, which the same transaction of the program does; that part is `PlanReview.Recovered`.
- BackupWorker.Home.RunOnce: reads and writes the row without other processes between; the machine of `BackupWorker` covers those interleavings.
- `last_success_at` on fallback runs: nothing is claimed beyond that the row does not change.
- Collector.ProjectionKeepsVerdict: does not compare usage, because the collector keeps the last complete snapshot and the decoder the last one, complete or not.
- PromptDecoder.DecodePromptResult: does not give the result's diagnostic, because it is redacted text; nor are other error texts and diagnostics modelled.
- JSON text: the codec is abstract, with the facts in `Framing.Codec` on the messages that are sent; sizes of texts in the collector are functions it is given. Floating-point numbers are reals.
- Deadlines, cancellation and handlers that call back into the stream; `Correlation` continues only while replies can be written.
- Version negotiation of the decoder: the profile version is 1.

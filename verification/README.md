# Verified model of the coordinator/worker platform

A Dafny model of the platform's state machines and proofs of what they promise:

- **Scheduler and workers.** `Tasks`, `SchedulerSpec` and `Scheduler` model the work-stealing
  scheduler: a class whose methods are the source's critical sections, each proved to take a
  step of a pure specification. `SchedulerRuns`, `JobBooks`, `JobCounters`, `Once`, `DoneHook` and
  `Outcomes` prove what every run of those steps keeps, for any calls with any arguments. `Worker` is the worker's
  lease loop, `Attempts` one task seen from both sides, and `Fleet` the scheduler with all its
  workers and result reports as one transition system, every interleaving included;
  `Leases` says to the item what a lease is granted, in any call and in the fleet;
  `FleetSteps` shows that its guards are the only restriction, `LateResults` follows a result
  that outlives its worker, and `CrashSafety` runs the fleet together with the coordinator's
  log, crashes included.
- **Result commit.** `Keys` and `FinalKeys` treat the names results are committed under,
  `CommitFsm` the replicated decision ledger, `Effects` the completion sink, and
  `CommitProtocol` the four phases of a result report over every behaviour of the fleet;
  `CommittedKeys` tells which tasks the final objects and the claims come from.
- **Durability.** `Framing`, `Wal` and `WalRuns` model the write-ahead log down to its bytes,
  with crashes at any byte of an append and any step of a checkpoint, and writes that fail
  half-way; `Persist` and `PersistRuns` put the scheduler on top of it.
- **Around them.** `LockOrder` and `LockHistory` (deadlock prediction), `Prefetcher`, `S3Fifo`,
  `S3Counts`, `Clock`, `Lru`, `Cache` and `SingleFlight` (the NVMe cache), `Ring` (consistent
  hashing) and `Admission`.

`dafny verify dfyconfig.toml` checks the whole project.

## Where the code and its documentation differ

- job.go says `Granted <= RangeEnd` always holds; the code keeps it exactly while the first
  reported total is at least what was granted (`SchedulerRuns.RenewalWithinEnd`). The real
  worker always reports such a total, so in the fleet it does hold.
- A failed renewal leaves the worker's loop and success is still reported: while no task is
  cut under a result on its way, the shard is covered exactly if no committing attempt broke
  off that way (`Fleet.CommitsCoverShard`).
- commit.go says a rebalance may re-run a task whose original result arrives late and promises
  one final object. It does leave one (`CommitProtocol.CountsAgree` counts such reports too),
  but a requeue does not change the generation, so if the re-run task lost its tail meanwhile
  the late result settles a smaller task than it covers. A complete result covers exactly its
  task's range if and only if the generation is the one it was sent at
  (`Attempts.LateResultExact`, `Fleet.CommittedExactly`), no two results of a finished shard
  overlap if and only if that is so of all of them (`Fleet.CommitsDisjointExactly`), and
  `LateResults.LateResultOverlaps` is a run where it is not. When the late report comes before
  the second attempt has started, that start reopens the done task, and it can be cut under its
  committed result (`LateResults.LateStartReopens`).
- A steal from a task whose success report was already validated moves its key
  (`CommitProtocol.OnlyStealsTaint`, `CommitProtocol.CutAbandonsKey`). Without one, the
  final objects belong to exactly the tasks of which a success report naming an output was
  copied, so they are one for each done task if and only if those are the done ones
  (`CommittedKeys.ObjectsExactly`, `CommittedKeys.ClaimsExactly` for the claims). They need not
  be: `CommittedKeys.FailedTaskOwnsObject` is a behaviour that ends with a failed task's object.
- StartTask has no status guard: a late start reopens a settled task
  (`JobBooks.StartReopens`, `JobCounters.LateStartMiscounts`).
- The done hook's comment says it fires exactly once. In every run, whatever is called and
  however late, it fires at most once a job if and only if no report finishes a task of a
  terminal job that has no other task open, and no rebalance fails all the open tasks of a
  terminal job (`DoneHook.HookOnceExactly`). With timely starts only a report for a failed task
  does the former and nothing the latter (`DoneHook.HookOnceTimely`); a late start brings both
  about (`DoneHook.LateStartRepeats`).
- A task can be queued twice: exactly when an error report or a rebalance re-queues an id that
  is still queued (`Once.QueuedOnceExactly`).
- A rebalance that can re-queue nothing changes the state and does not persist it
  (`PersistRuns.UnwrittenChange`), and a checkpoint whose snapshot is older than the last
  append takes the durable state back (`PersistRuns.StaleCommitGoesBack`).
- An append that fails is only logged, and the bytes it left stay in the log: later appends
  that returned are lost exactly while those bytes and what follows do not read as a frame
  (`WalRuns.LaterAppendsLost`). A completed checkpoint ends that and saves what they wrote
  (`WalRuns.CheckpointHeals`); a reopening ends it too, without them (`PersistRuns.RestartHeals`).
- The ring promises that a new node takes keys and moves none between others. Whatever the sort
  does with equal hashes, it keeps that if and only if no points of two old nodes share a hash
  (`Ring.AddMovesOnlyToNew`).
- The admission controller's comment says shares sum to at most the cap up to rounding;
  `Admission.SharesFit` says exactly when they do, `Admission.RunCapBites` what happens
  otherwise.
- The eviction interface calls a new id most-preferred to keep; only LRU keeps that
  (`Cache.LruKeepsNewest`). `S3Fifo.NewcomerFalls`, `S3Fifo.ReturningGhostFalls` and
  `Clock.NewcomerRank` say exactly when the other two do.
- The third case of S3-FIFO's reclamation switch can never be reached: with main empty, small
  always has its share (`S3Fifo.SmallHasItsShare`).
- The completion sink's comment says a failed emit would be retried; the claim is kept, so its
  event is never sent (`Effects.CompletionSink.Apply`; `lost` in `Fleet`).

## Model

| member | source | states |
|---|---|---|
| `Scheduler.Scheduler.constructor` | internal/scheduler/scheduler.go:44-59 | a new scheduler is empty and leases chunks of 1000 |
| `Scheduler.Scheduler.SetLeaseChunk` | internal/scheduler/scheduler.go:72-79 | only a positive chunk is taken over |
| `Scheduler.Scheduler.Submit` | internal/scheduler/scheduler.go:81-123 | one pending whole-shard task per requested shard (all shards when none is named), queued in order, nothing else changed |
| `Scheduler.Scheduler.PickPending` | internal/scheduler/scheduler.go:128-157 | the first queued task the ring prefers for the worker, or the earliest of the highest priority; -1 exactly when nothing is pollable |
| `Scheduler.Scheduler.FindVictim` | internal/scheduler/scheduler.go:476-494 | a sized in-flight task with the longest un-granted tail of at least two items, none exactly when there is no such task |
| `Scheduler.Scheduler.StealTail` | internal/scheduler/scheduler.go:495-540 | the tail is cut at its middle into a new split task, the victim keeps the rest at the next generation, the job's total grows by one |
| `Scheduler.Scheduler.AssignTask` | internal/scheduler/scheduler.go:181-197 | the task is assigned, granted one chunk past its frontier within its range, and the assignment tells task, range, bound and generation |
| `Scheduler.Scheduler.PollTasks` | internal/scheduler/scheduler.go:128-176 | a poll takes a legal pick, steals only when nothing is queued, and returns nothing only when neither is possible |
| `Scheduler.Scheduler.StartTask` | internal/scheduler/scheduler.go:282-294 | the task runs, whatever its status was; unknown ids are an error |
| `Scheduler.Scheduler.CountTasks` | internal/scheduler/scheduler.go:653-666 | the loop counts the job's open, done and failed tasks |
| `Scheduler.Scheduler.UpdateJob` | internal/scheduler/scheduler.go:648-684 | counters are recomputed; with no open task the hook is called and the job is failed if and only if one of its tasks is, else completed |
| `Scheduler.Scheduler.RequeueTask` | internal/scheduler/scheduler.go:377-384 | one more retry, pending again, lease reset, queued at the end |
| `Scheduler.Scheduler.BeginReport` | internal/scheduler/scheduler.go:302-316 | a report goes on exactly for a known task that is not done |
| `Scheduler.Scheduler.EndReport` | internal/scheduler/scheduler.go:361-409 | a done task is left alone; success finishes it, an error retries it or fails it |
| `Scheduler.Scheduler.RenewLease` | internal/scheduler/scheduler.go:421-470 | first total becomes the size, the frontier only advances and is clamped, one chunk past it is granted, and the answer tells generation, bound and whether the tail was stolen |
| `Scheduler.Scheduler.ReclaimTask` | internal/scheduler/scheduler.go:553-564 | one task of a dead worker is retried or failed, the others untouched |
| `Scheduler.Scheduler.RebalanceWorker` | internal/scheduler/scheduler.go:543-570 | exactly the in-flight tasks of the worker are reclaimed, each once; persisted exactly when one was queued |
| `Scheduler.Scheduler.DrainPending` | internal/scheduler/scheduler.go:593-621 | the first n queued ids leave the queue, those pending with a known job are assigned, and an assignment is returned for exactly those, once each |
| `SchedulerRuns.RunsTile` | internal/scheduler/job.go:58-66 | in every run, whatever is called, the tasks descended from a submitted task are one of unknown size or non-empty ranges that tile the reported size |
| `SchedulerRuns.StealCutsOff` | internal/scheduler/scheduler.go:495-514 | a steal moves exactly the cut-off un-granted tail to one new task of the same family |
| `SchedulerRuns.StealsBounded` | internal/scheduler/scheduler.go:476-514 | over a whole run a shard of size n is stolen from at most n - 1 times |
| `SchedulerRuns.RunsOrderLeases` | internal/scheduler/job.go:65-66 | RangeStart <= Frontier <= Granted in every reachable state |
| `SchedulerRuns.RenewalWithinEnd` | internal/scheduler/scheduler.go:433-444 | a renewal keeps Granted <= RangeEnd if and only if a first total is not below what was granted |
| `SchedulerRuns.SmallFirstTotalOverruns` | internal/scheduler/scheduler.go:433-435 | a concrete lease where a small first total leaves Granted beyond RangeEnd |
| `SchedulerRuns.RunsStayWithinEnd` | internal/scheduler/scheduler.go:232-241 | with fair first totals Granted <= RangeEnd in every reachable state |
| `JobBooks.RunsKeepBooks` | internal/scheduler/scheduler.go:377-403 | every pending task is queued, a job's total counts its tasks, and no task is handed out more than 1 + MaxRetries times |
| `JobBooks.RunsCloseJobs` | internal/scheduler/scheduler.go:648-684 | with timely starts the hook was called for exactly the terminal jobs, and none of their tasks is open |
| `JobBooks.StartReopens` | internal/scheduler/scheduler.go:282-294 | a start breaks that exactly when the task's job is terminal |
| `DoneHook.RunsCall` | internal/scheduler/scheduler.go:667-684 | in every run, whatever is called, the hook was called for exactly the terminal jobs |
| `DoneHook.TerminalStays` | internal/scheduler/scheduler.go:667-684 | in every run a terminal job stays terminal |
| `DoneHook.HookFiresAgain` | internal/scheduler/scheduler.go:361-409 | a report calls the hook of a job again exactly when it finishes a task of a terminal job with no other task open |
| `DoneHook.ReclaimCalls` | internal/scheduler/scheduler.go:543-570 | a rebalance calls the hook of exactly the jobs all of whose open tasks it fails, once each |
| `DoneHook.RebalanceCallsOnce` | internal/scheduler/scheduler.go:543-570 | so it calls one again exactly when such a job is terminal |
| `DoneHook.HookOnceExactly` | internal/scheduler/scheduler.go:57-62 | in every run the hook was called at most once a job if and only if no call was one of those two |
| `DoneHook.HookOnceTimely` | internal/scheduler/scheduler.go:57-62 | with timely starts, if and only if no report reached a failed task of a terminal job |
| `DoneHook.LateStartRepeats` | internal/scheduler/scheduler.go:282-294 | after a late start in a terminal job a success report, or a rebalance with no retry left, is such a call |
| `Outcomes.HookTellsOutcome` | internal/scheduler/scheduler.go:667-684 | in every run, whatever is called, a job whose hook is called has nothing open and is failed if and only if one of its tasks is, else completed |
| `Outcomes.TerminalOutcome` | internal/scheduler/scheduler.go:667-684 | with prompt starts so is every terminal job at every moment |
| `Outcomes.StartLaw` | internal/scheduler/scheduler.go:282-294 | a start sets the task's status to running and leaves every other field and task, job, queue and call of the hook alone |
| `Outcomes.SettleLaw` | internal/scheduler/scheduler.go:361-409 | a report makes a task that is not done either done, or pending again at the end of the queue while a retry is left, or failed, by its worker, and touches no other |
| `Outcomes.RebalanceLaw` | internal/scheduler/scheduler.go:543-570 | a rebalance requeues or fails exactly the tasks in flight of the worker |
| `Outcomes.SubmitLaw` | internal/scheduler/scheduler.go:81-123 | the k-th task submitted is a pending one of the k-th shard with the priority of its job |
| `Once.StepOnce` | internal/scheduler/scheduler.go:377-384 | a call keeps the queue free of repetitions if and only if it re-queues no id that is still queued |
| `Once.QueuedOnceExactly` | internal/scheduler/scheduler.go:377-384 | in every run, up to any moment, each id is queued at most once if and only if no call before re-queued one still queued |
| `Once.SecondErrorQueuesTwice` | internal/scheduler/scheduler.go:379-384 | a repeated error report is such a call |
| `Once.LateStartQueuesTwice` | internal/scheduler/scheduler.go:282-294 | so is the only error report, or a rebalance, after a start of a queued task |
| `JobCounters.RunsCount` | internal/scheduler/scheduler.go:653-668 | with prompt starts DoneTasks and FailedTasks count the job's done and failed tasks at every moment |
| `JobCounters.LateStartMiscounts` | internal/scheduler/scheduler.go:282-294 | a start keeps the counters right if and only if the task is not settled |
| `JobCounters.TerminalAddsUp` | internal/scheduler/scheduler.go:667-678 | with prompt starts done plus failed equals the total exactly when nothing is open, as in every terminal job |
| `Worker.RunAlgorithm` | internal/worker/worker.go:252-298 | whatever the store and the coordinator answer, the loop takes exactly the allowed turns, and reports the items and bytes it went through |
| `Worker.Final` | internal/worker/worker.go:261-298 | the loop ends at the end of the range, or where a renewal failed or did not move the bound past the worker |
| `Worker.NeverPastLease` | internal/worker/worker.go:261-297 | every item is processed at a turn when the lease reaches past it and it is below the end |
| `Worker.EntersAsAssigned` | internal/worker/worker.go:247-260 | the attempt the fleet starts from an assignment is the loop's entry state |
| `Worker.TurnsAreActs` | internal/worker/worker.go:266-284 | each turn of the loop, answered as the scheduler renews, is an act of the fleet |
| `Leases.RenewalLaw` | internal/scheduler/scheduler.go:421-470 | a renewal answers exactly one chunk past the furthest frontier, within a known end, takes nothing back and touches nothing else |
| `Leases.TakeOrder` | internal/scheduler/scheduler.go:128-157 | no task that was passed over is one the ring prefers while the taken one is not, or comes before it among its like, or has a higher priority |
| `Leases.StealLaw` | internal/scheduler/scheduler.go:495-540 | the victim keeps up to the middle of its un-granted tail, the new task is the rest, of priority zero, handed out with its first chunk |
| `Leases.StealTarget` | internal/scheduler/scheduler.go:476-494 | a steal comes only when no queued task is pending, from a task whose tail no other exceeds; nothing is given only when the longest tail is shorter than two |
| `Leases.DrainLaw` | internal/scheduler/scheduler.go:593-621 | exactly the pending ones with a known job among the first n queued are handed out, each with its chunk |
| `Leases.ChunkIsLastSet` | internal/scheduler/scheduler.go:69-79 | in every run the chunk in use is the last positive one that was set |
| `Leases.BoundMovesByChunk` | internal/scheduler/scheduler.go:232-241 | in every behaviour a renewal at the bound moves it by exactly one chunk, or by what is left of the range |
| `Leases.FirstChunk` | internal/scheduler/scheduler.go:181-197 | in every behaviour a task handed out starts with exactly one chunk, or its whole range if that is less |
| `Attempts.RenewalKeepsHold` | internal/scheduler/scheduler.go:421-470 | a renewal at the bound keeps worker and scheduler in agreement, and a bound that does not move means the range is spent |
| `Attempts.ActKeepsOk` | internal/worker/worker.go:252-297 | every act of a worker or a report keeps what holds between a task, its attempt and its reports |
| `Attempts.HandoutOk` | internal/scheduler/scheduler.go:181-197 | a task just handed out starts a fresh attempt that agrees with its lease |
| `Attempts.ShrunkOk` | internal/scheduler/scheduler.go:495-504 | a steal takes nothing the attempt holds, and a finished attempt it hits had broken off early |
| `Attempts.ReclaimOk` | internal/scheduler/scheduler.go:543-564 | reclaiming a task in flight agrees with its attempt and reports if and only if its worker has stopped |
| `Attempts.LateResultExact` | internal/scheduler/commit.go:16-21 | a complete result, however late, covers exactly its task's range if and only if the generation is the one it was sent at |
| `Attempts.ReportLaw` | internal/scheduler/scheduler.go:302-409 | a report settles its task with the interval, output and sending generation of its attempt and the range and generation its validation found |
| `Fleet.BehavioursKeepInv` | internal/scheduler/scheduler.go:421-540 | the whole invariant holds in every state of every interleaving of polls, steals, renewals heard or not, retries, deaths, rebalances, coordinator restarts, starts that reopen a done task and phases of reports, late ones included |
| `Fleet.CommitsDisjoint` | internal/scheduler/chaos_test.go:28-36 | no offset of a shard stands behind two committed results, unless one of their tasks was cut after its result was sent |
| `Fleet.CommitsDisjointExactly` | internal/scheduler/chaos_test.go:28-36 | once a shard's tasks are done, none short, no offset is behind two results if and only if no task was cut that way |
| `Fleet.CommittedExactly` | internal/scheduler/commit.go:16-21 | a done task's complete result covers exactly its range if and only if the task was not cut under it |
| `Fleet.AttemptsDisjoint` | internal/scheduler/job.go:62-66 | attempts on different tasks of a shard have processed no offset in common |
| `Fleet.ProcessedInside` | internal/scheduler/job.go:62-64 | a worker touches only offsets granted to it inside its task's range |
| `Fleet.FinishedIsComplete` | internal/worker/worker.go:266-284 | a worker with a result has i = RangeEnd = Granted, unless and only unless its loop ended on a failed renewal with items ahead |
| `Fleet.OnlyLostRenewalsAreShort` | internal/worker/worker.go:274-277 | an attempt becomes short exactly when a renewal fails with items of the range ahead |
| `Fleet.CommitsCoverShard` | internal/scheduler/chaos_test.go:28-36 | once a shard's tasks are done, none short, their results cover it, and never more than it; with no task cut under its result only then |
| `FleetSteps.HandMoves` | internal/scheduler/scheduler.go:128-176 | every poll or drain the scheduler can make is a move of the fleet |
| `FleetSteps.AdminMoves` | internal/scheduler/scheduler.go:72-123 | every submission and chunk setting is a move, for any size of the new shards |
| `FleetSteps.RebalanceMoves` | internal/scheduler/scheduler.go:543-570 | every rebalance of a worker that has stopped acting is a move |
| `FleetSteps.ActMoves` | internal/worker/worker.go:252-297 | every enabled act of a worker or report is a move of the fleet |
| `FleetSteps.InFlightActs` | internal/worker/worker.go:252-297 | an in-flight task is never stuck: its worker or one of its reports can act, or the worker has stopped |
| `LateResults.WorkThrough` | internal/worker/worker.go:261-297 | an attempt nothing disturbs can always go through its whole range |
| `LateResults.FailThrough` | internal/worker/worker.go:181-200 | an attempt that fails in its loop or at staging can always report that, and the report leaves nothing in the store, ledger or sink and sends its task back to the queue with its range whole while a retry is left, else fails it |
| `LateResults.LateResultOverlaps` | internal/scheduler/scheduler.go:223-226 | a run exists in which a late result and a thief's both stand behind [54, 100) |
| `LateResults.LateStartReopens` | internal/scheduler/scheduler.go:282-294 | a run exists in which a start reopens a task a late report has settled, and the task is cut under that result |
| `CrashSafety.ReturnIsRestart` | internal/coordinator/coordinator.go:62-79 | the restore after a crash that lost nothing is one restart of the fleet |
| `CrashSafety.SafeAcrossCrashes` | internal/coordinator/coordinator.go:62-79 | in every run of fleet and log together, with crashes between calls and at any byte of one's record that lose nothing, the fleet is always in a state some behaviour reaches, with everything behaviours keep |
| `Keys.KeysClashExactly` | internal/scheduler/commit.go:137-142 | two keys are equal if and only if job and piece are the same, or one whole shard is named like the other's piece |
| `Keys.KeysAreInjective` | internal/scheduler/commit.go:137-142 | without '/' in names, equal keys mean the same job, shard and piece |
| `Keys.SlashCollides` | internal/scheduler/commit.go:137-142 | with '/' allowed every piece's key is also some whole shard's key |
| `Keys.PaddedReadsBack` | internal/scheduler/commit.go:141-141 | the twelve-digit numbers in a key read back |
| `Keys.PaddedWidth` | internal/scheduler/commit.go:141-141 | an offset below a trillion takes exactly twelve digits |
| `FinalKeys.FinalKeysDistinct` | internal/scheduler/commit.go:130-142 | in every run whose submissions name each shard once and use no '/', different tasks have different final keys |
| `FinalKeys.RepeatedShardCollides` | internal/scheduler/scheduler.go:102-117 | a shard named twice in one submission gives two tasks one key |
| `CommitProtocol.DoneIsBacked` | internal/scheduler/scheduler.go:301-409 | a done task has its output copied, a decision at least as new as its report agreed and its effect claimed, each as far as attached; under its own key unless it was cut meanwhile |
| `CommitProtocol.OneEventPerKey` | internal/coordinator/effect.go:45-55 | no key is emitted twice, and a lost event not at all |
| `CommitProtocol.OneTaskPerKey` | internal/scheduler/commit.go:16-21 | with no task cut after validation every object and claim is the current key of exactly one task, results of re-run tasks included |
| `CommitProtocol.CountsAgree` | internal/scheduler/chaos_test.go:28-36 | at a clean end there are as many final objects, decision records and events (sent or lost) as done tasks, each under its task's key, however many duplicate and late reports there were |
| `CommittedKeys.ObjectsExactly` | internal/scheduler/scheduler.go:321-330 | with no task cut after validation a task's key is among the objects if and only if a success report of it that names an output was copied, so they are one for each done task if and only if the done tasks are those |
| `CommittedKeys.ClaimsExactly` | internal/scheduler/scheduler.go:345-360 | and among the claims if and only if its effect was run, or lost after the claim |
| `CommittedKeys.FailedTaskOwnsObject` | internal/scheduler/scheduler.go:320-331 | a behaviour ends with the only task failed and its output among the objects |
| `CommitProtocol.OnlyStealsTaint` | internal/scheduler/scheduler.go:495-504 | only a steal from a task with a validated success report makes its key move, and such an attempt is retried or broke off |
| `CommitProtocol.CutAbandonsKey` | internal/scheduler/commit.go:130-142 | after a steal the victim's old key is no task's key any more |
| `CommitProtocol.BehavioursKeepOrder` | internal/scheduler/scheduler.go:320-359 | in every behaviour all reports, commits, records and claims are in order with the phases they have been through |
| `CommitProtocol.OutsideLaw` | internal/scheduler/scheduler.go:320-360 | copy, decision and effect of a success report leave exactly its key, a record at the generation of its validation unless one as new is there, and the first claim with its event |
| `CommitProtocol.ErrorsLeaveNothing` | internal/scheduler/scheduler.go:320-360 | an error report copies, records, claims and emits nothing |
| `CommitFsm.Fsm.ApplyEntry` | internal/consensus/commit_fsm.go:83-95 | an entry that decodes replaces the record exactly when it is newer |
| `CommitFsm.Fsm.ApplyLog` | internal/consensus/commit_fsm.go:83-95 | a replica that applied a log holds its replay |
| `CommitFsm.WinnerHeld` | internal/consensus/commit_fsm.go:83-95 | a task has a record exactly when the log names it, and it is the earliest command of the greatest generation |
| `CommitFsm.RecordIsWinner` | internal/consensus/commit_fsm.go:83-95 | and that command determines the record |
| `CommitFsm.ReplayIgnoresOrder` | internal/consensus/commit_fsm.go:70-95 | logs with the same commands, in any order and multiplicity, give the same records when equal generations agree |
| `CommitFsm.OrderMattersOtherwise` | internal/consensus/commit_fsm.go:88-93 | two commands of equal generation that differ give different records in the two orders |
| `CommitFsm.LateDuplicateIgnored` | internal/consensus/commit_fsm.go:83-95 | a command repeated later changes nothing, whatever the rest of the log |
| `CommitFsm.RecordsOnlyGrow` | internal/consensus/commit_fsm.go:83-95 | as more of the log is applied a record never disappears, never gets older, and never changes at its generation |
| `CommitFsm.Decide` | internal/coordinator/raft.go:33-73 | the answer is a record at least as new as the request, read from some applied prefix; each error outcome exactly in its case |
| `CommitFsm.AnswersAgree` | internal/coordinator/raft.go:33-73 | answers for a task on any replicas at any times agree at equal generations |
| `Effects.CompletionSink.Claim` | internal/coordinator/effect.go:45-48 | only the first claim of a key wins |
| `Effects.CompletionSink.Apply` | internal/coordinator/effect.go:45-55 | an event is emitted exactly on a won claim that delivers; a lost claim succeeds silently; nothing is emitted twice |
| `Framing.FrameReadsBack` | internal/pipeline/checkpoint.go:204-238 | a record reads back from its frame, whatever follows, if and only if its length fits the 32-bit field |
| `Framing.FrameBytes` | internal/pipeline/checkpoint.go:204-214 | a frame is length, checksum, number and payload, most significant byte first |
| `Framing.TornFrame` | internal/pipeline/checkpoint.go:219-238 | no proper prefix of a frame reads as a frame |
| `Framing.ReadIsLocal` | internal/pipeline/checkpoint.go:219-238 | what is read depends only on the bytes of that frame |
| `Wal.RecoverLog` | internal/pipeline/checkpoint.go:171-201 | the loop returns the payloads newer than the snapshot, the greatest sequence number and the length of the intact part |
| `Wal.OpenWal` | internal/pipeline/checkpoint.go:59-86 | opening fails exactly on a snapshot that does not read, and otherwise recovers, trims the torn tail and resumes the counter |
| `Wal.Log.Append` | internal/pipeline/checkpoint.go:91-102 | the next number (wrapping at 64 bits) and its frame at the end of the log |
| `Wal.Log.Checkpoint` | internal/pipeline/checkpoint.go:108-138 | the snapshot file is the frame covering the current number, the log is empty |
| `Wal.LogExtends` | internal/pipeline/checkpoint.go:184-199 | bytes after a whole log add exactly the records they hold |
| `Wal.TrimWhole` | internal/pipeline/checkpoint.go:186-192 | trimming leaves a whole log with the same records |
| `WalRuns.RecoveryIsExact` | internal/pipeline/checkpoint.go:59-138 | at any moment of any run, with crashes at any byte or step and any number of reopenings, recovery is exactly what the start or any reopening had and, since then, the last committed snapshot and the appends completely written with no torn bytes before them, in order, unless torn bytes read as a frame |
| `WalRuns.TornRecords` | internal/pipeline/checkpoint.go:184-199 | recovery sees the log up to the torn bytes exactly while they and what follows do not read as a frame |
| `WalRuns.SequenceNumbersRise` | internal/pipeline/checkpoint.go:91-102 | in every run the number recovered never falls, every append is numbered above it, and one more than the call before |
| `WalRuns.RecordsRise` | internal/pipeline/checkpoint.go:20-23 | the log's numbers rise strictly while no reopening has read torn bytes as records |
| `WalRuns.NewSnapshot` | internal/pipeline/checkpoint.go:122-130 | from the rename on recovery sees the new snapshot alone, however much of the old log is left |
| `WalRuns.LaterAppendsLost` | internal/pipeline/checkpoint.go:95-97 | after such a write everything appended since is lost exactly while the torn bytes and what follows do not read as a frame; recovery is then what it was before, and is so again after a crash and a reopening |
| `WalRuns.TornReadsExactly` | internal/pipeline/checkpoint.go:219-238 | they read as one exactly when enough bytes follow and the body so completed has the failed one's checksum |
| `WalRuns.FailedAppendHidesLater` | internal/pipeline/checkpoint.go:95-97 | so whatever the checksum a later append short enough is hidden |
| `WalRuns.CheckpointHeals` | internal/pipeline/checkpoint.go:108-138 | a completed checkpoint makes recovery exact again whatever was in the log |
| `Persist.EncodeState` | internal/scheduler/persist.go:74-87 | the image lists every job and task once, whatever order the maps are walked in |
| `Persist.Restore` | internal/scheduler/persist.go:44-70 | the newest record wins over the snapshot; a bad one is an error and changes nothing; else jobs, tasks and queue are rebuilt from it |
| `Persist.RebuildsImage` | internal/scheduler/persist.go:44-87 | restoring an image of a state gives that state |
| `PersistRuns.RestoreIsDurable` | internal/coordinator/coordinator.go:62-79 | in every run with undisturbed checkpoints, restoring gives the state at the latest durable point unless torn bytes read as a frame, and that is the live state unless a failed append or a silent rebalance intervened |
| `PersistRuns.RestartHeals` | internal/coordinator/coordinator.go:62-79 | a restart takes torn bytes away, and its state is durable |
| `PersistRuns.UnwrittenChange` | internal/scheduler/scheduler.go:566-567 | a call that writes nothing changes the saved state if and only if it is a rebalance that found tasks |
| `PersistRuns.StaleCommitGoesBack` | internal/coordinator/coordinator.go:180-186 | committing a snapshot restores the state it was taken of, so with appends in between it is right if and only if they changed nothing |
| `LockOrder.Reachable` | internal/diag/lock.go:317-337 | the depth-first search terminates and answers yes if and only if there is a path |
| `LockOrder.Detector.EnterAcquire` | internal/diag/lock.go:272-284 | an edge from every other held lock, and a warning whenever the acquired lock leads back |
| `LockOrder.Detector.MarkHeld` | internal/diag/lock.go:286-290 | the name goes on top of the goroutine's stack |
| `LockOrder.Detector.MarkReleased` | internal/diag/lock.go:292-306 | exactly the last occurrence of the name leaves the stack, if there is one; no other stack changes |
| `LockHistory.HeldAsTaken` | internal/diag/lock.go:286-306 | in every run a goroutine's stack holds a name as often as it got that lock and has not released it since |
| `LockHistory.EdgesAsEntered` | internal/diag/lock.go:262-284 | in every run an edge is recorded if and only if some goroutine entered the one lock while it held the other, got and not released |
| `LockHistory.EnterReports` | internal/diag/lock.go:272-284 | whoever enters a lock that leads back to one it holds has that pair on report |
| `LockHistory.WarningsAreReal` | internal/diag/lock.go:341-350 | every warning names an order that was seen and whose reverse the recorded orders lead to |
| `LockHistory.WarnedOnce` | internal/diag/lock.go:341-350 | of two locks one order at most is warned of, when no name contains the separator |
| `LockOrder.NewEdge` | internal/diag/lock.go:278-281 | a new edge makes the graph cyclic exactly when it was or when its head leads back to its tail |
| `LockOrder.WarnedIffCyclic` | internal/diag/lock.go:254-350 | in every run there is a warning if and only if the recorded orders are cyclic |
| `LockOrder.QuietMeansNoDeadlock` | internal/diag/lock.go:254-260 | while nothing is reported no goroutines wait for each other in a circle with two different lock names on it |
| `LockOrder.OneNameLeavesNoTrace` | internal/diag/lock.go:275-277 | held locks of the acquired name leave no edge |
| `LockOrder.OneNameCircleUnseen` | internal/diag/lock.go:275-277 | any number of goroutines can wait in a circle over one name with nothing reported |
| `Prefetcher.OutputInOrder` | internal/pipeline/prefetcher.go:52-99 | in every run the output is a prefix of the keys, in order |
| `Prefetcher.DeliversFetched` | internal/pipeline/prefetcher.go:105-118 | in every run what the consumer is given for a key is what the one fetch for that key returned, data or error |
| `Prefetcher.LookAheadBounded` | internal/pipeline/prefetcher.go:53-57 | at most depth fetches run and at most depth + 1 undelivered objects are held |
| `Prefetcher.NeverStuck` | internal/pipeline/prefetcher.go:59-98 | until all goroutines have ended one can step, after a cancellation without the consumer |
| `Prefetcher.StepProgresses` | internal/pipeline/prefetcher.go:59-98 | every step but the cancellation makes a bounded measure smaller |
| `Prefetcher.RunsEnd` | internal/pipeline/prefetcher.go:59-98 | an uncancelled run takes at most seven steps a key and two more |
| `Prefetcher.EndedDelivers` | internal/pipeline/prefetcher.go:44-47 | an uncancelled stream that has ended delivered every key in order, each with what its one fetch returned |
| `S3Fifo.Victim` | internal/cache/s3fifo.go:90-117 | reclamation ends, by small's length plus all references, having evicted exactly one resident and kept the policy valid |
| `S3Fifo.Policy.AddId` | internal/cache/s3fifo.go:50-71 | a resident is bumped, a ghost goes to main, anything else to small, and the peak is kept |
| `S3Fifo.Policy.AccessId` | internal/cache/s3fifo.go:73-83 | a resident has one reference more, up to three, and nothing else changes |
| `S3Fifo.Policy.NextVictim` | internal/cache/s3fifo.go:90-117 | the loop computes that victim, or none when empty |
| `S3Fifo.Policy.PopSmall` | internal/cache/s3fifo.go:122-137 | the oldest of small is promoted if referenced, else evicted and remembered as a ghost |
| `S3Fifo.Policy.PopMain` | internal/cache/s3fifo.go:142-156 | the oldest of main is decayed and kept if referenced, else evicted |
| `S3Fifo.TrimGhosts` | internal/cache/s3fifo.go:158-171 | the newest ghosts stay, at most as many as the peak |
| `S3Fifo.Policy.RemoveId` | internal/cache/s3fifo.go:173-184 | exactly the id leaves its queue |
| `S3Fifo.QueuesPartition` | internal/cache/s3fifo.go:23-38 | after any calls small and main partition the residents, no ghost is resident, and ghosts never outnumber the peak of residents |
| `S3Fifo.MainIsEarned` | internal/cache/s3fifo.go:14-22 | an id is in main only because during its stay it was requested in small or came back as a ghost |
| `S3Counts.RequestLaw` | internal/cache/s3fifo.go:50-83 | adding or accessing a resident is one reference more, up to three, and nothing else changes |
| `S3Counts.SmallCounts` | internal/cache/s3fifo.go:73-83 | while an id is in small it has as many references as it was requested since it joined, up to three |
| `S3Counts.FallsUnrequested` | internal/cache/s3fifo.go:122-137 | an id that reclamation takes out of small becomes a ghost if and only if no call of its stay requested it, and is in main only if one did |
| `S3Counts.ReferencesTallied` | internal/cache/s3fifo.go:142-156 | in every run a resident's references are its requests, capped at three, less the second chances it used up |
| `S3Counts.GhostLaw` | internal/cache/s3fifo.go:158-171 | reclamation remembers exactly an unreferenced victim from small, as the newest ghost, and forgets only the oldest beyond the peak |
| `S3Fifo.NewcomerFalls` | internal/cache/s3fifo.go:90-117 | a new id is the very next victim if and only if there are fewer than nineteen residents and all of small has been referenced |
| `S3Fifo.ReturningGhostFalls` | internal/cache/s3fifo.go:53-61 | a returning ghost is if and only if all of main has been referenced and so have those of small beyond its share |
| `S3Fifo.SmallHasItsShare` | internal/cache/s3fifo.go:109-113 | the third case of the switch is never reached |
| `Clock.Sweep` | internal/cache/clock.go:50-68 | the sweep stops within a full turn and a step, at the first clear mark from the hand or back at the hand, with the passed marks cleared |
| `Clock.Policy.NextVictim` | internal/cache/clock.go:50-68 | and so names the victim the rule names |
| `Clock.Policy.AddId` | internal/cache/clock.go:34-42 | a known id is marked, a new one joins the end marked |
| `Clock.Policy.AccessId` | internal/cache/clock.go:44-48 | exactly a resident id is marked |
| `Clock.Policy.RemoveId` | internal/cache/clock.go:70-86 | exactly the id leaves and the hand stays valid |
| `Clock.RemoveKeepsHand` | internal/cache/clock.go:75-83 | the hand stays on its entry, or steps to the successor of the removed one |
| `Clock.VictimValid` | internal/cache/clock.go:50-68 | the victim is a resident with its mark clear under the hand, and nobody left |
| `Clock.ReplayValid` | internal/cache/clock.go:34-99 | after any calls the hand is a place in the ring and no id is there twice |
| `Clock.MarksFollow` | internal/cache/clock.go:34-68 | in every run a mark is set by a request for its id, cleared by a sweep that comes past it, and by nothing else |
| `Clock.FirstVictimSpares` | internal/cache/clock.go:39-41 | the first victim after an admission is not the newcomer unless it is alone |
| `Clock.NewcomerRank` | internal/cache/clock.go:50-68 | an admitted id survives exactly as many evictions as there are clear marks in the ring and marked entries from the hand to its end |
| `Clock.RankDecides` | internal/cache/clock.go:50-68 | every entry survives k evictions if and only if k is less than its rank from the hand |
| `Clock.VictimTurns` | internal/cache/clock.go:50-99 | seen from the hand the sweep is a queue whose marked front is cleared and goes to the back |
| `Clock.SecondVictimNeedNot` | internal/cache/clock.go:50-68 | so with two marked entries and the hand on the second the newcomer survives one eviction and not two |
| `Lru.Policy.AddId` | internal/cache/policy.go:41-47 | the id moves or goes to the front |
| `Lru.Policy.AccessId` | internal/cache/policy.go:49-53 | a resident moves to the front |
| `Lru.Policy.Victim` | internal/cache/policy.go:55-61 | the least recent id |
| `Lru.Policy.RemoveId` | internal/cache/policy.go:63-68 | exactly the id leaves |
| `Lru.RecencyOrder` | internal/cache/policy.go:27-68 | after any calls the list holds exactly the ids added and not removed since, the most recently requested first |
| `Cache.VictimContract` | internal/cache/policy.go:12-25 | for all three policies the victim is a resident and after its removal exactly it is gone |
| `Cache.AddContract` | internal/cache/policy.go:12-25 | for all three policies an added id becomes resident and nobody leaves |
| `Cache.RequestContract` | internal/cache/policy.go:12-25 | a request for a resident reaches its own policy: first in the recency list, its mark set with the hand where it was, one reference more; adding a resident again is such a request |
| `Cache.OwnVictim` | internal/cache/policy.go:12-25 | the victim is the one the policy itself names, whichever of the three it is |
| `Cache.S3EvictsNewest` | internal/cache/eviction.go:14-48 | under S3-FIFO a new object that overfills the cache is the first to go if and only if there were fewer than nineteen others and all of small was referenced |
| `Cache.ClockSparesNewest` | internal/cache/eviction.go:14-48 | under CLOCK it is never the first to go |
| `Cache.Cache.constructor` | internal/cache/eviction.go:54-93 | the objects found on disk are indexed oldest first and evicted down to the budget |
| `Cache.Cache.AdmitObject` | internal/cache/eviction.go:14-26 | sizes are reconciled, not double counted, policy and index stay equal and used bytes stay the sum of sizes |
| `Cache.Cache.EvictLocked` | internal/cache/eviction.go:32-48 | the loop ends within the budget or with one object left, and what stays keeps its size |
| `Cache.Evict` | internal/cache/eviction.go:32-48 | eviction keeps the index valid, fits the budget or leaves one object, and never empties a non-empty cache |
| `Cache.LruKeepsLongestFit` | internal/cache/eviction.go:28-48 | under LRU exactly the longest most-recent prefix that fits stays, or the newest object alone |
| `Cache.LruKeepsNewest` | internal/cache/policy.go:13-14 | under LRU an object survives its own admission whatever its size |
| `SingleFlight.OneFetchPerId` | internal/cache/local_cache.go:101-152 | in every interleaving at most one call fetches an id, and an id being fetched is not in the index |
| `SingleFlight.FetchesAreMisses` | internal/cache/local_cache.go:127-133 | fetches equal misses exactly when no call is between its miss and its fetch, and every call hit, missed or shared |
| `SingleFlight.GetDecides` | internal/cache/local_cache.go:101-128 | a call hits exactly when its object is indexed, joins exactly a fetch under way, and else fetches; a hit is a request to the policy |
| `SingleFlight.FetchAdmits` | internal/cache/local_cache.go:129-140 | in every run a fetch that succeeds brings its object into the index with its size, evicting nothing if it fits; one that fails leaves the index alone |
| `SingleFlight.NeverStuck` | internal/cache/local_cache.go:116-140 | while a call has not returned some call can step |
| `Ring.Search` | internal/cluster/ring.go:76-76 | binary search finds the first point at or after the hash |
| `Ring.Ring.Add` | internal/cluster/ring.go:42-54 | the ring holds exactly the points of its nodes, in the order of their hashes, clashing ones in any order; a known node changes nothing |
| `Ring.Ring.Remove` | internal/cluster/ring.go:56-67 | exactly the node's points leave, order kept |
| `Ring.Ring.Lookup` | internal/cluster/ring.go:69-81 | the node of the clockwise successor; an error exactly on an empty ring |
| `Ring.Ring.LookupN` | internal/cluster/ring.go:83-102 | the first min(n, nodes) distinct nodes clockwise from the key |
| `Ring.LookupNStartsRight` | internal/cluster/ring.go:83-102 | it starts with Lookup's answer |
| `Ring.FirstsAt` | internal/cluster/ring.go:83-102 | the k-th answer is the node of the first point clockwise whose node is not among those before |
| `Ring.LabelsDiffer` | internal/cluster/ring.go:49-52 | virtual nodes have different labels, of one node or of several, whatever the nodes are called |
| `Ring.PointsDiffer` | internal/cluster/ring.go:47-61 | with a hash that tells labels apart a node has as many different points as it is given |
| `Ring.NoClashWhenOneToOne` | internal/cluster/ring.go:49-52 | so with a hash that never repeats no two points of a ring clash |
| `Ring.AddMovesOnlyToNew` | internal/cluster/ring.go:18-24 | however the sort arranges equal hashes, adding a node moves keys only to it if and only if no points of two old nodes share a hash |
| `Ring.ClashMovesOthers` | internal/cluster/ring.go:53-53 | every such clash can be sorted so that a key moves between two old nodes |
| `Ring.RemoveMovesOnlyItsOwn` | internal/cluster/ring.go:18-24 | removing a node leaves Lookup's point as it was for every key that was not its own, clashes or not |
| `Ring.AddThenRemove` | internal/cluster/ring.go:42-67 | adding an absent node and removing it restores the ring, however it was sorted, under the same condition exactly |
| `Admission.Controller.constructor` | internal/admission/controller.go:67-76 | a cap below one becomes one |
| `Admission.Controller.SetClassOf` | internal/admission/controller.go:80-91 | a weight below one becomes one and the total weight stays the sum |
| `Admission.Controller.AdmitOne` | internal/admission/controller.go:115-137 | a ticket exactly when the tenant has a class, is below its share and the cap has room |
| `Admission.Controller.ReleaseTicket` | internal/admission/controller.go:149-159 | the first release gives the slot back, any further one changes nothing |
| `Admission.WeightsAsSet` | internal/admission/controller.go:80-91 | in every run a tenant has a class if and only if it was given one, with the last weight given, or one if that is less |
| `Admission.SlotsAreTickets` | internal/admission/controller.go:53-62 | in every run slots in use, in all and per tenant, are the unreleased tickets and never exceed the cap |
| `Admission.OneShare` | internal/admission/controller.go:93-107 | a share is the weight's part of the cap, short of it by what the division drops, or one slot where that part is less than one |
| `Admission.SharesFit` | internal/admission/controller.go:93-107 | shares sum to at most the cap if and only if what division drops makes up for the tenants raised to one slot, so always when there is none |
| `Admission.CapNeverBites` | internal/admission/controller.go:93-98 | while shares fit and are kept, a tenant is admitted exactly when below its own share |
| `Admission.SharesAreKept` | internal/admission/controller.go:115-137 | in every run with classes set first everyone stays within its share |
| `Admission.RunCapNeverBites` | internal/admission/controller.go:93-98 | so in every such run whose shares fit the cap refuses nobody |
| `Admission.CapBites` | internal/admission/controller.go:103-105 | when they do not fit some load within all shares has the cap refuse a tenant below its share |
| `Admission.RunCapBites` | internal/admission/controller.go:103-105 | and every run that has set such classes goes on to one |

## Left out

- Task and job records are values in maps: aliasing of the Go pointers is not modelled, nor are timestamps, error texts and configuration fields, on which no decision depends.
- Offsets are mathematical integers: overflow of int64 in `Frontier + leaseChunk` is not modelled. Log sequence numbers and frame lengths have their width.
- Task ids are an abstract type: uuid.New, the ring's owner of a shard, and the order Go walks a map are arguments of the steps.
- Element pointers kept beside the cache's lists (els, ghostSet) are folded into membership of the list.
- The eviction policy interface is a sum of the three policies, because a class hierarchy is not used here; the policy objects are separate classes proved against the same functions.
- Fleet: a worker is rebalanced only when it no longer acts, and an error report is sent once and settled before that, as the fault-injection suite arranges; success reports may come at any time.
- Fleet: every listing of a shard shows the same items, and a StartTask that arrives finds its attempt's task in flight or done (JobBooks.StartReopens says what happens otherwise); a committed result is the one that settled its task last.
- CrashSafety: objects, decisions and the claims ledger survive a crash; calls under way in their unlocked phases are lost before the coordinator is back (CrashSafety.UnderWayAreLost).
- CommitProtocol: the copy is the Committer contract (idempotent in the final key), the decision is one agreed ledger that a report reads at its proposal, and the effect key is the final key itself, since the hash over it is taken to be injective; the record an event carries besides its key is not modelled.
- CommitFsm.Decide: the polls' instants and what replicas have applied by then are arguments; encoding of commands is not modelled.
- Persist: JSON is a pair of functions that round-trip.
- WalRuns: a crash leaves a prefix of what was being written; reordering of blocks by the disk is not modelled. The CRC is any function. A checkpoint whose rename or truncation fails without a crash is not modelled.
- Prefetcher: pushing a future and starting its fetcher are one step.
- SingleFlight: opening the file after the lock is released, and its failure when the object was evicted meanwhile, is not modelled.
- Staging keys, HTTP and gRPC handlers, the Raft library, object stores, membership timeouts, search, quotas, sandboxing, file formats and metrics would only add members of another kind.

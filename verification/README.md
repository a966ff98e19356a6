# A verified model of the job orchestrator's core

The orchestrator queues jobs in SQLite and in a heap, reserves machines for them, runs them as processes
watched by threads, and accounts for every core, GPU and megabyte it hands out. This project models the parts
where state has to stay consistent over whole runs, and proves that it does:

- **Resource ledger** (`Registry`, `Ledger`, `Plans`, `Records`, `Allocator`). The machine table and the
  allocation table are mutable tables of two classes. Between any two registry calls of the allocator other
  threads may upsert, remove or probe machines: this is the `meddle` parameter, an arbitrary list of
  operations for every gap. The database commit may fail. The invariant `Allocator.Inv` says that every
  machine's counters are exactly the sum of the slots of the active records that name it, without
  over-commit, and that the open allocation rows are exactly those slots.
- **Executor protocol** (`Execution`, `Executor`, `ExecutorRuns`, `LostCancellations`, `ActiveList`, `Holdings`, `Exits`).
  A transition system with one step per locked section of the executor, and one per call between two of them: spawner,
  launcher and watcher threads, cancellations, timeouts, killers that hold a copied process id, dying processes, row
  changes by request handlers, shutdown. Theorems hold for every sequence of steps. `ActiveList.Executions` gives the
  entry points that walk the list as methods with their loops, proved to be those steps. `Holdings` joins it to the
  allocator: the records it counts on are the allocator's. `Exits` says what is recorded: over any run, SUCCEEDED only by
  the thread that has seen the process exit well.
- **Job lifecycle** (`Lifecycle`, `Runs`, `Outcomes`, `Agreement`, `Scheduling`, `Quotas`, `Workflows`). What each
  request, scan iteration, periodic pass and watcher stage does to one job (`Lifecycle`), and runs of such steps with
  crashes and restarts anywhere (`Runs`). `Outcomes` states each step's effect on row, execution and allocation, and
  `Agreement` that the executor's protocol makes the same of the row. `Scheduling.Scheduler` runs the scan, cancellation,
  retry and reload on the real heap, submits workflows in one transaction, and is proved to perform those steps.
- **Priority heap** (`JobQueue`). The array heap with in-place repair, against a multiset.
- **Fidelity selection** (`DecisionCore`, `FidelityMap`). The greedy selection within a core budget, with
  doubles as reals and 32-bit sums written out.
- **Hashing** (`Sha256`, `Passwords`, `Decimal`). The buffered hash, HMAC, PBKDF2 and the password record
  against FIPS 180-4, RFC 2104 and RFC 8018, for any compression function.
- **Placeholder substitution** (`Template`, `Overflow`). The replacement loops on the fixed command buffer, and what they
  leave of a command that does not fit on the way.

Operations are defined by small functions, which the proofs about runs go through. What such a function decides is also
stated on the fields themselves, without it: in the contracts of the main methods and in the lemmas named `...Means`.

`dafny verify dfyconfig.toml` checks everything.

## Findings

Where the code does not do what it seems to promise, the model keeps the code and says exactly when:

- A cancellation, timeout or shutdown that falls between `job_set_status(RUNNING)` and `db_update_job_started`
  (`src/core/executor.c:1234-1241`) is overwritten: the execution ends as cancelled or failed in memory, its
  row stays RUNNING. `Execution.EndStatus` shows that a row is left terminal if and only if no request fell
  into that window. `LostCancellations.CancelledButRunning` gives, for every job, a run of the whole executor from a
  fresh start after which the row says RUNNING and nothing of the job is left.
- A cancellation is also lost in an earlier window. When the job is neither in the queue nor listed as active, the
  handler cancels its row and asks nobody to stop (`src/core/scheduler.c:848-855`); by then the owner may have looked at
  the row already (`src/core/executor.c:1213-1220`) and go on to write RUNNING over it. `Execution.CancelledRowStands` shows
  that the cancelled row stands if and only if the owner had yet to look at it or somebody asks the execution itself to
  end before it is marked; `LostCancellations.CancelledButSucceeded` gives a run after which such a job is SUCCEEDED.
  If the handler is overtaken between reading and writing the row, its write is kept by the owner's next move if and only
  if that move writes no status (`Execution.LateCancelStands`).
- The limits that the comment at `src/persistence/db.c:1499-1507` calls user-wide, app-wide and global are each
  checked against the running jobs of the same user *and* application only (`src/persistence/db.c:1523-1540`):
  `Quotas.UserLimitIsPerApplication`, `Quotas.ApplicationLimitIsPerUser` and `Quotas.DefaultLimitIsPerPair` give
  an input for each of the three levels. For any table, the quota that is found bounds everybody it is set for if and only
  if it is set for exactly the names of the job, or sets no limit, even if no pair of names is beyond a limit of its own
  (`Quotas.LimitIsSharedExactly`). What the check does
  guarantee, for exact pairs, is `Runs.QuotaSafety`.
- A machine that is new to the registry must arrive with zero counters: `Ledger.NewMachineMustBeBlank` shows
  that the ledger balances after it if and only if they are zero. Every caller zeroes the record first.
- A command can be wrong although template and result fit the buffer: while a placeholder is still there, another one's
  value may not fit and is cut (`src/http/routes.c:1009-1016`). For any template and any number of parameters the command
  is right if and only if the text fits before the first key and after each of them, unless an ending of the template is
  to vanish (`Overflow.FitsExactly`); with non-empty values none does (`Overflow.NonEmptyFitsExactly`). So two orders of the
  same parameters, of which one always fits, agree exactly when the other always fits too (`Overflow.OrderMatters`), and
  `Overflow.OrderMattersExactly` gives inputs for which they do not. Where an ending vanishes, fitting is still enough
  (`Template.KeysAreSimultaneous`), and `Overflow.VanishesExactly` shows when a cut does no harm there.

## Model

| member | source | states |
|---|---|---|
| Registry.FitChecksCannotOverflow | src/resources/registry.c:364-391 | On a machine without over-commit every difference and sum the fit checks compute stays in 32 bits. |
| Registry.Registry.Load | src/resources/registry.c:120-171 | The table becomes the one loaded from the machine list, entry by entry; its machines are valid and not over-committed, with zero counters, probe times and failure counts. |
| Registry.LoadedOrigin | src/resources/registry.c:120-171 | A loaded table holds, in the order of the list, the first admissible entry of every id, up to its capacity. |
| Registry.LoadedIsSound | src/resources/registry.c:120-171 | For any list: unique ids, no over-commit, counters and probe state reset, and every admissible id present unless the table is full. |
| Registry.AdmissibleMeans | src/resources/registry.c:134-166 | What may be loaded, field by field: lengths, safe characters, ranges of the numbers, floors within totals, provider and instance of a cloud machine. |
| Registry.Registry.UpsertMachine | src/resources/registry.c:296-340 | The table in place becomes the specified one: counters and probe state of a known machine survive, invalid or overcommitting input is refused. |
| Registry.Registry.RemoveMachine | src/resources/registry.c:342-362 | Swap-remove in place; a machine with reserved resources is refused. |
| Registry.Registry.Reserve | src/resources/registry.c:364-391 | Returns 0 if and only if the need is not negative and the first machine with the id is enabled, Online, and has total minus reserved minus the floor left of every quantity; then exactly the need is added to that machine's counters, otherwise nothing changes. |
| Registry.Registry.Release | src/resources/registry.c:393-416 | Unbooks with the clamp at zero, or changes nothing. |
| Registry.Registry.UpdateProbe | src/resources/registry.c:418-436 | Changes probe status, time and failure count only. |
| Registry.ReservedMeans | src/resources/registry.c:364-391 | The same, quantity by quantity, of the specified reservation. |
| Registry.ReleasedMeans | src/resources/registry.c:393-416 | A release lowers each counter of the named machine by the need, to zero where that is more than it holds; refused for a negative need or an unknown machine. |
| Registry.ProbedMeans | src/resources/registry.c:418-436 | A probe sets status and time, and the failure count to zero, one more, or as before, by its outcome. |
| Registry.UpsertedMeans | src/resources/registry.c:296-340 | When an upsert is accepted, what a known machine keeps, and which errors are returned, field by field. |
| Registry.AcceptableMeans | src/resources/registry.c:296-303 | Exactly which machines are accepted: characters of the id, at least one core, floors between zero and the totals. |
| Registry.RemovedMeans | src/resources/registry.c:342-362 | A removal is refused exactly while a counter is above zero; the last machine takes the place of the one removed. |
| Ledger.ReserveKeeps | src/resources/registry.c:364-391 | A granted reservation keeps the books: counters equal the sum of slots, and nothing is over-committed, for every need. |
| Ledger.ReleaseFinds | src/resources/registry.c:393-416 | A booked slot's machine is still registered and its counters cover the slot, so the clamp never fires. |
| Ledger.ReleaseKeeps | src/resources/allocator.c:130-135 | Releasing removes exactly that slot from the books. |
| Ledger.RemovedHoldsNothing | src/resources/registry.c:342-362 | A machine that can be removed carries no slot of any record. |
| Ledger.NewMachineMustBeBlank | src/resources/registry.c:296-340 | After a new machine is upserted the books balance if and only if its counters were zero. |
| Ledger.InterferenceKeeps | src/resources/registry.c:296-436 | Any sequence of upserts, removals and probe updates keeps the books and the absence of over-commit. |
| Plans.FitIsGranted | src/resources/allocator.c:67-73 | A machine fits by the allocator's clamped comparison if and only if the registry would grant the request. |
| Plans.CanFitMeans | src/resources/allocator.c:67-73 | A machine fits if and only if it is enabled and Online and what is left of each quantity above its floor covers what is asked of it. |
| Plans.TakeMatchesCandidates | src/resources/allocator.c:199-271 | The reserving loop picks exactly the machines the counting loop counts, and their cores add up to the request or to all that is free. |
| Plans.CandidatesMean | src/resources/allocator.c:199-234 | The machines counted are, in table order, enabled and Online ones with cores to give; one is passed over only when sixteen are counted or their cores suffice, and no fewer of them would. |
| Plans.TakenAreDistinct | src/resources/allocator.c:256-265 | A plan names no machine twice. |
| Plans.ShareBounds | src/resources/allocator.c:272-290 | n rounded-up shares cover the amount and exceed it by less than n. |
| Plans.JoinFits | src/resources/allocator.c:307-319 | The list of machine ids never needs more than its 1024 bytes. |
| Plans.JoinReads | src/resources/allocator.c:307-319 | Cut at its commas, the list gives back the ids. |
| Records.ReserveCovers | src/persistence/db.c:1006-1024 | After a record's rows are inserted, every slot of every active record has its open row. |
| Records.RowsAfterClose | src/persistence/db.c:1026-1036 | Closing a released job's rows brings open rows and slots back into agreement. |
| Allocator.Allocator.Acquire | src/resources/allocator.c:75-103 | A record is acquired if and only if the job has no active one; it is a blank record of the table. |
| Allocator.Allocator.ReserveSlots | src/resources/allocator.c:292-301 | All slots are booked, or all that were booked are given back, under any interference. |
| Allocator.Allocator.Persist | src/resources/allocator.c:115-128 | All rows of the record are inserted and open, or none. |
| Allocator.Allocator.ReserveSingle | src/resources/allocator.c:327-349 | One machine: record, booking and row all exist afterwards, or none of them; the invariant holds. |
| Allocator.OthersEffect | src/resources/allocator.c:236-325 | The operations of other threads that take effect while slots are booked would have had the same effect on a table without them. |
| Allocator.GrantHasRoom | src/resources/registry.c:364-391 | A slot that is granted had room: at that moment, on the registry that the others' effective operations make, its machine was enabled, Online and had that much left above its floor. |
| Allocator.Allocator.AllocReserve | src/resources/allocator.c:351-378 | Keeps the invariant under any interference; what is granted was on an enabled, Online machine with room for it when it was booked; on failure the registry is the old one with the others' effective operations applied, and rows are as before; without interference it succeeds on the first machine that fits, exactly when one fits, the commit succeeds and the job has no record. |
| Allocator.Allocator.AllocReserveOn | src/resources/allocator.c:380-396 | The same on one named machine, which was enabled, Online and had room when it was booked. |
| Allocator.Allocator.AllocCanFit | src/resources/allocator.c:137-152 | True exactly when some machine is enabled, Online and has what is asked left above its floor. |
| Allocator.Allocator.AllocCanFitMulti | src/resources/allocator.c:199-234 | The number of machines the request would be spread over, 0 if it cannot be; which machines these are is in CandidatesMean. |
| Allocator.Allocator.AllocReserveMulti | src/resources/allocator.c:236-325 | All or nothing under any interference: every slot taken was on an enabled, Online machine with room for it when it was booked; on failure records and rows are untouched and the registry is the old one with the others' effective operations applied; on success it is that but for the counters, slot cores sum exactly to the request, RAM and disk to at least it and less than n more; without interference it succeeds exactly when the counting function says so, on those machines. |
| Allocator.PlannedSlotsCover | src/resources/allocator.c:256-290 | A plan that works covers the request exactly in cores and within n in RAM and disk. |
| Allocator.PlanIsCounted | src/resources/allocator.c:199-290 | The plan works if and only if the counting function is positive, and then on that many machines. |
| Allocator.Allocator.AllocRelease | src/resources/allocator.c:398-418 | Exactly the job's slots are given back and exactly its rows closed, whatever the others do meanwhile: the registry is the old one with the slots released and the others' effective operations applied. |
| Allocator.Allocator.Shutdown | src/resources/allocator.c:420-428 | With no active record the table can be dropped: every machine's counters are zero. |
| Allocator.ReserveThenRelease | src/resources/registry.c:364-416 | Releasing what was just granted restores the machine table. |
| JobQueue.JobQueue.HeapUp | src/core/queue.c:55-63 | Repairs a heap whose one entry may be too small for its place; same jobs. |
| JobQueue.JobQueue.HeapDown | src/core/queue.c:65-77 | Repairs a heap whose one entry may be too large for its place; same jobs. |
| JobQueue.JobQueue.Push | src/core/queue.c:102-122 | Adds exactly the given job, growing the array when full; refused only after shutdown. |
| JobQueue.JobQueue.TryPop | src/core/queue.c:137-146 | Nothing exactly when empty, otherwise the one job, alone removed, that no queued job comes before: by lower priority number, then earlier submission, then smaller id in the order of strcmp. |
| JobQueue.JobQueue.TryPopMatching | src/core/queue.c:148-173 | The same among the jobs that satisfy the predicate, or nothing exactly when none does. |
| JobQueue.JobQueue.Remove | src/core/queue.c:175-195 | Removes one job with the id, with its up-or-down repair, or nothing exactly when there is none. |
| JobQueue.JobQueue.Drain | src/core/queue.c:137-146 | Popping until empty serves exactly the queued jobs, each not later than the next by priority number, submission time and id. |
| JobQueue.FillHole | src/core/queue.c:148-195 | Filling a hole with the last entry leaves a heap that one sift, up or down, repairs. |
| JobQueue.ListingUnique | src/core/queue.c:48-53 | Jobs with distinct ids have exactly one listing by priority, submission time and id. |
| Jobs.LeqTotal | src/core/queue.c:48-53 | The service order is total and only equal keys tie. |
| Jobs.LeqTransitive | src/core/queue.c:48-53 | The service order is transitive. |
| Jobs.LeqMeans | src/core/queue.c:48-53 | Which of two jobs is served first, on the fields: the lower priority number, then the earlier submission, then the id that is a prefix or smaller at the first difference. |
| Jobs.TransitionMeans | src/core/job.c:43-51 | The transition table, pair by pair; the terminal statuses are exactly those nothing leads out of, the legacy STARTING apart. |
| Runs.ListedMeans | src/persistence/db.c:692-712 | The database listing holds every QUEUED row once and nothing else, neighbours and all others in that same order. |
| Execution.MoveKeepsSane | src/core/executor.c:933-1276 | Every move of an owning thread keeps: process and published id fit its position, a live process of an execution asked to end is covered by a killer or its launcher, row and in-memory status agree, the allocation is held until released. |
| Execution.RequestKeepsSane | src/core/executor.c:166-229 | A cancellation or timeout keeps it. |
| Execution.ShutDownKeepsSane | src/core/executor.c:1310-1340 | So does the shutdown sweep, after which the execution is asked to end and a published process is not alive. |
| Execution.FirstRequestStands | src/core/executor.c:183-195 | A second request changes nothing of the first. |
| Execution.OwnerKeepsRequest | src/core/executor.c:264-283 | Nor does anything the owner does. |
| Execution.RequestedNeverStuck | src/core/executor.c:100-229 | Once asked to end, an execution can always go on: its owner moves, or its process is dying, or someone is about to kill it. |
| Execution.EndStatus | src/core/executor.c:1234-1241 | The row an execution leaves behind is terminal if and only if no request fell between the two writes that start a job; otherwise it is RUNNING. |
| Execution.LostCancellation | src/core/executor.c:1234-1241 | A sequence of moves in which a cancellation is lost that way. |
| Execution.CancelledRowStands | src/core/scheduler.c:848-855 | A row cancelled without asking its execution, read and written in one step, stands if and only if the owner has yet to look at it or the execution is asked to end before it is marked; otherwise the owner overwrites it. |
| Execution.LateCancelStands | src/core/scheduler.c:848-855 | Wherever the owner has come to when the handler writes the row it read earlier, the owner's next move leaves the row CANCELLED if and only if that move writes no status. |
| Execution.AskedWritesNothing | src/core/executor.c:264-283 | An execution asked to end writes no status any more once its start is on record. |
| Execution.CancelledRowStays | src/core/executor.c:264-283 | A cancelled row that has stood so far is left as it is to the end. |
| LostCancellations.CancelledButRunning | src/core/executor.c:1234-1241 | For every job a run from a fresh start in which it is cancelled between the two writes, and which ends with nothing left and the row RUNNING. |
| LostCancellations.CancelledButSucceeded | src/core/scheduler.c:848-855 | For every job a run from a fresh start in which its row is cancelled while it is being spawned, and which ends with the row SUCCEEDED. |
| Execution.CleanEnd | src/core/executor.c:264-283 | An owner about to unregister has no process, no published id and no allocation. |
| Execution.StartRuns | src/core/executor.c:1204-1276 | A start nobody interferes with whose calls succeed leads to a live, published process and RUNNING in memory and row; a row that is not QUEUED ends it before anything has happened. |
| Execution.ExitIsRecorded | src/core/executor.c:961-976 | From a reaped process of an execution nobody has asked to end, the owner's next three moves, under any outcome of their calls, record SUCCEEDED if and only if it exited well, FAILED otherwise. |
| Execution.ExitIsReaped | src/core/executor.c:933-938 | The exit code used there is the one the blocking wait returned for a process that was gone, and the owner acts on the request that is on record when it looks. |
| Execution.OnlyGoodExitsSucceed | src/core/executor.c:961-976 | A row becomes SUCCEEDED by an owner's move only after a good exit of an execution nobody has asked to end. |
| Execution.FailedCallFails | src/core/executor.c:1222-1262 | What each call that fails on the way to a running process leads to: FAILED at once, or after the process that had been started is killed and reaped. |
| Execution.FailedStartFails | src/core/executor.c:1235-1262 | A start that cannot be recorded, handed on or launched ends FAILED when nobody has asked it to end. |
| Execution.AbortFails | src/core/executor.c:1169-1175 | A process that had to be killed is reaped, and its id cleared if it was published, before the start is given up as FAILED. |
| Execution.GivenUp | src/core/executor.c:264-283 | A start given up without a process records the fallback status. |
| Execution.AskedIsNotLaunched | src/core/executor.c:1188-1191 | An execution asked to end before its launcher looks gets no process and keeps its row. |
| Execution.RequestIsRecorded | src/core/executor.c:166-195 | The first request of an execution that is under way sets status and reason, in memory and in the row; the shutdown does the same with CANCELLED. |
| Exits.SucceededMeansExitedWell | src/core/executor.c:933-976 | In every run from a fresh start a row becomes SUCCEEDED only by the step of the thread that owns an execution of the job, which nobody has asked to end and whose process that thread has waited for and seen exit well. |
| Exits.ExitsAreReal | src/core/executor.c:933-938 | In every reachable state the exit code an owner carries is the one an earlier step of the run waited for. |
| Exits.RequestMeans | src/core/executor.c:1278-1288 | A cancellation of a job that is under way makes it CANCELLED and a timeout makes it FAILED, in memory and row, and hands a published process to the requester to kill. |
| Exits.StaleMeans | src/core/scheduler.c:302-305 | A RUNNING row without an execution is FAILED by the timeout pass and its allocation record goes; any other row is left alone. |
| Exits.DispatchMeans | src/core/scheduler.c:325-336 | A reserved job goes to the executor only while its row says QUEUED; otherwise its record is given back and nothing else changes. |
| Exits.RefusedMeans | src/core/executor.c:1207-1213 | After shutdown has begun a dispatched job becomes FAILED and its record is given back, without an execution. |
| Exits.ProcessMeans | src/core/executor.c:218-226 | Each requester with a copied id kills the process once if it still lives; a live or killed process may end at any time. |
| Exits.ThreadMeans | src/core/executor.c:1247-1274 | A recorded start goes on in a new launcher thread and a running process in a new watcher thread; every other move stays with its thread. |
| Exits.ShutdownMeans | src/core/executor.c:1310-1334 | Shutdown makes every listed job that has not ended CANCELLED in memory and in its row, and kills its published process. |
| ExecutorRuns.AlwaysInv | src/core/executor.c:56-1340 | The invariant holds after every sequence of steps, whatever the interleaving. |
| ExecutorRuns.KillCoverage | src/core/executor.c:100-229 | In every reachable state, the process of an execution asked to end was never started, is reaped, dead or dying, or some thread is about to kill it; the process of a freed execution is gone. |
| ExecutorRuns.ExactlyOneOwner | src/core/executor.c:979-1276 | In every reachable state each live execution has exactly one owning thread, threads own nothing else, and the allocation is active until the owner's last step. |
| ExecutorRuns.CleanedUpOnce | src/core/executor.c:73-82 | An execution leaves the list only by its owner's last step, with process gone and allocation released, and never comes back. |
| ExecutorRuns.FirstRequestWins | src/core/executor.c:166-229 | After any further run the first requester's status and reason still stand. |
| ExecutorRuns.ShutdownIsFinal | src/core/scheduler.c:813-836 | When executor_shutdown has returned in scheduler_stop no execution, thread, process or allocation record is left, and no later step changes that. |
| ExecutorRuns.NeverFurther | src/core/executor.c:1310-1340 | During shutdown no step moves the remaining executions away from being freed. |
| ExecutorRuns.ShutdownAdvances | src/core/executor.c:1310-1340 | During shutdown, while an execution is left, some step of its owner (whatever the outcome of its call), its process or a killer brings the end strictly closer. |
| Holdings.StepHolds | src/core/executor.c:56-1340 | Every step of the protocol takes and gives back exactly these allocation records: the dispatched job's, the released execution's, a dropped job's, a stale row's. |
| Holdings.Reserve | src/core/scheduler.c:704-724 | A reservation by the allocator for the job the scan has popped is the protocol's step if it succeeds, and the records the protocol counts on stay the allocator's. |
| Holdings.ReserveOn | src/core/scheduler.c:394-399 | The same on the machine another job has run on. |
| Holdings.Release | src/core/executor.c:264-283 | alloc_release for the job whose record a step gives back is that step, whatever other threads do to the registry meanwhile. |
| Holdings.OtherStepsJoin | src/core/executor.c:56-1340 | Every other step leaves the records alone, so protocol and allocator agree after any run in which those calls are made. |
| Holdings.RecordsAreOwned | src/core/executor.c:56-82 | In every reachable state each active record of the allocator is that of the job being dispatched or of a live execution. |
| Holdings.OwnersHaveSlots | src/core/executor.c:264-283 | Until it has released them, an owner's job has slots booked on machines. |
| Holdings.ShutDownAfter | src/core/scheduler.c:813-836 | After executor_shutdown has returned, the allocator can drop its table and no machine has anything reserved. |
| ActiveList.Executions.IsActive | src/core/executor.c:1296-1308 | True exactly when some listed execution runs the job. |
| ActiveList.Executions.RequestTermination | src/core/executor.c:166-229 | The list walk is the request step of the transition system. |
| ActiveList.Executions.Unregister | src/core/executor.c:73-82 | The cursor walk is its unregister step. |
| ActiveList.Executions.Shutdown | src/core/executor.c:1310-1336 | The sweep is its shutdown step. |
| Lifecycle.MoveIsGood | src/core/job.c:43-147 | Every step keeps one job in order, moves its status legally, keeps its identity, and starts it only from the scan after the quota check. |
| Lifecycle.HeldIsGood | src/core/scheduler.c:104-275 | The same for one job of the held-job pass. |
| Lifecycle.CancelIsGood | src/core/scheduler.c:838-858 | The same for a cancellation, wherever the job is. |
| Lifecycle.ScanIsGood | src/core/scheduler.c:362-742 | The same for one iteration of the scan, with every way it can end. |
| Outcomes.TimeoutMeans | src/core/scheduler.c:281-306 | An overdue RUNNING job becomes FAILED; without an execution its record and open rows go as well; nothing else changes. |
| Outcomes.FinishMeans | src/core/executor.c:961-976 | The end of a RUNNING job's process makes it SUCCEEDED if and only if the process ended well and FAILED otherwise; a job ended before keeps its status. |
| Outcomes.FreeMeans | src/core/executor.c:979-990 | After the end is recorded the allocation record and the open rows go, and nothing else. |
| Outcomes.LeaveMeans | src/core/executor.c:73-82 | After that the execution goes. |
| Outcomes.CancelMeans | src/core/scheduler.c:838-858 | A cancellation makes a CREATED, QUEUED or RUNNING job CANCELLED, and leaves one that has ended alone. |
| Outcomes.RetryMeans | src/http/routes.c:2282-2327 | A FAILED or CANCELLED job that nothing executes is QUEUED afresh, without machine and start time; any other is left alone. |
| Outcomes.PurgeMeans | src/persistence/db.c:1182-1196 | A purge removes exactly the rows of jobs that have ended. |
| Outcomes.ReleaseMeans | src/http/routes.c:1584-1596 | A CREATED job that is released is QUEUED; any other is left alone. |
| Outcomes.CheckHeldMeans | src/core/scheduler.c:104-275 | A CREATED job is QUEUED without dependencies when all of them have SUCCEEDED and its files are there, keeps waiting for files without dependencies, and is FAILED only when a dependency is gone, FAILED or CANCELLED. |
| Outcomes.ScanMeans | src/core/scheduler.c:362-742 | The popped job is RUNNING on the machine it was given, with execution, record and open row, exactly when the quota admits it and it could be placed and launched; FAILED when its launch fails; in the queue as before otherwise. |
| Outcomes.SubmitMeans | src/http/routes.c:1552-1574 | A submission with a new id adds exactly that row; one with a used id changes nothing. |
| Agreement.IdleRowsAgree | src/http/routes.c:2282-2327 | Executor protocol and lifecycle say the same of a job nothing executes: a cancellation, retry, purge or release leads to the same row. |
| Agreement.HeldRowsAgree | src/core/scheduler.c:104-275 | So does the held-job pass, whichever way it goes. |
| Agreement.SubmissionsAgree | src/http/routes.c:1552-1574 | So does a submission. |
| Agreement.RequestsAgree | src/core/executor.c:166-195 | A cancellation and a timeout of a RUNNING job lead to the same row in both. |
| Runs.QueueAgrees | src/core/scheduler.c:362-742 | From any persisted database and after every run, crashes included, the queue holds exactly the QUEUED rows, each once and as the row, and executions, records and open allocation rows agree. |
| Runs.LifecycleSafety | src/core/job.c:43-51 | In any step every row moves along the transition table, status by status, from CREATED to FAILED, or by a retry; only a purge removes a row, and only a terminal one. |
| Runs.RetryFindsNothing | src/http/routes.c:2282-2327 | A retry that takes effect finds no execution, no allocation record and no open allocation row of the job. |
| Runs.SucceededForever | src/core/job.c:43-51 | SUCCEEDED is left only by a purge, over any run with crashes, and a purged id never returns. |
| Runs.StartedOnce | src/core/scheduler.c:325-336 | A job is started only from its QUEUED row when nothing of an earlier start is left. |
| Runs.CrashRecovery | src/persistence/db.c:504-523 | Whatever a crash left, restart yields no running row, no reservation, no open row and a queue equal to the QUEUED rows; other rows are unchanged; recovering again changes nothing. |
| Runs.ReloadSameQueue | src/core/scheduler.c:754-786 | A crash does not change what is queued. |
| Runs.DrainsAsListed | src/persistence/db.c:692-712 | Draining the queue, before or after a restart, serves the jobs in the order the database lists them; ListedMeans says which order that is. |
| Runs.QuotaSafety | src/persistence/db.c:1508-1586 | With fixed quotas, at every point of every run the running jobs of each exact user and application keep within the limits of the most specific matching quota. |
| Runs.DepsDecide | src/persistence/db.c:1098-1132 | The dependency check succeeds exactly when all dependencies succeeded, fails only for a lost one, and waits for none once all have ended. |
| Runs.HeldOutcome | src/core/scheduler.c:112-131 | A held job without files is released exactly when all its dependencies succeeded, and marked FAILED only when one failed, was cancelled or is gone. |
| Runs.PassDecides | src/core/scheduler.c:104-275 | A pass, in any order, decides every held job whose dependencies have ended. |
| Quotas.QuotaCheck | src/persistence/db.c:1523-1586 | The summing loop and the four comparisons decide admission: with no quota every job is admitted, otherwise exactly when running jobs, cores and RAM with this job stay within each limit that is set. |
| Quotas.MostSpecific | src/persistence/db.c:1508-1521 | The quota found is one that applies to the user and application, and of those the one that names most; none is found exactly when none applies. |
| Quotas.UsedCounts | src/persistence/db.c:1523-1540 | The number of jobs counted is that of the running or starting rows of the user and application. |
| Quotas.UsedAdds | src/persistence/db.c:1523-1540 | One more row adds its cores, its RAM and one to the sums exactly when it is running or starting for that user and application. |
| Quotas.UsedOfNone | src/persistence/db.c:1523-1540 | Without rows the sums are zero, so that with UsedAdds they are determined for every table. |
| Quotas.StartRespects | src/persistence/db.c:1523-1586 | Starting an admitted job keeps every pair within its limits. |
| Quotas.UserLimitIsPerApplication | src/persistence/db.c:1508-1540 | With a limit of one job for a user, a second running job is admitted under another application. |
| Quotas.ApplicationLimitIsPerUser | src/persistence/db.c:1508-1540 | With a limit of one job for an application, a second one is admitted for another user. |
| Quotas.DefaultLimitIsPerPair | src/persistence/db.c:1508-1540 | With a global limit of one job, a second one is admitted for another user or application. |
| Quotas.LimitOverrun | src/persistence/db.c:1523-1540 | For every table and pair whose quota was found at a wider level and limits anything: rows in which every pair is within its own limit, and a job of the pair that is admitted while the jobs the quota is set for are beyond it. |
| Quotas.LimitIsSharedExactly | src/persistence/db.c:1508-1586 | In any table the quota found for a user and an application bounds all running jobs it is set for, for every admitted job, if and only if it is set for exactly that pair or sets no limit; over all rows, and over those in which no pair is beyond its own limit. |
| Workflows.ReadDependencies | src/http/routes.c:1934-1953 | A dependency list is accepted exactly when every index is a whole number of an earlier step and the list fits its 2048 bytes; it names those steps' jobs. |
| Workflows.AcceptedMeans | src/http/routes.c:1934-1953 | A step is accepted exactly when its indices are whole numbers of earlier steps and their ids, joined by commas, take less than 2048 characters. |
| Workflows.StepJobMeans | src/http/routes.c:2042-2053 | The job of a step is CREATED if and only if it depends on a step or needs a file, QUEUED otherwise; it depends on exactly the named steps' jobs in order; every other field is the given one. |
| Workflows.StepWaits | src/core/scheduler.c:104-275 | In every run after the submission a held step without files is QUEUED, RUNNING or SUCCEEDED only when all it depends on is SUCCEEDED, unless it is released or retried by hand or a dependency is purged. |
| Scheduling.Scheduler.SubmitWorkflow | src/http/routes.c:1826-2150 | All steps or none, in table and queue: accepted exactly when every step is and the transaction commits; then it is a run of submissions, a step is CREATED if and only if it depends on a step or needs a file and QUEUED otherwise, it depends on the jobs of the steps it names, in order, and every other field is the given one; otherwise nothing has changed. |
| Workflows.WorkflowCompletes | src/core/scheduler.c:104-275 | After n held-job passes, with released jobs finishing in between, no step of an n-step workflow is CREATED. |
| Workflows.SubmittedWaits | src/http/routes.c:1934-1953 | The jobs of an accepted submission without files wait for earlier steps only, which is what WorkflowCompletes starts from. |
| Scheduling.CheckDeps | src/persistence/db.c:1098-1132 | The loop over the dependencies is the dependency check, satisfied exactly when all have succeeded. |
| Scheduling.LoadQueue | src/core/scheduler.c:764-782 | Pushing the queued rows in any order gives the queue of the table. |
| Scheduling.Scheduler.constructor | src/core/scheduler.c:754-786 | Startup is the restart step. |
| Scheduling.Scheduler.CancelJob | src/core/scheduler.c:838-858 | Cancellation on the real heap is the cancel step. |
| Scheduling.Scheduler.RetryJob | src/http/routes.c:2282-2327 | Retry on the real heap is the retry step. |
| Scheduling.Scheduler.CheckHeldJobs | src/core/scheduler.c:104-275 | The pass checks every job that was CREATED, each on the live table, and is a run of held-job steps. |
| Scheduling.Scheduler.ScanOne | src/core/scheduler.c:640-742 | One iteration pops the least job and is the scan step. |
| Scheduling.Scheduler.ScanTick | src/core/scheduler.c:358-742 | A tick is a run of at most as many scan steps as there were jobs at its beginning. |
| DecisionCore.DesiredIsFidelity | src/decision_core_default.c:279-366 | The fidelity the selection starts from is the one first computed, between 1 and the highest. |
| DecisionCore.FidelityMeans | src/decision_core_default.c:279-298 | Priority is error per size, raised by the uncertainty, with the defaults for missing values; which of the thresholds it exceeds gives the fidelity. |
| DecisionCore.FidelityGrows | src/decision_core_default.c:279-298 | A larger error or uncertainty or a smaller size never lowers priority or fidelity. |
| DecisionCore.PickMeans | src/decision_core_default.c:325-340 | What a zone asks for per core times those cores is its priority, over the cores of its first fidelity. |
| DecisionCore.Estimate | src/decision_core_default.c:273-298 | The unbudgeted loop: 32-bit sum equal to the true sum, refined zones counted. |
| DecisionCore.BestFit | src/decision_core_default.c:367-375 | The highest affordable fidelity, or none when none is affordable, without wrap-around. |
| DecisionCore.Select | src/decision_core_default.c:340-376 | The greedy selection never exceeds the cap, its total is the sum of the selected cores, and each zone got the best that fitted in its turn. |
| DecisionCore.SelectionIsMaximal | src/decision_core_default.c:340-376 | No single zone could be raised to any higher fidelity up to the desired one within the cap. |
| DecisionCore.SelectionIsFair | src/decision_core_default.c:337-376 | What a zone was denied had been taken by zones that ask for at least as much per core. |
| DecisionCore.NothingSelected | src/decision_core_default.c:340-376 | Nothing is selected exactly when no zone fits alone at any fidelity. |
| DecisionCore.Decide | src/decision_core_default.c:309-424 | Target cores and selection for every input, within the available CPUs; DEFER exactly when nothing is selected, over a positive budget exactly when no zone fits alone at any fidelity; RUN_COARSE exactly when all fidelities are at most 1, RUN_FINE exactly when all are above 1, REFINE exactly when both occur. |
| DecisionCore.VerdictMeans | src/decision_core_default.c:413-424 | The action read off the selected fidelities and their cores. |
| DecisionCore.DeferredMeans | src/decision_core_default.c:413-415 | DEFER is returned exactly when no zone fits alone. |
| FidelityMap.ParseFidelityMap | src/decision_core_default.c:62-84 | The parsing loop accepts exactly the grammar, and what it accepts is two to eight numbers up to 10000, none but the first zero. |
| FidelityMap.WrittenReads | src/decision_core_default.c:62-84 | Every valid map, written with or without a final comma, is read back. |
| FidelityMap.MapReads | src/decision_core_default.c:62-84 | Every list of two to eight numbers up to 10000, none but the first zero, is read back from its text. |
| Decimal.StrtolMeans | src/decision_core_default.c:62-84 | strtol: white space, a sign or none and a run of digits are read as that number, with the rest left over. |
| Decimal.StrtolOnly | src/decision_core_default.c:62-84 | Whatever it reads has that form. |
| Sha256.Context.Feed | src/http/auth.c:70-75 | One more byte: buffer, length counter modulo 2^64 and folded state stay what the bytes fed so far determine. |
| Sha256.Context.Update | src/http/auth.c:70-75 | An update adds exactly its bytes to what was fed. |
| Sha256.Context.Final | src/http/auth.c:77-96 | The digest is the fold of the compression function over the message padded as in section 5.1.1 of FIPS 180-4. |
| Sha256.HashPieces | src/http/auth.c:62-96 | However a message is cut into updates, the result is its standard digest. |
| Sha256.PaddedFills | src/http/auth.c:77-84 | Padding fills the last block exactly with less than a block of zeros. |
| Sha256.PaddedMeans | src/http/auth.c:77-84 | The padded message byte by byte: message, 0x80, zeros, and the length in bits as one number of eight bytes. |
| Sha256.DigestMeans | src/http/auth.c:85-96 | Each word of the state is four bytes of the digest, read as one number. |
| Passwords.HmacSha256 | src/http/auth.c:227-256 | HMAC as in section 2 of RFC 2104, also when output and text share an array. |
| Passwords.HmacMeans | src/http/auth.c:227-256 | Bit by bit: outer and inner block are the key, hashed when longer than a block and filled with zeros, against 0x5c and 0x36. |
| Passwords.Pbkdf2 | src/http/auth.c:258-278 | The one-block function of section 5.2 of RFC 8018, with each block overwriting its input. |
| Passwords.KeyBit | src/http/auth.c:258-278 | A bit of the derived key is set exactly when an odd number of the iterated blocks have it set. |
| Passwords.XorBit | src/http/auth.c:272-275 | The exclusive or, bit by bit. |
| Passwords.BytesToHex | src/http/auth.c:197-205 | The loop writes two digits per byte. |
| Passwords.HexMeans | src/http/auth.c:197-205 | The two digits of each byte, high half first, in lower case. |
| Passwords.HexToBytes | src/http/auth.c:215-225 | Accepts exactly even runs of hexadecimal digits and yields their bytes. |
| Passwords.HexReads | src/http/auth.c:197-225 | Bytes written in hexadecimal are read back. |
| Passwords.Compare | src/http/auth.c:297-303 | The accumulating comparison is equality. |
| Passwords.WrittenSplits | src/http/auth.c:280-325 | Every record that is written splits into the parts it was made of. |
| Passwords.SplitMeans | src/http/auth.c:305-325 | Whatever is accepted is the prefix, an iteration count as strtol reads it between 10000 and 10000000, a dollar, 32 hexadecimal digits, a dollar and 64, and is read as those numbers and bytes. |
| Passwords.SplitReads | src/http/auth.c:305-325 | Whatever is written like that is accepted. |
| Passwords.VerifyPassword | src/http/auth.c:305-326 | A record is accepted exactly when it is well formed and its key is the one derived. |
| Passwords.HashThenVerify | src/http/auth.c:280-326 | For every password and salt the record made verifies; another password verifies exactly when it derives the same key. |
| Template.ReplacementLowersBraces | src/http/routes.c:1003-1020 | Every replacement lowers the number of opening braces, for any key, allowed value and text. |
| Template.Resolve | src/http/routes.c:973-1022 | The loops end, refuse exactly the values with one of the fifteen forbidden characters, and compute key-by-key replacement in the 512-byte buffer. |
| Template.KeysAreSimultaneous | src/http/routes.c:1002-1020 | For brace-free text and placeholders whose results fit, key-by-key replacement is simultaneous substitution. |
| Template.OrderDoesNotMatter | src/http/routes.c:979-1022 | Two orders of the same parameters give the same command, as long as every text in between fits the buffer. |
| Overflow.FitsExactly | src/http/routes.c:979-1020 | For any template and parameters, as long as no ending of the template is to vanish: key-by-key replacement in the buffer is simultaneous substitution if and only if the text fits before and after every key. |
| Overflow.NonEmptyFitsExactly | src/http/routes.c:979-1020 | The same for all non-empty values. |
| Overflow.ReplaceAllTears | src/http/routes.c:1008-1020 | Replacing a key whose values do not all fit leaves some filled tokens and a part of the next one, and nothing else. |
| Overflow.OrderMatters | src/http/routes.c:979-1020 | If one order of the parameters always fits, another order gives the same command if and only if it always fits. |
| Overflow.OrderMattersExactly | src/http/routes.c:1002-1020 | For two placeholders with a text between them, where template and result fit, the order that replaces the second one first gives the right command if and only if its intermediate text fits as well. |
| Overflow.VanishesExactly | src/http/routes.c:1002-1020 | Where the last placeholder is to vanish, the command is right exactly when the text always fits or the cut falls just before that placeholder. |

## Left out

- Granularity of the lifecycle: one request, scan iteration, job of a pass or watcher stage is atomic in `Runs`. The finer interleavings at src/core/executor.c:1234-1241, src/core/scheduler.c:281-306 and src/core/scheduler.c:848-855 are not covered there; the first is covered by `Execution` and `Executor`.
- Executor.Step: threads are steps over one value, not methods over shared memory; only the walks over the list are methods (`ActiveList.Executions`). In the same way Runs.Step is a value model, of which `Scheduling.Scheduler` carries out startup, scan, held-job pass, cancellation, retry and workflow submission; timeouts and watcher stages are steps only.
- ExecutorRuns.AlwaysInv: the timeout pass's write to the row of a job without execution is taken when the row is still RUNNING; a job that ends between the pass's query and that write is not modelled.
- ExecutorRuns.KillCoverage: a process id is assumed not to be reused between a requester's copy and its signal; SIGTERM and SIGKILL are one step.
- Executor.RegisterStep: the linked list is a sequence of numbered executions, numbers standing for pointers; running out of memory for a new execution is the same as shutdown there.
- Allocator.Allocator.AllocReserve: the record's rows are closed after the allocator's lock is given up, as a step of their own, and the job is not reserved again before that (`closing`); running out of memory is not modelled; job and machine names are unbounded strings where the C buffers hold them whole.
- Runs.QuotaSafety: the sums of cores and RAM are mathematical integers; truncation of the query's 64-bit sums to int is not modelled.
- Runs.HeldOutcome: the comma-separated dependency and file lists are sequences of names; splitting them at commas and spaces is not modelled, nor is copying parents' outputs.
- Scheduling.Scheduler.SubmitWorkflow: only dependencies on steps; dependencies on existing jobs, command resolution and a queue that has been shut down are not modelled; a step that cannot be stored and a transaction that does not commit are (`stored`, `commits`).
- DecisionCore.Decide: errors, sizes and uncertainties are given as reals; reading them from JSON, the hash that makes up missing errors, rounding of doubles, and the JSON it writes are left out.
- Decimal.Strtol: overflow is not modelled; every caller refuses values far smaller.
- Passwords.VerifyPassword: only records with the pbkdf2-sha256 prefix; the unsalted and singly salted legacy forms and the drawing of random salts are left out.
- Sha256.Hash: the compression function is a parameter.
- Template.Resolve: filling in defaults, declared parameters and command-line flags are left out.
- experimental_features_enabled is 0: no decision-core call from the scheduler, no cloud provisioning.
- Registry.Registry.Load: reading and parsing the JSON file, and the pools that expand to ranges of machines, are left out; numbers that are not whole count as out of range.
- ActiveList.Executions: stores the state of the transition system, so that its walks are proved to be its steps; it does not model the links of the C list.
- Execution.CancelledRowStands: in `Executor` too the handler's read and write at src/core/scheduler.c:848-855 are one step; only the owner's next move after a late write is stated (`Execution.LateCancelStands`).
- Overflow.FitsExactly: one way only where an ending of the template is to vanish (`Template.KeysAreSimultaneous`); whether a cut does harm there depends on which placeholders it has left, as `Overflow.VanishesExactly` shows for two.
- The comment at src/core/scheduler.c:360-361, that one blocked head cannot starve the jobs behind it, is not stated: a blocked job is pushed back into the heap it is popped from, so the next iteration of the same scan pops it again.
- SQLite and memory calls succeed unless a result says otherwise.
- HTTP, JSON, SSH, process creation and signals as such, probing, the event buffer, batches, reports, logging, platform services and the Windows variants.

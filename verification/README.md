# NeXosim: a Dafny model of its runtime

NeXosim is a discrete-event simulator with its own asynchronous runtime. This project models the
parts of the runtime whose correctness the sources argue in comments, and proves what they promise.

Concurrent components are state machines: a state, the steps of the threads (one atomic access
each), an invariant kept by every step, and theorems over every run of any number of threads.
Sequential components are classes whose methods are proved against specification functions, with
the laws proved about these functions. Interleavings are sequentially consistent.

| files | component |
|---|---|
| `TaskMachine`, `TaskSafety`, `TaskOutcomes`, `TaskWord`, `TaskWordRuns` | the task state word shared by wakers, promise, cancellation token and runnable |
| `Injector`, `PoolMachine`, `PoolSafety`, `PoolCounts`, `PoolQuiescence`, `PoolProgress`, `PoolReturns`, `PoolOutcomes` | the work-stealing pool |
| `TaskSet`, `TaskSetRuns`, `TaskSetCalls`, `TaskSetWord` | the set of sub-tasks of a composite future |
| `Broadcast`, `BroadcastMachine`, `BroadcastRuns`, `BroadcastPolls`, `BroadcastPasses`, `BroadcastServes`, `LateNotification` | the join of a broadcast, alone and together with its task set |
| `MpscQueue`, `MpscRuns`, `MpscCalls`, `MpscWord`, `MpscWordQueue`, `MpscWordRuns` | the bounded queue of a channel |
| `IndexedHeap`, `IndexedQueue`, `KeyRegistry` | the associative priority queue and the key registry |
| `Agenda`, `Stepping`, `SteppingRuns`, `StepEffects`, `Periodic`, `PeriodicOrder`, `Draining`, `EventLoop`, `SeqFuture` | the scheduler queue and the event loop |
| `SyncCell` | the synchronized cell that holds the simulation time |
| `Words`, `AdderTree`, `FindBit`, `Stealers` | the search for the n-th set bit and the order in which siblings are robbed |
| `Options` | a value that may be missing |

How the state machines are built. `Enabled` and `Apply` give the steps; `IsRun` and `After` give
runs. A violated assertion, an arm declared unreachable, an access to freed memory or an underflow
sets a `fault` flag; the theorems show that it stays clear, or exactly when it is set. Fields marked
auxiliary record history (who claimed what, what was pushed), or stand for the local variables of the
thread that is at work on a task or a slot.

Beside what every run keeps, each machine has theorems that its operations do their work: from any state of
a run, an operation that goes on alone reaches the end that the state calls for, and what was requested
(a wake, a task, a message, an event) is served, once, before the component rests.

What the code does not promise, although its documentation or a reader may expect it:

- `find_bit` with a rank above the number of set bits returns the last position, as documented,
  only up to a limit: the comparison is signed (`FindBit.Find` states the exact outcome).
- `Queue::pop` while the slot at the dequeue position is still borrowed reaches the arm declared
  unreachable (`MpscRuns.PopOfHeldSlotFails`), and does so exactly then (`MpscRuns.StepKeepsInv`).
- `Queue::push` reports a full queue although a slot is open, when borrowed messages are not given
  back in order (`MpscRuns.FullDespiteOpenSlot`); it is exact if and only if they are
  (`MpscRuns.FullIsExact`). The receiver of a channel holds one message at a time, so it is not concerned.
- The queue of a channel on machine words follows the queue on unbounded positions, step by step, if and
  only if no producer is overtaken by so many laps that the words it loaded mislead it
  (`MpscWordRuns.StepRefines`). A producer that misses less than half of the laps a word can hold is not
  misled (`MpscWordRuns.SleeperIsFresh`); one that misses them all may be (`MpscWordRuns.SleeperIsMisled`).
- A periodic action with a null period can be scheduled through `schedule_from`. No number of pulls then
  gets past its time (`Draining.NullPeriodRequestNeverEnds`), and a step ends if and only if no due action
  has a null period (`Draining.EndsExactlyWithoutNullPeriod`).
- Running to a time and then to the same time again is not the same as running once, if the last
  step halted the simulation (`SteppingRuns.HaltAtTarget`), and is the same in all other cases
  (`SteppingRuns.StepUntilComposes`).
- A read of the synchronized cell may be torn if it spans half as many writes as the sequence count has
  values, however wide the count is (`SyncCell.LappedReadMayBeTorn`). A read that passes the check saw no
  write begin if and only if it did not (`SyncCell.PassesExactly`).
- A broadcast future may return `Pending` with no waker registered (`LateNotification.PendingWithoutWaker`).
  A parent that registers its waker can come to that if and only if it registers while an earlier
  notification is still to be sent and no task is scheduled (`LateNotification.LosesWakerExactly`). The
  parent was then woken, so nothing is lost (`BroadcastRuns.PendingIsRegisteredAndArmed`).

Conventions: simulation time is an integer number of nanoseconds and keys are integers. Positions of
the channel queue are pairs of a lap and an index; `MpscWordRuns` relates them to words. Bit widths
are parameters where the proofs do not depend on them (32 index bits in the head of the task set).

## Model

| member | source | states |
|---|---|---|
| `TaskSafety.SpawnedIsSafe` | nexosim/src/executor/task.rs:320-423 | a spawned task, with or without promise, satisfies the invariant |
| `TaskSafety.StepKeepsInv` | nexosim/src/executor/task.rs:129-280 | every atomic step of any waker, the promise, the token or the runnable keeps the invariant |
| `TaskSafety.RunKeepsInv` | nexosim/src/executor/task.rs:129-280 | so does every run, of any length and with any number of wakers |
| `TaskSafety.PhaseTable` | nexosim/src/executor/task.rs:77-99 | in every run at most one runnable is live, and outside teardown one exists exactly when the state word says so |
| `TaskSafety.ExactlyOnce` | nexosim/src/executor/task/runnable.rs:93-208 | in every run the future is dropped at most once, an output is moved out or dropped but never both, and the memory is freed at most once; by then the future was dropped and no output is left in it |
| `TaskSafety.AllocatedIsNeverStuck` | nexosim/src/executor/task.rs:246-280 | an allocated task always has a handle, a runnable or a teardown that can take a step |
| `TaskSafety.NothingLeaks` | nexosim/src/executor/task/cancel_token.rs:46-122 | the reference count is the number of handles; when nothing can step any more, the future was dropped once and the memory freed once |
| `TaskSafety.UnservicedPersists` | nexosim/src/executor/task/runnable.rs:190-209 | a wake that no poll followed stays so until a poll starts |
| `TaskSafety.NoLostWakeUp` | nexosim/src/executor/task/runnable.rs:66-67 | after a wake in the Polling phase a poll starts, or the task ends, or a runnable is live that must poll before it retires |
| `TaskSafety.WillPollPolls` | nexosim/src/executor/task/runnable.rs:66-209 | such a runnable alone gets to the start of a poll |
| `TaskOutcomes.CancelledIsNotPolled` | nexosim/src/executor/task/runnable.rs:66-76 | in every run, after the cancellation of a task no poll starts, except one that the runnable was committed to by its last read of the word |
| `TaskOutcomes.ClosedRunnableRetires` | nexosim/src/executor/task/runnable.rs:66-264 | from wherever it is, the runnable of a closed task alone drops the future, or the output, and retires |
| `TaskOutcomes.DroppedRunnableRetires` | nexosim/src/executor/task/runnable.rs:214-318 | a runnable that is dropped, or whose poll panics, drops the future and closes the task |
| `TaskOutcomes.CompletesAlone` | nexosim/src/executor/task/runnable.rs:93-150 | a poll that returns `Ready` leaves the output in the task, if it is open and has a reference left |
| `TaskOutcomes.PromiseReceives` | nexosim/src/executor/task/promise.rs:23-60 | a poll of the promise moves the output out exactly if there is one, and otherwise changes nothing |
| `TaskOutcomes.IdleCancelDropsFuture` | nexosim/src/executor/task/cancel_token.rs:46-122 | the cancellation of an idle task drops the future and closes the task, and the last reference starts its teardown |
| `TaskOutcomes.CloneThenDrop` | nexosim/src/executor/task.rs:129-138 | a waker that is cloned and dropped leaves no trace |
| `TaskOutcomes.WakeByValIsWakeAndDrop` | nexosim/src/executor/task.rs:141-193 | in every state the combined addition does what a wake followed by a drop does |
| `TaskOutcomes.ContextWakes` | nexosim/src/executor/task/runnable.rs:78-84 | a wake through the context of a poll is a wake through a clone of its waker |
| `TaskOutcomes.WakesAreConserved` | nexosim/src/executor/task/runnable.rs:190-209 | over every run, the wakes issued are the wakes subtracted and the wakes still counted |
| `TaskOutcomes.SpawnedIsPolled` | nexosim/src/executor/task.rs:320-423 | the runnable of a spawned task polls it |
| `TaskOutcomes.OutputReachesPromise` | nexosim/src/executor/task/promise.rs:23-60 | the output of a spawned task that completes reaches its promise |
| `TaskOutcomes.CanAlwaysBeFreed` | nexosim/src/executor/task.rs:246-280 | in every run, from every state, some continuation drops the future once and frees the task |
| `TaskOutcomes.FaultsExactly` | nexosim/src/executor/task.rs:129-280 | the fault flag is set by exactly the accesses, drops and counts that must not happen |
| `TaskWord.PackRoundTrip` | nexosim/src/executor/task.rs:26-43 | the four fields are read back from the word they are packed in |
| `TaskWord.UnpackRoundTrip` | nexosim/src/executor/task.rs:26-43 | every word is the packing of its four fields |
| `TaskWord.Decisions` | nexosim/src/executor/task/util.rs:21-23 | each mask test of the source on the word is the test of the fields it stands for |
| `TaskWord.Constants` | nexosim/src/executor/task.rs:25-43 | the masks and critical values are those that the source derives from the increments |
| `TaskWordRuns.StepRefines` | nexosim/src/executor/task.rs:129-280 | the masks and wrapping additions of every atomic access do to the word what the machine does to its four fields |
| `TaskWordRuns.RunRefines` | nexosim/src/executor/task.rs:129-280 | over every run in which the counters stay below their maximum the word packs the fields of the machine |
| `TaskWordRuns.WordRunExists` | nexosim/src/executor/task.rs:129-280 | every such run of the machine is a run of the word |
| `TaskWord.StateWord.CloneWaker` | nexosim/src/executor/task.rs:129-138 | one more reference; the critical count is detected |
| `TaskWord.StateWord.WakeByRef` | nexosim/src/executor/task.rs:196-243 | one more wake; a runnable is created exactly for an idle task that is not closed |
| `TaskWord.StateWord.WakeByVal` | nexosim/src/executor/task.rs:141-193 | the combined addition is one more wake and one reference less |
| `TaskWord.StateWord.ReleaseRef` | nexosim/src/executor/task.rs:246-280 | one reference less; who must drop what is decided from the former word |
| `TaskWord.StateWord.PollPromise` | nexosim/src/executor/task/promise.rs:23-60 | the output is claimed exactly in the Completed phase |
| `TaskWord.StateWord.CancelToken` | nexosim/src/executor/task/cancel_token.rs:46-122 | the three outcomes of the update |
| `TaskWord.StateWord.SubtractWakes` | nexosim/src/executor/task/runnable.rs:190-209 | the wakes seen before the poll are subtracted, later ones are kept |
| `TaskWord.StateWord.Publish` | nexosim/src/executor/task/runnable.rs:133-150 | the Completed phase is entered exactly if the task is neither closed nor unreferenced |
| `TaskWord.StateWord.Close` | nexosim/src/executor/task/runnable.rs:214-264 | the Closed phase, and whether the runnable frees the task |
| `Injector.ContentsInserted` | nexosim/src/executor/mt_executor/injector.rs:56-84 | an insertion adds the task and nothing else, whichever bucket takes it |
| `Injector.InsertedInOrder` | nexosim/src/executor/mt_executor/injector.rs:56-84 | tasks inserted in an empty queue fill buckets one after the other, in order; the one being filled is at the front |
| `Injector.InjectorQueue.InsertTask` | nexosim/src/executor/mt_executor/injector.rs:56-84 | buckets stay non-empty and within capacity, the flag is exact, the task is the only change |
| `Injector.InjectorQueue.PushBucket` | nexosim/src/executor/mt_executor/injector.rs:87-100 | the tasks of the bucket are the only change |
| `Injector.InjectorQueue.PopBucket` | nexosim/src/executor/mt_executor/injector.rs:120-138 | a bucket is found exactly when there is one; it is not empty and is the only loss |
| `PoolCounts.StealKeepsCounts` | nexosim/src/executor/mt_executor.rs:583-601 | a steal moves runnables from one worker to another and is no other change |
| `PoolCounts.QueueBalance` | nexosim/src/executor/mt_executor.rs:463-474 | what a worker queues leaves it and is added elsewhere, for each runnable |
| `PoolQuiescence.StepKeepsInv` | nexosim/src/executor/mt_executor.rs:438-619 | every step of any worker or of the main thread keeps the invariant of the pool |
| `PoolQuiescence.RunKeepsInv` | nexosim/src/executor/mt_executor.rs:438-619 | so does every run, for any number of workers |
| `PoolQuiescence.ExactlyOnePlace` | nexosim/src/executor/mt_executor.rs:438-484 | in every run each runnable is in exactly one place from scheduling to the end of its execution |
| `PoolQuiescence.InactiveHoldsNothing` | nexosim/src/executor/mt_executor/pool_manager.rs:130-160 | an inactive worker is parked or about to park, and holds no runnable |
| `PoolQuiescence.SearchCountIsExact` | nexosim/src/executor/mt_executor/pool_manager.rs:198-210 | the search count is the number of workers searching or called to search, and no assertion of the pool fails |
| `PoolQuiescence.IdleIsQuiescent` | nexosim/src/executor/mt_executor/pool_manager.rs:181-195 | while `run` waits, a pool with no active worker has no runnable left anywhere |
| `PoolQuiescence.RunReturnsWhenDone` | nexosim/src/executor/mt_executor.rs:242-272 | when `run` returns, everything scheduled has been executed |
| `PoolProgress.NeverStuck` | nexosim/src/executor/mt_executor.rs:514-619 | while the main thread is blocked some thread can take a step; if no worker is active the main thread is unparked, or about to be |
| `PoolReturns.CanAlwaysReturn` | nexosim/src/executor/mt_executor.rs:242-272 | in every run, from every state in which `run` has not returned, some continuation makes it return with all work done |
| `PoolOutcomes.ScheduledIsExecuted` | nexosim/src/executor/mt_executor.rs:438-614 | in every run, a task that is spawned, or scheduled by a running task, is executed by a worker before `run` returns |
| `PoolOutcomes.LiveExactly` | nexosim/src/executor/mt_executor.rs:438-614 | a task is live from its scheduling to the end of its execution, whatever else happens |
| `PoolOutcomes.SpawnsAlone` | nexosim/src/executor/mt_executor.rs:191-238 | a spawned task is added to the injector, which is marked as not empty |
| `PoolOutcomes.SearchTakesBucket` | nexosim/src/executor/mt_executor.rs:547-606 | a search moves the last bucket of a non-empty injector to the local queue, and ends |
| `PoolOutcomes.PeeksBeforeLocking` | nexosim/src/executor/mt_executor/injector.rs:120-128 | an injector that is empty, and not locked, is not locked by a search |
| `PoolOutcomes.BucketsAreFilled` | nexosim/src/executor/mt_executor.rs:465-474 | in every run each bucket of the injector holds at least one task and at most its capacity |
| `PoolOutcomes.StealsAlone` | nexosim/src/executor/mt_executor.rs:583-614 | a thief takes the front of the queue of another worker, and runs one of these tasks |
| `PoolOutcomes.SearchEnds` | nexosim/src/executor/mt_executor.rs:592-601 | a search that finds nothing goes on, or ends with the worker about to go to sleep |
| `PoolOutcomes.SchedulesAlone` | nexosim/src/executor/mt_executor.rs:454-465 | a scheduled task takes the fast slot, and the one it displaces goes to the local queue |
| `PoolOutcomes.OverflowsAlone` | nexosim/src/executor/mt_executor.rs:465-471 | part of a full local queue becomes a bucket of the injector |
| `PoolOutcomes.RequeuesAlone` | nexosim/src/executor/mt_executor.rs:471 | then the displaced task goes to the local queue |
| `PoolOutcomes.InsertsAlone` | nexosim/src/executor/mt_executor.rs:472-474 | if nothing can be drained, the displaced task goes to the injector |
| `PoolOutcomes.RunsOne` | nexosim/src/executor/mt_executor.rs:609-614 | the task of the fast slot is run before those of the local queue |
| `PoolOutcomes.RunsInOrder` | nexosim/src/executor/mt_executor.rs:609-614 | a worker runs the tasks of its local queue in order |
| `PoolOutcomes.ChecksSearch` | nexosim/src/executor/mt_executor.rs:480-482 | a worker that queued a task wakes another one exactly if no worker searches or is called to search |
| `PoolOutcomes.RunActivates` | nexosim/src/executor/mt_executor.rs:242-243 | `run` can be called whenever the executor is idle, and then looks for a worker to activate |
| `PoolOutcomes.WakesIdleWorker` | nexosim/src/executor/mt_executor/pool_manager.rs:70-117 | the activation of a parked worker sets its bit, counts its search and gets it to search |
| `PoolOutcomes.LastNotifies` | nexosim/src/executor/mt_executor.rs:518-533 | the last active worker of an empty pool marks all workers as inactive and unparks the main thread |
| `PoolOutcomes.MainTokenExactly` | nexosim/src/executor/mt_executor.rs:523-533 | the main thread is unparked by the last worker only, and a park consumes what unparked it |
| `PoolOutcomes.PoolStarts` | nexosim/src/executor/mt_executor.rs:142-184 | for any number of workers, some run of a new pool lets the constructor return, and its assertion holds |
| `PoolOutcomes.FaultsExactly` | nexosim/src/executor/mt_executor/pool_manager.rs:130-210 | the fault flag is set by exactly the assertions of the source and an underflow of the search count |
| `TaskSet.WakeKeepsInv` | nexosim/src/util/task_set.rs:250-348 | every step of any thread waking any task keeps the invariant of the task set |
| `TaskSet.OwnerKeepsInv` | nexosim/src/util/task_set.rs:123-205 | so does every step of the owner: taking the list, iterating, dropping an iterator, resizing |
| `TaskSetRuns.HeadListIsSound` | nexosim/src/util/task_set.rs:250-348 | in every run, following the links from the head ends with EMPTY, meets no task twice, and meets no sleeping task |
| `TaskSetRuns.IteratorIsSound` | nexosim/src/util/task_set.rs:357-399 | likewise from the index of every iterator, whose accesses are in bounds |
| `TaskSetRuns.ExactlyOnePlace` | nexosim/src/util/task_set.rs:250-399 | a task sleeps exactly when it is nowhere; otherwise it is in one place only |
| `TaskSetRuns.WakeSchedules` | nexosim/src/util/task_set.rs:250-348 | a call to wake a task leaves it scheduled |
| `TaskSetRuns.ScheduledUntilTaken` | nexosim/src/util/task_set.rs:357-399 | a scheduled task sleeps again only after it was yielded, or found inactive, or discarded |
| `TaskSetRuns.NextVisitsTheTop` | nexosim/src/util/task_set.rs:360-379 | an iterator visits what it was given from the last scheduled task on, each once |
| `TaskSetRuns.OthersKeepList` | nexosim/src/util/task_set.rs:357-399 | only its own steps change what an iterator has still to visit, or what it was given |
| `TaskSetRuns.VisitsInOrder` | nexosim/src/util/task_set.rs:357-399 | over any run, the tasks an iterator visited followed by those it has still to visit are those it had to visit before |
| `TaskSetRuns.ExhaustedVisitedAll` | nexosim/src/util/task_set.rs:357-399 | an iterator that reaches its end visited exactly the tasks scheduled when the list was taken, from the last to the first, whatever the other threads do meanwhile |
| `TaskSetRuns.NotifiedExactlyOnce` | nexosim/src/util/task_set.rs:298-324 | until the list is taken again the parent is notified at most once, exactly when the requested number of tasks was scheduled |
| `TaskSetRuns.TakeArms` | nexosim/src/util/task_set.rs:123-158 | an empty list arms the countdown, any other is handed over entirely |
| `TaskSetRuns.NextWakeNotifiesOnce` | nexosim/src/ports/source/broadcaster.rs:317-336 | from when it is armed with an empty list, the parent is notified exactly once if any task is scheduled |
| `TaskSetCalls.WakesAlone` | nexosim/src/util/task_set.rs:250-348 | a call to wake a task, from any state and with any head read before, schedules a sleeping task last and leaves any other as it is |
| `TaskSetCalls.InsertionEndsAlone` | nexosim/src/util/task_set.rs:250-348 | so does a call that was interrupted at any point |
| `TaskSetCalls.NotifiesAlone` | nexosim/src/util/task_set.rs:318-324 | a notification that was decided can be sent |
| `TaskSetCalls.OwnerMayAct` | nexosim/src/util/task_set.rs:123-205 | the list can be taken at any time, and a resize adds sleeping tasks and forgets none |
| `TaskSetCalls.DrainsAlone` | nexosim/src/util/task_set.rs:357-380 | an iterator visits every task it has left, which sleep again, and touches nothing else |
| `TaskSetCalls.DropsAlone` | nexosim/src/util/task_set.rs:382-399 | so does the drop of an iterator |
| `TaskSetWord.PackIsInjective` | nexosim/src/util/task_set.rs:16-24 | equal head words are equal pairs of index and countdown |
| `TaskSetWord.PushWord` | nexosim/src/util/task_set.rs:298-316 | the word computed by a wake is the new pair, and its test detects the end of the countdown |
| `TaskSetWord.TakeWord` | nexosim/src/util/task_set.rs:126-133 | the word computed when the list is taken is the new pair |
| `TaskSetWord.HeadsFit` | nexosim/src/util/task_set.rs:9-24 | in every run index and countdown fit in their 32 bits each |
| `Broadcast.Futures` | nexosim/src/ports/output/broadcaster.rs:60-86 | the futures are those of the accepting senders, in the order of connection |
| `Broadcast.BroadcastFuture.constructor` | nexosim/src/ports/output/broadcaster.rs:329-352 | all outputs are missing, and all are counted |
| `Broadcast.BroadcastFuture.PollChild` | nexosim/src/ports/output/broadcaster.rs:391-404 | one poll of a sender future; the pending count is the number of missing outputs |
| `Broadcast.BroadcastFuture.PollAll` | nexosim/src/ports/output/broadcaster.rs:385-405 | every future is polled once, in order, up to a failure |
| `Broadcast.BroadcastFuture.PollScheduled` | nexosim/src/ports/output/broadcaster.rs:437-462 | the scheduled futures that did not reply are polled, up to a failure |
| `Broadcast.BroadcastFuture.Poll` | nexosim/src/ports/output/broadcaster.rs:366-470 | the polls made over any number of batches, and the result they call for |
| `Broadcast.PollEachKeepsJoin` | nexosim/src/ports/source/broadcaster.rs:274-301 | no future is polled after it is ready, and each output is the reply of its future |
| `BroadcastPasses.TurnPolls` | nexosim/src/ports/output/broadcaster.rs:437-461 | at its turn a future that has not replied is polled once more, and its output is the reply to that poll; any other is left alone |
| `BroadcastPasses.PassExactly` | nexosim/src/ports/output/broadcaster.rs:385-403 | a pass over distinct futures polls each that has not replied exactly once more, up to the first that fails, and receives its reply |
| `BroadcastPasses.PassFails` | nexosim/src/ports/output/broadcaster.rs:385-403 | the join fails if and only if one of them does |
| `BroadcastPasses.PassLeaves` | nexosim/src/ports/output/broadcaster.rs:437-461 | a future that is not in the pass is left alone |
| `Broadcast.OkCollectsAllReplies` | nexosim/src/ports/output/broadcaster.rs:207-257 | a successful join holds the reply of every future, in order |
| `Broadcast.ReplyIsUnique` | nexosim/src/ports/source/broadcaster.rs:352-366 | there is only one such reply |
| `Broadcast.PendingHasAPendingFuture` | nexosim/src/ports/output/broadcaster.rs:432-435 | a pending join has a future all of whose polls were pending |
| `BroadcastRuns.StepKeepsInv` | nexosim/src/ports/output/broadcaster.rs:366-470 | every step of the parent in its polls, and of any thread waking any task meanwhile, keeps the invariant of both |
| `BroadcastRuns.ParentIsNeverStuck` | nexosim/src/ports/output/broadcaster.rs:416-470 | in every run the parent has a next step, and its indices are in range |
| `BroadcastRuns.PendingIsRegisteredAndArmed` | nexosim/src/ports/output/broadcaster.rs:416-435 | `Pending` is returned only with an empty list and the countdown armed for one task, and with the waker registered unless the parent was woken |
| `BroadcastRuns.PendingHasServedAllWakes` | nexosim/src/ports/output/broadcaster.rs:414-435 | at that instant the task of any pending future woken since its last poll is still being inserted by a thread |
| `BroadcastRuns.WokenTaskWakesParent` | nexosim/src/ports/output/broadcaster.rs:421-435 | no lost wake: while the parent waits, such a task is being inserted, or it is scheduled and the parent was woken or is about to be notified |
| `BroadcastRuns.NotificationWakes` | nexosim/src/util/task_set.rs:318-324 | while the parent waits, any notification wakes it |
| `BroadcastRuns.LeavesTasksQuiet` | nexosim/src/ports/output/broadcaster.rs:329-352 | whenever the parent is not being polled, the task set, resized or not, is one that these theorems take to start with: they hold for every broadcast in turn |
| `BroadcastPolls.StepFollows` | nexosim/src/ports/output/broadcaster.rs:366-470 | at each point of a poll the join is what the polls made so far lead to |
| `BroadcastPolls.PollOfMachine` | nexosim/src/ports/output/broadcaster.rs:366-470 | whenever the parent returned, its join and its result are those of `BroadcastFuture.Poll` on what the task set yielded |
| `BroadcastServes.BatchIsExact` | nexosim/src/ports/output/broadcaster.rs:432-461 | in every run, whatever the threads do meanwhile, a batch polled is the active tasks that were scheduled when it was taken, each once |
| `BroadcastServes.PollReceives` | nexosim/src/ports/output/broadcaster.rs:445-460 | a poll of a future that has not replied is counted, and its output is the reply |
| `BroadcastServes.ParkedPolledAll` | nexosim/src/ports/output/broadcaster.rs:385-435 | while the parent waits every future was polled at least once |
| `BroadcastServes.WakeIsServed` | nexosim/src/ports/output/broadcaster.rs:416-469 | in every run, when `Pending` is returned after the task of a pending future was woken, the future was polled since, or its task is still being inserted |
| `BroadcastServes.ChecksBeforeRegistering` | nexosim/src/ports/output/broadcaster.rs:416-420 | the parent registers its waker exactly if it finds no task scheduled |
| `BroadcastServes.SinkExactly` | nexosim/src/ports/output/broadcaster.rs:418-435 | what registers and unregisters the waker, and what wakes the parent |
| `BroadcastServes.WakesAtAnyTime` | nexosim/src/ports/output/broadcaster.rs:388-389 | any thread may wake a task at any time, during a poll or between polls |
| `BroadcastServes.DiscardsAlone` | nexosim/src/util/task_set.rs:160-173 | before the futures are polled for the first time no task is scheduled and no notification requested |
| `BroadcastServes.ReturnsAlone` | nexosim/src/ports/output/broadcaster.rs:367-469 | a poll of the parent that no thread disturbs returns, from wherever it is |
| `LateNotification.PendingWithoutWaker` | nexosim/src/ports/output/broadcaster.rs:416-435 | a run of a broadcast of two futures in which `Pending` is returned with no waker registered; the parent was woken |
| `LateNotification.LosesWakerExactly` | nexosim/src/ports/output/broadcaster.rs:416-435 | in every run, a parent about to register its waker may go on to return `Pending` without it if and only if an earlier notification is still to be sent and no task is scheduled |
| `MpscQueue.FaultsExactlyOnBorrowedSlot` | nexosim/src/channel/queue.rs:243-276 | a step fails exactly when it pops a slot still borrowed |
| `MpscRuns.StepKeepsInv` | nexosim/src/channel/queue.rs:171-303 | any other step of any producer or of the consumer keeps the invariant |
| `MpscRuns.RunKeepsInv` | nexosim/src/channel/queue.rs:171-303 | so does every run, for any capacity and any number of producers |
| `MpscRuns.PoppedIsPrefix` | nexosim/src/channel/queue.rs:171-276 | the messages popped are a prefix of the messages pushed, in the order of their reservation; `len` counts the difference |
| `MpscRuns.PopSeesItsPosition` | nexosim/src/channel/queue.rs:243-254 | the stamp at the dequeue position is of that position, unless the slot is still borrowed |
| `MpscRuns.NeverOverwrites` | nexosim/src/channel/queue.rs:199-214 | a producer writes only to a slot that was given back |
| `MpscRuns.QuiescentLenCountsMessages` | nexosim/src/channel/queue.rs:330-345 | with no push in progress, `len` counts the slots that can be popped, which hold the next messages in order |
| `MpscRuns.ClosedMeansDrained` | nexosim/src/channel/queue.rs:277-292 | `Closed` is returned exactly if the queue was closed and every push that succeeded was popped; then no push is in progress |
| `MpscRuns.ClosedIsForGood` | nexosim/src/channel/queue.rs:178-180 | after that no push ever succeeds |
| `MpscRuns.FullIsExact` | nexosim/src/channel/queue.rs:221-226 | `Full` means that no slot is open, if and only if messages are given back in order |
| `MpscRuns.FullIfSlotNotOpen` | nexosim/src/channel/queue.rs:182-226 | a push at the current position returns `Full` exactly if its slot is not open |
| `MpscRuns.SerialRunIsSafe` | nexosim/src/channel/queue.rs:50-69 | a consumer that holds one message at a time never fails |
| `MpscRuns.SerialConsumer` | nexosim/src/channel.rs:104-141 | for such a consumer nothing fails, messages come in order and `Full` is exact, in every run |
| `MpscRuns.PopOfHeldSlotFails` | nexosim/src/channel/queue.rs:262-276 | a run that reaches the arm declared unreachable |
| `MpscRuns.FullDespiteOpenSlot` | nexosim/src/channel/queue.rs:221-226 | a run in which `Full` is returned although a slot is open |
| `MpscCalls.PushAlone` | nexosim/src/channel/queue.rs:171-238 | in any state a push alone is refused if the queue is closed, appends and publishes its message if the slot at its position is open, and otherwise reports a full queue |
| `MpscCalls.PushEndsAlone` | nexosim/src/channel/queue.rs:171-238 | so does a push that was interrupted before its reservation, whatever it read before |
| `MpscCalls.PopAlone` | nexosim/src/channel/queue.rs:243-292 | in any state a pop alone takes the next message pushed if it is ready, fails if the slot is borrowed, and otherwise says whether the queue is closed and drained |
| `MpscCalls.GiveBackAlone` | nexosim/src/channel/queue.rs:50-69 | giving a message back opens its slot for the next lap, and changes nothing else |
| `MpscCalls.PushThenPop` | nexosim/src/channel/queue.rs:171-276 | what is pushed to an empty queue is what the next pop returns |
| `MpscCalls.ClosesExactly` | nexosim/src/channel/queue.rs:295-303 | in every run the queue is closed exactly if `close` was called, which is possible at any time |
| `MpscCalls.ClosedTakesNoMore` | nexosim/src/channel/queue.rs:295-303 | after that no run pushes another message |
| `MpscCalls.PushAfterCloseIsRefused` | nexosim/src/channel/queue.rs:178-180 | a push called after that can only end refused, and does |
| `MpscCalls.PopAfterCloseIsClosed` | nexosim/src/channel/queue.rs:277-292 | a pop after that returns `Closed` exactly once all messages pushed before are popped |
| `MpscCalls.FaultsExactly` | nexosim/src/channel/queue.rs:199-276 | the fault flag is set by exactly the arms declared unreachable and the assertion on the stamp |
| `MpscWord.NextWordIsNext` | nexosim/src/channel/queue.rs:351-370 | the word computed from the word of a position is that of the next position, for any capacity and any lap, also when the lap wraps around |
| `MpscWord.WrappedIsRemainder` | nexosim/src/channel/queue.rs:108-137 | the word of a position is the remainder of the unbounded word |
| `MpscWord.IndexOf` | nexosim/src/channel/queue.rs:182-245 | the masks of the source read index and lap from the word of a position |
| `MpscWord.StampComparison` | nexosim/src/channel/queue.rs:185-187 | the sign of the difference of the unbounded words compares laps |
| `MpscWord.WrappedComparison` | nexosim/src/channel/queue.rs:185 | the wrapping signed difference is the true one while it is less than half the range |
| `MpscWord.WrappedStampComparison` | nexosim/src/channel/queue.rs:185-187 | what the sign of the wrapping difference of a stamp and a position tells, for any two laps |
| `MpscWord.ReleasedStamp` | nexosim/src/channel/queue.rs:262-270 | the wrapping addition of the right mask to the stamp of a populated slot is the stamp of the slot at its next lap, also when the lap wraps around |
| `MpscWord.ClosedFlag` | nexosim/src/channel/queue.rs:306-320 | the mask of the source reads the flag in the enqueue word, whatever the lap |
| `MpscWord.SetsFlag` | nexosim/src/channel/queue.rs:295-303 | closing sets the flag, also when it is set already, and changes nothing else |
| `MpscWord.LenWord` | nexosim/src/channel/queue.rs:330-345 | `len` on the masked words of the positions, with or without the flag, also when the lap wraps around |
| `MpscWordRuns.NewWords` | nexosim/src/channel/queue.rs:141-169 | the words of a new queue are those the source starts with |
| `MpscWordRuns.StepRefines` | nexosim/src/channel/queue.rs:171-303 | in every state of a run, an access on words does to the words what the step does to the queue, if and only if the words do not mislead its producer |
| `MpscWordRuns.SleeperIsFresh` | nexosim/src/channel/queue.rs:171-231 | a producer that misses less than half of the laps a word can hold is not misled |
| `MpscWordRuns.RunRefines` | nexosim/src/channel/queue.rs:171-303 | the runs on words in which no producer is misled are the runs of the queue, and lead to the same |
| `MpscWordRuns.NewRunRefines` | nexosim/src/channel/queue.rs:141-303 | this holds for all runs of a new queue with fewer steps than half of the laps |
| `MpscWordRuns.SleeperIsMisled` | nexosim/src/channel/queue.rs:189-219 | for any number of lap bits, a run in which a producer moves the position on the strength of a word that is laps old |
| `IndexedHeap.SiftUpOrders` | nexosim/src/util/indexed_priority_queue.rs:245-273 | moving an item up orders the heap and keeps entries, cross-indices and free nodes |
| `IndexedHeap.SiftDownOrders` | nexosim/src/util/indexed_priority_queue.rs:278-308 | likewise for moving down |
| `IndexedHeap.RootIsLeast` | nexosim/src/util/indexed_priority_queue.rs:140-143 | the root of an ordered heap is its least item |
| `IndexedQueue.RemovalIsSound` | nexosim/src/util/indexed_priority_queue.rs:212-239 | removing any item and sifting the last one removes one entry and frees one node, whichever way it goes |
| `IndexedQueue.InsertionIsSound` | nexosim/src/util/indexed_priority_queue.rs:90-123 | adding an item adds one entry and takes one node, free or new |
| `IndexedQueue.IndexedPriorityQueue.constructor` | nexosim/src/util/indexed_priority_queue.rs:55-62 | the empty queue |
| `IndexedQueue.IndexedPriorityQueue.SiftUp` | nexosim/src/util/indexed_priority_queue.rs:245-273 | the loop with a hole computes the sequence of swaps |
| `IndexedQueue.IndexedPriorityQueue.SiftDown` | nexosim/src/util/indexed_priority_queue.rs:278-308 | the loop with a hole computes the sequence of swaps |
| `IndexedQueue.IndexedPriorityQueue.Insert` | nexosim/src/util/indexed_priority_queue.rs:84-131 | adds the pair under an epoch never used before; one step of a history |
| `IndexedQueue.IndexedPriorityQueue.Pull` | nexosim/src/util/indexed_priority_queue.rs:140-163 | removes the entry with the lowest key, the first inserted among equals; one step of a history |
| `IndexedQueue.IndexedPriorityQueue.PeekKey` | nexosim/src/util/indexed_priority_queue.rs:187-191 | the lowest key, if any |
| `IndexedQueue.IndexedPriorityQueue.Extract` | nexosim/src/util/indexed_priority_queue.rs:200-240 | finds a pair exactly if the insertion key names a live entry, and removes that entry only; one step of a history |
| `IndexedQueue.RemovedKeysStayDead` | nexosim/src/util/indexed_priority_queue.rs:403-410 | over any history of these operations, the key of a removed pair is refused for ever, even if its node is used again |
| `KeyRegistry.Registry.InsertKey` | nexosim/src/server/key_registry.rs:18-24 | the key can be extracted with the identifier returned |
| `KeyRegistry.Registry.InsertEternalKey` | nexosim/src/server/key_registry.rs:27-29 | likewise, with the last time of all as deadline |
| `KeyRegistry.Registry.ExtractKey` | nexosim/src/server/key_registry.rs:34-36 | the key of a live identifier, and no other change |
| `KeyRegistry.Registry.RemoveExpiredKeys` | nexosim/src/server/key_registry.rs:39-47 | exactly the keys whose deadline predates the argument are removed |
| `KeyRegistry.EternalKeysStay` | nexosim/src/server/key_registry.rs:27-29 | a key without deadline never expires |
| `Agenda.InsertKeepsSorted` | nexosim/src/util/priority_queue.rs:17-82 | an insertion keeps the queue ordered by key and then by insertion |
| `Agenda.LiveInsert` | nexosim/src/simulation.rs:428-441 | discarding cancelled events and inserting commute |
| `Stepping.StepKeepsConsistent` | nexosim/src/simulation.rs:400-501 | every step keeps all events strictly in the future; time increases, within the bound |
| `SteppingRuns.DueIsExactlyTheLeastTime` | nexosim/src/simulation.rs:443-450 | a step is at the least time of a live event and executes exactly the live events of that time |
| `SteppingRuns.GroupsHoldAll` | nexosim/src/simulation.rs:451-476 | each of these is executed once, in the order of the queue |
| `SteppingRuns.GroupsHaveDistinctOrigins` | nexosim/src/simulation.rs:451-476 | the events of an origin form one sequence |
| `SteppingRuns.RequestIsScheduled` | nexosim/src/simulation/scheduler.rs:388-412 | an accepted request is in the queue, at its time and with its origin |
| `SteppingRuns.RequestsKeepOrder` | nexosim/src/util/priority_queue.rs:75-82 | requests for the same time and origin are queued in the order in which they were made |
| `SteppingRuns.CancellationTakesEffect` | nexosim/src/simulation/scheduler.rs:224-241 | an action cancelled during a step is not in the queue after it |
| `StepEffects.LiveByKeys` | nexosim/src/simulation.rs:428-441 | of a queue, exactly the events that carry a cancelled key are discarded |
| `StepEffects.SubmitExactly` | nexosim/src/simulation/scheduler.rs:388-412 | a request is queued if and only if its time is in the future and it is not a null period that is refused |
| `StepEffects.RescheduledExactly` | nexosim/src/simulation.rs:415-422 | each due periodic event, and no other, leaves an event one period later |
| `StepEffects.StepLeavesExactly` | nexosim/src/simulation.rs:400-501 | the queue after a step: the events of later times, the renewals and the admissible requests, without those that carry a cancelled key |
| `StepEffects.PlannedIsExecuted` | nexosim/src/simulation.rs:513-543 | in every successful run to its time or later, an event whose key no step cancels before is executed exactly once, by the only step at its time and at its place |
| `StepEffects.ModelIsThreaded` | nexosim/src/simulation.rs:340-392 | each step runs the executor on the model that the step before left, at the time and with the actions of the step |
| `StepEffects.RefusesAfterEnd` | nexosim/src/simulation.rs:400-411 | after a failure every step is refused, and after a halt the next one, with the errors of the source |
| `StepEffects.FailuresAreReported` | nexosim/src/simulation.rs:513-543 | a run that fails returns the error of its last step, or says that the simulation was halted or had failed before |
| `SteppingRuns.RunReachesTarget` | nexosim/src/simulation.rs:513-543 | a successful run ends at the target; the number of steps is at most the time that passes |
| `SteppingRuns.TraceIsIncreasing` | nexosim/src/simulation.rs:513-543 | steps happen at increasing times, up to the target |
| `SteppingRuns.FailureEndsRun` | nexosim/src/simulation.rs:513-543 | a run that fails before a time is the same run for any later target |
| `SteppingRuns.StepUntilComposes` | nexosim/src/simulation.rs:231-238 | running to one time and then to another executes, and leaves, what running to the second does, if and only if they differ or the last step did not halt the simulation |
| `SteppingRuns.HaltBreaksComposition` | nexosim/src/simulation.rs:404-411 | in that case it does not |
| `SteppingRuns.HaltAtTarget` | nexosim/src/simulation.rs:404-411 | a world and an executor for which it does not |
| `SteppingRuns.RunIsChain` | nexosim/src/simulation.rs:513-543 | a run is a chain of steps, from the given world to the events and cancellations of the result |
| `SteppingRuns.UnboundedIsBounded` | nexosim/src/simulation.rs:240-246 | a run without a target that ends does what a run to any later target does; if it succeeds no event is left |
| `Periodic.ExecuteMovesNext` | nexosim/src/simulation.rs:415-422 | a step executes a due periodic action once and plans it one period later, and leaves any other; if it cancels the action nothing is left of it |
| `Periodic.PeriodicTimes` | nexosim/src/simulation/scheduler.rs:775-786 | at every point of any run, a periodic action was executed at exactly the first times of its progression, once each; the next is planned unless it was cancelled, and then no later step executes it |
| `Periodic.PeriodicTimesOfRun` | nexosim/src/simulation/scheduler.rs:775-786 | over a whole run no time of the progression up to the current one was missed, unless the action was cancelled |
| `Periodic.CancelledNeverExecuted` | nexosim/src/simulation.rs:428-441 | an action cancelled before or during a run is not executed by any later step |
| `PeriodicOrder.SamePeriodKeepsOrder` | nexosim/src/simulation/scheduler.rs:684-688 | two actions of the same origin, time and period: every step of every run executes both or neither, in one group and in their order, until one is cancelled |
| `Draining.PulledIsRescheduled` | nexosim/src/simulation.rs:451-476 | pulling the due events one by one, with immediate re-insertion, leaves what rescheduling them all does |
| `Draining.NullPeriodNeverEnds` | nexosim/src/simulation.rs:415-422 | with a null period among the due events, pulling never gets past their time |
| `Draining.EndsExactlyWithoutNullPeriod` | nexosim/src/simulation.rs:451-501 | pulling the due events ends if and only if none has a null period |
| `Draining.NullPeriodRequestNeverEnds` | nexosim/src/simulation/scheduler.rs:388-412 | after a null period is requested through an action, no number of pulls gets past the time requested, whatever else is planned; the functions that take a period refuse it |
| `EventLoop.Simulation.PeekNextKey` | nexosim/src/simulation.rs:428-441 | the key of the first live event within the bound; only cancelled events are discarded |
| `EventLoop.Simulation.PullNextAction` | nexosim/src/simulation.rs:415-422 | pulls the first event and schedules a periodic one again |
| `EventLoop.Simulation.PullOrigin` | nexosim/src/simulation.rs:451-476 | pulls the due events of one origin as one group |
| `EventLoop.Simulation.Drain` | nexosim/src/simulation.rs:451-482 | pulls all due events, grouped by origin; what is left lies in the future |
| `EventLoop.Simulation.Run` | nexosim/src/simulation.rs:340-392 | the effects of the executor: requests, cancellations, halt and failure |
| `EventLoop.Simulation.StepToNext` | nexosim/src/simulation.rs:400-501 | the loops do what the step function does to the events that are not cancelled, and return its result |
| `EventLoop.Simulation.StepUntilUnchecked` | nexosim/src/simulation.rs:513-543 | the loop executes the run of steps up to the target, or without a target the run of all steps, if they end |
| `EventLoop.Simulation.StepUntilTime` | nexosim/src/simulation.rs:231-238 | likewise, and a target in the past is refused |
| `EventLoop.Simulation.Schedule` | nexosim/src/simulation/scheduler.rs:388-412 | a time that is not in the future is refused; only a null period can break the invariant |
| `SeqFuture.Sequence.Push` | nexosim/src/util/seq_futures.rs:28-30 | a future is appended, not polled |
| `SeqFuture.Sequence.PollOnce` | nexosim/src/util/seq_futures.rs:37-50 | each future is polled only once the previous one is ready, and never after it is ready |
| `SyncCell.StepKeepsInv` | nexosim/src/util/sync_cell.rs:105-194 | every step of the writer or of any reader keeps the invariant, for any number of fields |
| `SyncCell.SuccessfulReadIsWhole` | nexosim/src/util/sync_cell.rs:155-181 | a successful read that was not lapped returns all fields of the value current when it ends, and no write began meanwhile, in every run |
| `SyncCell.PassesExactly` | nexosim/src/util/sync_cell.rs:155-181 | a read that passes the check saw no write begin if and only if it was not lapped |
| `SyncCell.UndisturbedReadSucceeds` | nexosim/src/util/sync_cell.rs:155-181 | a read fails only if a write began meanwhile, and the reader may then start again |
| `SyncCell.StartsExactly` | nexosim/src/util/sync_cell.rs:155-166 | in every run a read starts if and only if no write is in progress, whatever the count |
| `SyncCell.ReadsAlone` | nexosim/src/util/sync_cell.rs:155-194 | a read that nothing disturbs returns the current value, in every state in which no write is in progress |
| `SyncCell.WritesAlone` | nexosim/src/util/sync_cell.rs:105-134 | a write can be made whenever the writer is at rest, for any number of fields, and leaves the value written |
| `SyncCell.ReadReturnsWritten` | nexosim/src/util/sync_cell.rs:105-194 | in every run the value written is what the next read returns |
| `SyncCell.ReadsFollowWriteOrder` | nexosim/src/util/sync_cell.rs:188-194 | in a run without lapped reads, all a reader returns was written, and in the order of the writes |
| `SyncCell.LappedReadMayBeTorn` | nexosim/src/time/monotonic_time.rs:26-45 | for every even number of values of the count, a run in which a read that spans half as many writes returns a value that was never written |
| `AdderTree.SumMasks` | nexosim/src/util/bit.rs:107-122 | at each level the quotient of the source is the mask of every other field |
| `AdderTree.TreeOfAdders` | nexosim/src/util/bit.rs:30-70 | level p holds the counts of set bits in groups of 2^p bits |
| `FindBit.Search` | nexosim/src/util/bit.rs:72-104 | the branchless descent through the levels |
| `FindBit.Find` | nexosim/src/util/bit.rs:30-104 | the position of the rank-th set bit, and the exact outcome for any other rank |
| `Stealers.GenBoundedInRange` | nexosim/src/util/rng.rs:34-38 | a bounded random number is below its bound |
| `Stealers.GenBoundedExactly` | nexosim/src/util/rng.rs:34-38 | the random numbers that give a value are those of one interval, of the same length up to rounding |
| `Stealers.GenBoundedReaches` | nexosim/src/util/rng.rs:34-38 | every value below the bound is given by some random number |
| `Stealers.RoundTripStarts` | nexosim/src/executor/mt_executor/pool_manager.rs:268-291 | the sequence of candidates starts at the selected one |
| `Stealers.RoundTripVisitsAll` | nexosim/src/executor/mt_executor/pool_manager.rs:294-320 | it lists every candidate exactly once, the distance from the first going up strictly around the pool |
| `Stealers.ShuffledStealers.constructor` | nexosim/src/executor/mt_executor/pool_manager.rs:268-291 | the first candidate is the active worker whose rank the random number gives, and the rotation by its position is the start of the sequence |
| `Stealers.ShuffledStealers.Next` | nexosim/src/executor/mt_executor/pool_manager.rs:297-320 | each call yields the next candidate of the sequence |

## Left out

- Weak memory orderings and fences: accesses are interleaved in a sequentially consistent way.
- The foreign crates: steals, pushes and pops of the local queues are atomic moves that may fail for no reason; a parker is a binary token; the wake sink of a parent is a flag that `register` sets and `notify` clears, waking the parent if it was set; the heap of the standard library is an ordered sequence.
- The abort, timeout and panic paths of the executor, and panics in the destructor of a future or an output.
- The count of messages in flight and the classification of deadlocks: workers add their counts after they are marked inactive.
- The single-threaded executor, ports, senders, the model and context interface, the server and its registries, clocks and tracing.
- The choice of the first idle worker: the pool may activate any worker it saw idle, which covers the choice of the source.
- The wrap-around of the counts of the task word above their critical values, where the source aborts.
- A channel capacity above a quarter of the range of a word, which would leave no bit for the lap in the words of the queue; a buffer that large cannot be allocated.
- `sift_up` compares the key with its parent a second time after moving the parent; the second comparison has the outcome of the first and is left out.
- `peek` of the associative queue, which returns the value beside the key of `PeekKey`.
- Cancellations and requests of other threads while the due events are pulled: they take effect when the executor runs.
- The second look at its cancellation key that a keyed event takes when its message is processed, within a step.
- The time jump at the end of `step_until` is atomic with respect to scheduling.
- `FindBit.Find`: for ranks from half the range of a word up to the limit, the wrapping subtraction is that of a release build; a debug build panics on it.
- `Stealers.ShuffledStealers`: for a pool with as many workers as a word has bits, the shift of the source is that of a release build.
- `EventLoop.Simulation.Execute`: covers the executor as a function of the model state, the time and the batch; what tasks do while it runs is the subject of the task and pool models.
- `EventLoop.Simulation.StepUntilUnchecked`: without a target it need not end, for instance with a periodic action; its result is stated for worlds whose steps end.

# Verified models of the go-fw runtime

This project models the parts of the go-fw framework in which most can go wrong, and proves what
they are for:

* **The executor** (`executors/`): an event loop that owns a ready list, a heap of delayed tasks, a
  timer, a counter of running tasks and a four-stage lifecycle, and the tasks it runs. `Tasks` is the
  task status machine, `TaskRaces` the same operations one load, CAS, store and close at a time.
  `ExecutorLoop` has one function per loop helper and per event, `Executors.DefaultExecutor` the
  object whose methods update the fields in place and are proved equal to those functions, and
  `ExecutorLaws` says of each function, field by field, what the source has it do.
  `ExecutorRuns` puts the loop together with submitters, cancellers, task bodies and the clock into
  one transition system; the other `Executor*` modules prove what holds in every state of every run,
  and `ExecutorScenarios` has runs from the initial state that show what does not. `ReadyLists` is the
  ready list down to the links of Go's `container/list`, and `ExecutorLists` follows it along the runs.
* **The priority queue** (`queue/`): `PriorityQueues` has the binary heap with back-pointers and the
  list sorted by priority and insertion order that it stands for. `ExecutorQueue` connects that list
  with the one the event loop is modelled on.
* **The PartiQL printer** (`aws/partiql`): `PartiqlText` has a plain printer, a parser and their
  laws, `PartiqlEncoder` the serializer and the flag machine it drives. Tuples, arrays and bags follow
  section 2 (Data Model) of the PartiQL Specification, the doubled quote section 5.3 (literal) of
  SQL-92.
* **The UPDATE builder** (`aws/dynamodb/update.go`): `DynamoUpdates`, with a reader for the server
  that is defined on the characters of a statement and a table that carries the clauses out.
* **Lease locks** (`distributedlock/`): `Leases` is the abstract lease machine, `PostgresLocks` and
  `RedisLocks` refine it, `AutoExtends` is the auto-extension loop.
* **Nested transactions** (`database/database.go`): `NestedTransactions`.
* **The map with double-checked initialisation** (`sync/map.go`): `SyncMaps`.

`dafny verify dfyconfig.toml` checks everything.

## What the proofs assume

The executor
* One received event is one step of the loop, and one call of a task operation is one step: in
  particular the CAS and the flag of `Cancel` are one step (executors/task.go:137-138), and no cancel
  falls between the loop's check of the flag and `configureNextRun`, where the code would panic.
  `TaskRaces` drops this for the status and the done channel.
* The clock does not go backwards and stands still while one event is handled.
* The model follows the loop up to the first cancel event that spoils the ready list, if there is one
  (`RunBreaksExactly`), and takes no loop step after it; what becomes of the list then is in
  `ReadyLists`. What is said of the queues of a run is meant for its states before that.
* `running`, the concurrency and the capacity are read by submitters as if they were atomic.

The rest
* DynamoDB reads a statement as `ReadText` does: names of letters, digits and `_.[]-`, a table name
  without a double quote, collections that are documents. What the builder does with other names and
  collections is proved clause by clause (`ActsMean`, `NamesDecide`), not from the text.
* Postgres: commits succeed, the lock calls are transactions of their own, and `now()` is the start of
  the transaction. Other objects may act between the SELECT and the statement behind it.
* Redis: a script is one step; lock and counter keys of different resources do not collide.
* Savepoints of one transaction have distinct names; `EndsExactly` says exactly when a clash hurts, and
  `SameNameBreaks` shows one.

## Where the code does less than it seems to promise

* A completion breaks work conservation if and only if it meets a cancelled task at the head of the
  ready list: that one is dropped and the next is not tried (`CompletionIdlesExactly`,
  `StepIdlesExactly`, `RunIdlesExactly`). `CancelStarvesReady` is a run that leaves a task waiting with
  nothing running.
* A shutdown stalls, with nothing queued or running and yet not terminated, if and only if the last
  queued task was cancelled and the loop drops it in one of five ways (`StepStallsExactly`,
  `RunStallsExactly`). `DelayedStall` and `ReadyStall` are runs that do; the stall lasts until the next
  `CancelNow` at least (`StallLasts`).
* The timer is not armed again for a deadline it was armed for before. `StepArmsExactly` and
  `RunArmsExactly` say exactly when a wakeup is lost, `WakeupLost` is a run of two tasks with one
  deadline, and `WakeupStaysLost` says how long the second is not started.
* `CancelNow` resets the ready list with `Init`, which leaves the handles of the tasks it hands back
  live. The cancel event of such a task, received while others are ready, removes a stale handle: the
  length of the list no longer agrees with its links. That happens if and only if such an event is
  received (`RunBreaksExactly`, `RunListAgrees`), and from then on a list that has come down to
  length zero has lost a task (`SpoiltLoses`). `StaleCancelLosesTask` is a run.
* `CancelNow` cancels no running task, although its documentation says so
  (executors/executors.go:132-133): the promise holds if and only if none is running
  (`CancelNowCancelsExactly`); `CancelNowLeavesRunning` is a run.
* `Await` can hand out a channel that is never closed (`PublishedClosedExactly`, `AwaitLosesCancelRun`,
  `OpenForEver`).
* `Err` of a Done task may still change (`ErrorMayChangeAfterDone`); `ErrorChanges` is a run.
* Keys are written unescaped: the round trip holds if and only if no written key has a quote
  (`RoundTripExactly`, `ValueRoundTrip`). Names in UPDATE statements likewise (`NamesDecide`).
* `Increment` by the smallest int64 subtracts its wrapped negation (`IncrementExactly`), and an append
  whose keys have quotes does not append what was asked for (`AppendExactly`).
* Taking over an expired Postgres lock does not reset its extension counter
  (`RunCounts`, `CountExactly`); `TakeoverMiscounts` is a run.
* "Only once for the same key" (sync/map.go:24) holds up to deletions: every further generator call
  for a key is paid for by a `Delete` of its value (`InitialiseOnce`, `CalledAgainExactly`);
  `DeleteStartsOver` is a run with two calls.

## Model

| member | source | states |
|---|---|---|
| `Tasks.LifeOfTask` | executors/task.go:99-252 | over every sequence of operations Done is absorbing, Cancelling leads only to Done, the channel once handed out stays the same one, and the one Await gives is closed exactly when the task is Done, and closed once |
| `Tasks.CompletionWonOnce` | executors/task.go:115-149 | over every sequence of operations exactly one of them wins the completion of a task that ends up Done |
| `Tasks.ErrorMayChangeAfterDone` | executors/executors_default.go:333-337 | the error of a Done task changes if and only if its cancel event arrives and it had none, and then it is the cancel error |
| `TaskObjects.TaskObject.constructor` | executors/task.go:74-93 | a new task is New, of the kind and delay asked for, and first due the initial delay after now |
| `TaskObjects.TaskObject.SetRunning` | executors/task.go:99-105 | a task starts if and only if it is New and due; then it is Running and nothing else of it changes |
| `TaskObjects.TaskObject.Cancel` | executors/task.go:115-149 | a New task goes to Done with the cancel error and its channel closed, a Running one to Cancelling, any other is left alone |
| `TaskObjects.TaskObject.Await` | executors/task.go:155-173 | the channel handed out is the stored one and is closed exactly when the task is Done |
| `TaskObjects.TaskObject.SetDone` | executors/task.go:221-252 | a task that was not Done becomes Done with exactly this error and a closed channel; a Done one is untouched |
| `TaskObjects.TaskObject.ConfigureNextRun` | executors/task.go:193-219 | panics unless the task is periodic and Running; otherwise it is New again, due a period after its last deadline at a fixed rate and a delay after now with a fixed delay |
| `TaskRaces.RunInv` | executors/task.go:99-252 | under every interleaving of single loads, CASes, stores and closes of any number of goroutines the invariant about mutex, winner, channel and status holds |
| `TaskRaces.ClosedAtMostOnce` | executors/task.go:115-252 | under every interleaving the channels of a task are closed at most once in all, no step leaves Done, and Cancelling is left only for Done |
| `TaskRaces.PublishedClosedExactly` | executors/task.go:126-129 | once the goroutine that won the completion is through, the published channel is closed if and only if Await did not store its own channel after that |
| `TaskRaces.AwaitLosesCancel` | executors/task.go:164-169 | from every state where Await has not yet stored its channel for a New task, a whole Cancel and then the store leave a Done task with an open channel |
| `TaskRaces.AwaitLosesCancelRun` | executors/task.go:115-173 | the same as a run of ten steps from a fresh task: it is Done and the published channel is open |
| `TaskRaces.OpenForEver` | executors/task.go:115-252 | over every run, a channel that `Await` stored after the winner was through stays published and open in every later state |
| `TaskRaces.CancelAlone` | executors/task.go:115-149 | single step by single step and undisturbed, `Cancel` does what it does as one step: status, stored channel and closes |
| `TaskRaces.DoneAlone` | executors/task.go:221-252 | likewise `setDone`: the task is Done, and the stored channel is closed once, or the shared closed one is stored |
| `TaskRaces.AwaitAlone` | executors/task.go:155-173 | likewise `Await`: a stored channel stays; a Done task gets the shared closed one, any other a new one |
| `TaskRaces.StatusAlone` | executors/task.go:99-219 | likewise `setRunning` and `configureNextRun` |
| `Executors.DefaultExecutor.Schedule` | executors/executors_default.go:210-232 | a cancelled executor refuses, and so does one whose free slots and capacity are used up by what is queued, changing nothing; otherwise there is one more task, New, of the kind and delay that were asked for and first due the initial delay after now |
| `Executors.DefaultExecutor.ConfigureSchedulerTimer` | executors/executors_default.go:504-520 | the timer is armed for the earliest deadline unless that is the one it was last armed for |
| `Executors.DefaultExecutor.ExecuteTask` | executors/executors_default.go:483-502 | the task is set running and counted, or nothing changes |
| `Executors.DefaultExecutor.TryExecuteTask` | executors/executors_default.go:446-465 | a task in hand is dropped, delayed, queued with its handle or started |
| `Executors.DefaultExecutor.TryRunNextTask` | executors/executors_default.go:409-444 | starts the head of the ready list if there is room, or advances the lifecycle when everything is empty; says whether the loop goes on |
| `Executors.DefaultExecutor.TimerFired` | executors/executors_default.go:292-303 | the timer event on the whole loop state |
| `Executors.DefaultExecutor.TaskCompleted` | executors/executors_default.go:312-331 | the completion event: finished, cancelled and periodic tasks, then the next ready one |
| `Executors.DefaultExecutor.TaskCanceled` | executors/executors_default.go:333-349 | the cancel event: the early exit on an empty ready list, the removal from both queues, and the stale handle that spoils the ready list |
| `Executors.DefaultExecutor.UpdateConcurrency` | executors/executors_default.go:351-358 | the drain loop terminates, equals its recursive meaning, and leaves a ready task only if all slots are taken |
| `Executors.DefaultExecutor.UpdateQueueCapacity` | executors/executors_default.go:360-362 | the capacity is the one given, and nothing else changes |
| `Executors.DefaultExecutor.CancelRequested` | executors/executors_default.go:364-374 | the cancel-executor event on the whole loop state |
| `Executors.DefaultExecutor.CancelNowRequested` | executors/executors_default.go:376-403 | both queues are emptied in order into the returned futures |
| `ExecutorLaws.ConfigureLaw` | executors/executors_default.go:504-520 | the timer is set for the deadline of the first delayed task, unless that was its last target |
| `ExecutorLaws.DelayedLaw` | executors/executors_default.go:446-456 | a New task that is not due goes behind all delayed tasks that are due no later and before the others, with its handle, and the timer has the first deadline as its target |
| `ExecutorLaws.DueLaw` | executors/executors_default.go:446-502 | a due task runs if it is New and a slot is free, waits at the end of the ready list if it is New and none is, and is dropped otherwise; nothing else changes |
| `ExecutorLaws.NothingQueuedLaw` | executors/executors_default.go:409-432 | with nothing queued a cancelled executor waits while something runs, and otherwise terminates and closes its channel |
| `ExecutorLaws.NextTaskLaw` | executors/executors_default.go:434-444 | with a ready task and a free slot the first one leaves the list, and runs if it is New and due |
| `ExecutorLaws.DueTimerLaw` | executors/executors_default.go:292-303 | the timer event takes the first due task off the heap, and only that one, and it runs, waits or is dropped |
| `ExecutorLaws.NextTimerLaw` | executors/executors_default.go:303 | and then sets the timer for the next deadline, unless that was its last target |
| `ExecutorLaws.EarlyTimerLaw` | executors/executors_default.go:292-303 | without a due task nothing leaves the heap, and the timer is set anew unless the deadline was its last target |
| `ExecutorLaws.EndedLaw` | executors/executors_default.go:312-328 | a completion counts one task less; one that is Done or not periodic stays as it is, and a cancelled one is Done with the cancel error |
| `ExecutorLaws.AgainLaw` | executors/executors_default.go:318-327 | a periodic one is New again, due a period after its last deadline or a delay after now, and goes to the end of the ready list if that has come and on the heap if not |
| `ExecutorLaws.CompletedLaw` | executors/executors_default.go:312-331 | the completion event is the two of them, with the next ready task tried after |
| `ExecutorLaws.CanceledLaw` | executors/executors_default.go:333-349 | the cancel event gives the cancel error to a task without an error, stops there if the ready list is empty, and otherwise takes exactly this task out of the queues it has handles into |
| `ExecutorLaws.ConcurrencyLaw` | executors/executors_default.go:351-358 | the concurrency is the one given, ready tasks leave the list from its front, and one stays only if all slots are taken |
| `ExecutorLaws.CapacityLaw` | executors/executors_default.go:360-362 | the capacity event sets the capacity and nothing else |
| `ExecutorLaws.CancelLaw` | executors/executors_default.go:364-374 | the cancel event takes effect once; with nothing queued the executor waits or terminates, otherwise it shuts down |
| `ExecutorLaws.CancelNowLaw` | executors/executors_default.go:376-403 | the futures are the ready tasks in their order and then the delayed ones by deadline, nothing stays queued, and the executor waits or terminates; once it does, CancelNow hands back nothing |
| `ExecutorLaws.FinishLaw` | executors/executors_default.go:483-502 | the end of a body makes its task Done with the error of the body if there is one or the task is not periodic, and reports one completion |
| `ExecutorRuns.StepConserves` | executors/executors_default.go:279-407 | every client step and every event keeps ownership of all tasks balanced, cancel events of futures that CancelNow handed back included |
| `ExecutorTheorems.TaskConservation` | executors/executors_default.go:279-502 | in every state of every run whose ready list has not been spoilt, a New task is in exactly one place, a started one has exactly one execution, no task has two, `running` counts the executions, and the loop has not panicked |
| `ExecutorTheorems.StepHandles` | executors/executors_default.go:333-345 | a step spoils the ready list if and only if it is the cancel event of a task that CancelNow took out of it, received while other tasks are ready; every other handle is of a ready task |
| `ExecutorTheorems.RunBreaksExactly` | executors/executors_default.go:333-345 | over every run, the ready list has been spoilt if and only if some step so far was such a cancel event |
| `ExecutorTheorems.PhaseMovesForward` | executors/executors_default.go:409-428 | over every run the lifecycle only moves forward and the termination channel is closed at most once |
| `ExecutorTheorems.Termination` | executors/executors_default.go:376-432 | in every terminated state of a run whose ready list has not been spoilt, both queues are empty, nothing runs, and every task that reached the loop is Done or was handed back by CancelNow |
| `ExecutorTheorems.StepUnderCap` | executors/executors_default.go:446-502 | whatever the concurrency was before: if a step starts a task, or counts one more, it ends with `running` within the cap; a completion that starts the next task while over the cap does not exist |
| `ExecutorTheorems.ConcurrencyCap` | executors/executors_default.go:476-481 | over every run with a fixed non-negative concurrency `running` never exceeds it |
| `ExecutorTheorems.StepLoad` | executors/executors_default.go:312-327 | only a submission adds to running plus queued plus undelivered tasks; periodic re-queueing does not |
| `ExecutorTheorems.CapacityBound` | executors/executors_default.go:210-232 | with fixed limits and at most n submitters between check and delivery, running plus queued plus undelivered never exceeds concurrency + capacity + n - 1 |
| `ExecutorCapacity.CapacityAttained` | executors/executors_default.go:220-230 | for all limits with room for a task and every n there is a run in which n racing submitters bring running plus queued to exactly concurrency + capacity + n - 1 |
| `ExecutorOrder.WorkConservation` | executors/executors_default.go:309-358 | over every run in which no ready task is cancelled, a ready task means `0 <= concurrency <= running`, and tasks start in the order in which they reached the loop as due |
| `ExecutorOrder.CompletionIdlesExactly` | executors/executors_default.go:312-331 | a completion leaves a slot idle with ready tasks if and only if it frees a slot, the head of the ready list was cancelled, and another task is behind it or the completed one comes back |
| `ExecutorOrder.StepIdlesExactly` | executors/executors_default.go:279-444 | every step keeps the order of starts and the due times; from a state in order and without an idle slot, a step leaves a slot idle with ready tasks if and only if it is such a completion |
| `ExecutorOrder.RunIdlesExactly` | executors/executors_default.go:279-444 | over every run, a state with a ready task and a free slot has been reached if and only if one of the steps so far was such a completion; until then tasks started in the order they came due |
| `ExecutorOrder.DrainOrderly` | executors/executors_default.go:351-358 | from any order-keeping state the drain loop restores work conservation, cancelled tasks or not |
| `ExecutorTimer.PushArmsExactly` | executors/executors_default.go:453-456 | a push keeps the timer armed in time if and only if not (the heap was empty, the timer is spent, and the deadline is its last target) |
| `ExecutorTimer.TimerRearmsExactly` | executors/executors_default.go:292-303 | the timer event keeps the timer armed in time if and only if the entry behind the head does not have the target deadline |
| `ExecutorWakeups.StepArmsExactly` | executors/executors_default.go:279-520 | from a state in which the timer is armed in time, a step leaves it otherwise if and only if it is one of three: the timer takes out one of two tasks with the target deadline, or a submitted or a periodic task is pushed on an empty heap with the deadline the spent timer was last armed for |
| `ExecutorWakeups.RunArmsExactly` | executors/executors_default.go:279-520 | over every run, whatever its deadlines, a state has been reached in which a task is on the heap and the timer will not fire by its deadline if and only if one of these steps was taken |
| `ExecutorWakeups.RunDue` | executors/executors_default.go:434-465 | over every run, every runnable task in the ready list is due |
| `ExecutorTimer.NoMissedWakeup` | executors/executors_default.go:504-520 | over every run with distinct pushed deadlines, while a task is delayed the timer is armed for no later than every deadline on the heap |
| `ExecutorTimer.WakeupStaysLost` | executors/executors_default.go:504-520 | however a run goes on after a lost wakeup and however much time passes, the timer stays spent and the task first on the heap, until CancelNow, the task's own cancel event or a push with an earlier deadline |
| `ExecutorPeriodic.FixedRateTiming` | executors/task.go:193-219 | over every run, run number r of a fixed-rate task starts no earlier than first deadline + r * period, and the stored deadline is exactly first + ends * period |
| `ExecutorPeriodic.FixedDelayTiming` | executors/task.go:211-213 | over every run, no run of a fixed-delay task starts sooner than `delay` after the end of any earlier run |
| `ExecutorPeriodic.SubmittedStays` | executors/executors_default.go:210-232 | over every run, a submitted task keeps the kind and the delay that were asked for, and its first deadline was the time of the call plus the initial delay |
| `ExecutorPeriodic.AskedAtFixedRate` | executors/executors_default.go:184-194 | over every run, run r of a task asked for at a fixed rate starts no earlier than the time of the call plus initial delay plus r periods, and the stored deadline is exactly that of the next or current run |
| `ExecutorPeriodic.AskedWithFixedDelay` | executors/executors_default.go:197-208 | over every run, no run of a task asked for with a fixed delay starts sooner than that delay after the end of an earlier one |
| `ExecutorPeriodic.FailureIsKept` | executors/task.go:221-252 | over every run, the error with which a body ends is that of its Done task in every later state |
| `ExecutorShutdown.StepStallsExactly` | executors/executors_default.go:279-444 | from a state that is not stalled, a step leaves the executor cancelled with nothing queued or running and not terminated if and only if it is one of five: the timer, a completion, a cancel event, a concurrency change or the shutdown itself meets a cancelled task that was the last one queued |
| `ExecutorShutdown.RunStallsExactly` | executors/executors_default.go:279-444 | over every run, such a state has been reached if and only if one of these steps was taken |
| `ExecutorShutdown.ShutdownCompletes` | executors/executors_default.go:409-444 | over every run in which no queued task is cancelled, a cancelled executor with nothing queued and nothing running has terminated |
| `ExecutorShutdown.StallLasts` | executors/executors_default.go:279-407 | however a run goes on from there, the executor does not terminate before the next CancelNow |
| `ExecutorScenarios.DelayedStall` | executors/executors_default.go:292-303 | for all limits with room for a task and every delay, the run in which a delayed task is cancelled during a shutdown stalls when the timer fires |
| `ExecutorScenarios.ReadyStall` | executors/executors_default.go:333-349 | with no slot, the run in which the only ready task is cancelled during a shutdown stalls when its event is received |
| `ExecutorScenarios.CancelStarvesReady` | executors/executors_default.go:434-450 | with one slot, the run in which the first of two ready tasks is cancelled just before a completion leaves the second ready with a free slot and nothing under way |
| `ExecutorScenarios.StaleCancelLosesTask` | executors/executors_default.go:343-345 | with one slot, the run in which a ready task is cancelled, handed back, and its event received while another is ready: the list left by the operations of its steps stands for nothing, and from the system with that list the end of the running task leads to termination with the other task New and not handed back |
| `ExecutorScenarios.CancelNowCancelsExactly` | executors/executors_default.go:376-403 | CancelNow changes no task and no execution, so no task is Running afterwards if and only if none was |
| `ExecutorScenarios.CancelNowLeavesRunning` | executors/executors_default.go:376-403 | with one slot, a run in which CancelNow returns and a task is still Running and not cancelled |
| `ExecutorScenarios.WakeupLost` | executors/executors_default.go:292-303 | for all limits with room for a task and every delay, the run of two tasks with one deadline ends with the second due and first on the heap and the timer spent |
| `ExecutorScenarios.ErrorChanges` | executors/executors_default.go:333-337 | for all limits that let a task start, the run in which a task is cancelled while it runs and ends well: it is Done without an error, and then with one |
| `ReadyLists.AgreesExactly` | executors/executors_default.go:343-345 | one operation keeps the linked list and the sequence it stands for in agreement if and only if it does not remove a stale handle from a list that is not empty |
| `ReadyLists.CancelAgreesExactly` | executors/executors_default.go:333-345 | the cancel event keeps the linked list in agreement with the loop's model of it if and only if the model does not call it broken |
| `ReadyLists.StandsForOne` | executors/executors_default.go:378-442 | a linked list stands for one sequence only |
| `ExecutorLists.StepLinksExactly` | executors/executors_default.go:279-444 | the list operations of every step keep the linked list in agreement with the loop's ready list if and only if the step does not spoil it |
| `ExecutorLists.RunListAgrees` | executors/executors_default.go:279-444 | over every run, the linked list left by the operations of the steps so far stands for the ready list of the loop if and only if no stale handle has been removed |
| `ReadyLists.ListAgrees` | executors/executors_default.go:378-442 | over every sequence of pushes, pops, removals and resets without a stale removal the linked list stands for the sequence the loop is modelled on |
| `ReadyLists.SpoiltLoses` | executors/executors_default.go:414-432 | after a stale removal, whatever is queued, taken and cancelled: when the length is zero, some task that was ready or was queued since was never taken out |
| `ReadyLists.SoundLosesNothing` | executors/executors_default.go:378-442 | without a stale removal, the tasks never taken out are exactly those in the list |
| `ExecutorQueue.PushIsInsert` | executors/executors_default.go:453-454 | with deadlines as priorities, pushing on the queue is the loop's sorted insertion |
| `ExecutorQueue.RemoveIsRemove` | executors/executors_default.go:347-349 | removing a handle from the queue is taking its task out of the loop's list |
| `ExecutorQueue.PopIsHead` | executors/executors_default.go:298-299 | peeking and popping give the head of the loop's list |
| `PriorityQueues.RunsAgree` | queue/priority_queue.go:51-77 | every sequence of Push, Pop, Peek and Remove gives the answers of the list sorted by priority and insertion order |
| `PriorityQueues.PushAgrees` | queue/priority_queue.go:51-56 | heap and sorted list stay in agreement over a push |
| `PriorityQueues.PopAgrees` | queue/priority_queue.go:59-61 | the heap pops the head of the sorted list, and the rest agrees with the tail |
| `PriorityQueues.RemoveAgrees` | queue/priority_queue.go:70-77 | removal of any slot agrees with removal of that element from the sorted list |
| `PriorityQueues.InsertIsStable` | queue/priority_queue.go:47-51 | an element is placed behind all of equal or smaller priority number and before all larger ones |
| `PriorityQueues.RootIsLeast` | queue/priority_queue_heap.go:10-16 | the root of a heap has the least priority number, and the least sequence number among those that share it |
| `PriorityQueues.PriorityQueue.Swap` | queue/priority_queue_heap.go:18-22 | two slots are exchanged and every element still knows its slot and heap |
| `PriorityQueues.PriorityQueue.Push` | queue/priority_queue.go:51-56 | the new handle is inserted in the sorted list, back-pointers true |
| `PriorityQueues.PriorityQueue.Pop` | queue/priority_queue.go:59-61 | the head of the sorted list leaves, which has the least priority number and was pushed first among its equals; its handle becomes stale, all other back-pointers true |
| `PriorityQueues.PriorityQueue.Peek` | queue/priority_queue.go:64-66 | the head of the sorted list, which has the least priority number and was pushed first among its equals |
| `PriorityQueues.PriorityQueue.Remove` | queue/priority_queue.go:70-77 | succeeds exactly for handles that are queued here; a stale or foreign one is refused and changes nothing |
| `PriorityQueues.PriorityQueue.Len` | queue/priority_queue.go:80-82 | the length of the sorted list |
| `PartiqlText.ReadDoc` | aws/partiql/builder.go:48-103 | the text of every document, in front of anything that may follow it, is read back as that document |
| `PartiqlText.ParserIsInverse` | aws/partiql/builder.go:48-195 | a text is read as a document if and only if it is the document's canonical text, so the parser accepts nothing else |
| `PartiqlText.RoundTripExactly` | aws/partiql/builder.go:64-79 | the text with unescaped keys is read back as the document if and only if no key contains a quote |
| `PartiqlEncoder.TagOfNameAndOptions` | aws/partiql/tag.go:12-20 | a tag is its name up to the first comma and the options found behind it; without a comma there are none |
| `PartiqlEncoder.FieldTagSays` | aws/partiql/tag.go:12-20 | the tag that counts is that of the first of the encoder's names that the field carries: its name is the text up to the first comma, its options are those that occur behind it |
| `PartiqlEncoder.FieldPairsStand` | aws/partiql/serializer.go:87-143 | a field that is written gives one pair, whose key is the name in its tag if that is not empty and the name of the Go field otherwise; a squashed one gives the pairs of its struct, one that is left out none |
| `PartiqlEncoder.DocStands` | aws/partiql/serializer.go:83-227 | the document of a value says what the value is, by a relation of its own: integers read back, bags and arrays by the tag, elements without a document left out, struct fields under the names of their tags |
| `PartiqlEncoder.PanicsExactly` | aws/partiql/serializer.go:87-130 | encoding panics if and only if it comes, through references, elements, entries and written fields, to a bare nil or to a struct with an array in a field that is not ignored |
| `PartiqlEncoder.EmitIsJoin` | aws/partiql/builder.go:40-46 | what the separator flag writes for a list of values is their comma-join |
| `PartiqlEncoder.EmitPairsIsJoin` | aws/partiql/builder.go:40-71 | what the separator flag writes for keys and values is their comma-join |
| `PartiqlEncoder.SkippedVanishes` | aws/partiql/serializer.go:87-121 | an ignored, unexported, nil or empty-bag field might as well not be there |
| `PartiqlEncoder.SquashInlines` | aws/partiql/serializer.go:83-135 | squashing a struct is writing its fields in its place |
| `PartiqlEncoder.IntReadBack` | aws/partiql/builder.go:81-91 | every integer is read back from its token |
| `PartiqlEncoder.ValueRoundTrip` | aws/partiql/serializer.go:83-227 | the text of a value is read back as its meaning if and only if no key written for it contains a quote |
| `PartiqlEncoder.Builder.WriteSepIfNeeded` | aws/partiql/builder.go:40-46 | a separator is written if and only if one was pending, and one is pending afterwards |
| `PartiqlEncoder.Builder.WriteKey` | aws/partiql/builder.go:64-71 | the key is written unescaped and no separator follows it |
| `PartiqlEncoder.Builder.WriteEndTuple` | aws/partiql/builder.go:55-62 | panics exactly on an end without a begin |
| `PartiqlEncoder.Encoder.Encode` | aws/partiql/serializer.go:63-81 | panics exactly if it comes to a bare nil or an array field; the text is given for every other value; for placed ones it is the plain print of a document that says what the value is, struct fields under the names of their tags, and is read back as it if and only if no written key has a quote |
| `PartiqlEncoder.PlacedWrites` | aws/partiql/serializer.go:83-227 | the text of a value in which every written key has a value and only structs are squashed is the comma-join of its meaning, whatever the separator flag was |
| `PartiqlEncoder.Encoder.Marshal` | aws/partiql/serializer.go:189-227 | for every value that does not panic, its text behind what was there with depth and separator flag right; for placed ones that text is the documents of the value |
| `PartiqlEncoder.Encoder.MarshalCollection` | aws/partiql/serializer.go:145-163 | appends one array or bag of what its elements write, which for placed ones are the elements that have a document |
| `PartiqlEncoder.Encoder.MarshalMap` | aws/partiql/serializer.go:176-187 | appends one tuple of the entries in iteration order, a key without a value included; for placed ones the tuple of the meaning |
| `PartiqlEncoder.Encoder.MarshalStruct` | aws/partiql/serializer.go:83-135 | appends one tuple of the written fields, or only the fields when squashed |
| `PartiqlEncoder.Encoder.MarshalField` | aws/partiql/serializer.go:87-130 | appends nothing for a skipped field, what the value writes for a squashed one, else key and value; for placed ones the pairs that `FieldPairsStand` is about |
| `DynamoUpdates.DocHolds` | aws/dynamodb/update.go:190-197 | an encoded collection contains no placeholder outside quotes and closes all its quotes |
| `DynamoUpdates.PlaceholdersMatch` | aws/dynamodb/update.go:153-220 | a statement whose names and texts fit has as many placeholders outside quotes as parameters, clause by clause in the same order |
| `DynamoUpdates.NamesDecide` | aws/dynamodb/update.go:163-220 | every statement keeps placeholders and parameters in step, clause by clause, if and only if the scanner passes over the names it writes: once for a set field, twice for an increment, twice and with the collection's text for a collection |
| `DynamoUpdates.SetAlignedExactly` | aws/dynamodb/update.go:173-204 | one set clause has as many placeholders as parameters if and only if its names and text fit |
| `DynamoUpdates.NeutralFits` | aws/dynamodb/update.go:173-204 | a name balanced in quotes fits in every clause, with every collection that has a document |
| `DynamoUpdates.IncrementExactly` | aws/dynamodb/update.go:257-271 | the increment clause as the server carries it out gives old value plus v if and only if v is not the smallest int64, and old value minus v then |
| `DynamoUpdates.IncrementOthers` | aws/dynamodb/update.go:272-292 | unsigned and float increments give old value plus the amount |
| `DynamoUpdates.AppendExactly` | aws/dynamodb/update.go:180-201 | for every collection that has a document, the append clause gives a missing field the list that was asked for if and only if no key written for it has a quote |
| `DynamoUpdates.ClauseMeans` | aws/dynamodb/update.go:173-204 | a set clause, with its parameter taken by position and its collection read from the text, gives the field the value that was asked for, if its collection has a document with no quote in a key and its increment is not the smallest int64 |
| `DynamoUpdates.ActsMean` | aws/dynamodb/update.go:153-220 | the clauses of every statement, whatever its names, carried out one by one with their positional parameters, have one effect given without any order: update time set, each set field what its own clause makes of it, removed fields gone, keys bound to their values in the table of the target, and refused exactly when two clauses name one field or a clause does not fit its field |
| `DynamoUpdates.ReadsText` | aws/dynamodb/update.go:163-220 | a reader of the characters alone reads every text of clauses with plain names back as exactly these clauses |
| `DynamoUpdates.StatementReads` | aws/dynamodb/update.go:153-220 | and so the text of every statement with plain names and collections that are documents |
| `DynamoUpdates.StatementMeans` | aws/dynamodb/update.go:153-220 | the text of every such statement, read from its characters with its parameters taken by position, has that effect |
| `DynamoUpdates.SetAllMerges` | aws/dynamodb/update.go:173-204 | set clauses in any order replace exactly the set fields by their new values, or refuse together |
| `DynamoUpdates.OrderDoesNotMatter` | aws/dynamodb/update.go:173-204 | for every update, the clauses built in two iteration orders, each with its own positional parameters, have the same effect; and so have the two texts, if the names are plain and the collections documents |
| `DynamoUpdates.StatementDoesAsAsked` | aws/dynamodb/update.go:153-220 | if the names are plain, every collection has a document with no quote in a key and no increment is the smallest int64, the text with its parameters does what was asked for: numbers plus the amounts, lists and sets with the elements |
| `DynamoUpdates.Update.Set` | aws/dynamodb/update.go:95-105 | a field can be set once; the second time is an error and keeps the first value |
| `DynamoUpdates.Update.IncrementBy` | aws/dynamodb/update.go:138-150 | numbers become an increment of their kind, anything else an error |
| `DynamoUpdates.Update.Build` | aws/dynamodb/update.go:153-220 | the error recorded earlier, a panic of the encoder, or a text and parameters that, with plain names, the server reads as what was sent, and as what was asked for if moreover every clause can carry it |
| `Leases.StepHonest` | distributedlock/distributedlock.go:64-85 | every step of the lease machine keeps: whoever believes in an unexpired lease has it |
| `Leases.Exclusion` | distributedlock/distributedlock.go:64-85 | no two lock objects believe in an unexpired lease at once |
| `PostgresLocks.StepRefines` | distributedlock/distributedlock_postgres.go:85-213 | every statement of every lock object is a step of the lease machine |
| `PostgresLocks.LeaseExclusion` | distributedlock/distributedlock_postgres.go:85-213 | over every run of any number of lock objects: if a local expiration lies after the database clock, the row names that object with at least that expiration, and every other local expiration has passed |
| `PostgresLocks.HolderNeverLapses` | distributedlock/distributedlock_postgres.go:176-213 | over every run of any number of lock objects, a holder that extends within the ttl of its last extension is never refused and stays in the row |
| `PostgresLocks.TryLockExactly` | distributedlock/distributedlock_postgres.go:85-149 | in every state an uninterrupted TryLock has the lock if and only if there is no row or it has expired, and then row and object have the lease of its ttl |
| `PostgresLocks.UnlockReleases` | distributedlock/distributedlock_postgres.go:85-174 | over every run in which nothing is granted after an object unlocked its unexpired row, any object whose uninterrupted TryLock begins later than that has the lock |
| `PostgresLocks.RunCounts` | distributedlock/distributedlock_postgres.go:85-213 | over every run of any number of lock objects the counter in the row grows by every extension of any object and by nothing else |
| `PostgresLocks.CountExactly` | distributedlock/distributedlock_postgres.go:117-125 | over every run from the empty table in which an object takes the lock and keeps it, its next extension reports the number of extensions since it took the lock if and only if nobody had extended the row before |
| `PostgresLocks.TakeoverMiscounts` | distributedlock/distributedlock_postgres.go:117-125 | for every ttl, the run acquire, extend, expire, takeover, extend: the first extension of the new holder reports two |
| `PostgresLocks.PostgresLock.TryLock` | distributedlock/distributedlock_postgres.go:85-149 | locks exactly when there is no row or it has expired; then the row has this object, now plus ttl and the old counter; otherwise the table is untouched |
| `PostgresLocks.PostgresLock.Unlock` | distributedlock/distributedlock_postgres.go:151-174 | an own unexpired row expires now and nothing else of the table changes, any other row stays, and the local state is cleared in any case |
| `PostgresLocks.PostgresLock.Extend` | distributedlock/distributedlock_postgres.go:176-213 | extends and counts exactly an own unexpired row, and clears the local state otherwise |
| `RedisLocks.StepRefines` | distributedlock/distributedlock_redis.go:71-185 | every script is a step of the same lease machine |
| `RedisLocks.LeaseExclusion` | distributedlock/distributedlock_redis.go:71-152 | over every run an object whose granted lease is unexpired holds the lock key and no other granted lease is unexpired |
| `RedisLocks.HolderNeverLapses` | distributedlock/distributedlock_redis.go:141-185 | over every run, a holder that extends within the lease length of its last extension is never refused and keeps the lock key |
| `RedisLocks.RunKeeps` | distributedlock/distributedlock_redis.go:71-152 | over every run, while the lock key holds an id its counter is live, expires no earlier, and is the number of extensions since it acquired the lock |
| `RedisLocks.ExtendAnswers` | distributedlock/distributedlock_redis.go:141-164 | over every run the extend script answers 0 if and only if it did not extend, and otherwise the number of extensions |
| `RedisLocks.RedisLock.TryLock` | distributedlock/distributedlock_redis.go:81-103 | fails exactly for a ttl under a millisecond, and otherwise locks exactly when the key is missing or has expired; then the key has this object for the ttl in milliseconds and a counter of zero with the same expiry; otherwise the server is unchanged |
| `RedisLocks.RedisLock.Unlock` | distributedlock/distributedlock_redis.go:113-139 | a key held by the object is gone with its counter, any other server state is unchanged, and the local state is cleared |
| `RedisLocks.RedisLock.Extend` | distributedlock/distributedlock_redis.go:154-185 | reports success exactly when the object held the key, which then runs for the ttl from now; the count is one more than the live counter, whose expiry is counted in seconds, or one |
| `AutoExtends.PgAutoExtendExactly` | distributedlock/distributedlock.go:103-143 | over every run of any number of Postgres lock objects, some extension of the loop is refused if and only if in some turn response, scheduling and request delay total ttl - ttl/2 or more; until then the row names the holder |
| `AutoExtends.RedisAutoExtendExactly` | distributedlock/distributedlock.go:103-143 | the same for Redis, with the lease of ttl cut to milliseconds in place of the ttl |
| `AutoExtends.PgAutoExtend` | distributedlock/distributedlock.go:103-143 | the loop refuses to begin exactly on an object that is not locked, and ends in the first turn whose delays use up the budget |
| `AutoExtends.RedisAutoExtend` | distributedlock/distributedlock.go:103-143 | the same loop over the Redis scripts |
| `AutoExtends.PgAcquiredIsGranted` | distributedlock/distributedlock_postgres.go:85-149 | a Postgres lock that was just acquired is one that the loop may begin with |
| `AutoExtends.RedisAcquiredIsGranted` | distributedlock/distributedlock_redis.go:81-103 | a Redis lock that was just acquired is one that the loop may begin with |
| `AutoExtends.RedisBudget` | distributedlock/distributedlock_redis.go:154-161 | the Redis lease, ttl cut to milliseconds, leaves a budget if and only if the ttl is at least a millisecond |
| `NestedTransactions.RunMeaning` | database/database.go:138-219 | from any savepoint stack, a well-nested program changes the data by exactly the writes whose every enclosing sub-transaction committed, and leaves the stack below alone |
| `NestedTransactions.SubRun` | database/database.go:138-162 | a sub-transaction finds its own savepoint although rolled-back ones stay on the stack, and keeps or undoes exactly its own writes |
| `NestedTransactions.FindOwn` | database/database.go:138-162 | a sub-transaction finds its own savepoint if and only if none of those left above it has its name |
| `NestedTransactions.EndsExactly` | database/database.go:138-162 | its commit takes the stack back to where it was opened, and its rollback takes data and stack back to its savepoint, if and only if none of those left above has its name |
| `NestedTransactions.SameNameBreaks` | database/database.go:195 | with two savepoints of one name a rolled-back write survives |
| `NestedTransactions.DBTx.Commit` | database/database.go:138-149 | a root publishes, a sub-transaction releases its savepoint; a closed one panics and changes nothing |
| `NestedTransactions.DBTx.Rollback` | database/database.go:151-162 | a root discards, a sub-transaction rolls back through its parent; if it or its parent is closed, the call panics and changes nothing |
| `NestedTransactions.DBTx.DeferredCommitOrRollback` | database/database.go:103-137 | a failed caller is rolled back and nothing is published, any other is committed; a commit that fails is reported |
| `NestedTransactions.DBTx.WithTx` | database/database.go:191-219 | an open transaction in the context gets a savepoint and stays in the context; otherwise a root is begun |
| `NestedTransactions.Transact` | database/database.go:138-219 | a root transaction whose every part ends with the deferred commit or rollback publishes exactly the kept writes on commit and nothing on rollback |
| `SyncMaps.StepKeepsInv` | sync/map.go:25-59 | every step of any goroutine keeps mutual exclusion and the count of generator calls, and replaces no stored value; only Delete takes one away |
| `SyncMaps.InitialiseOnce` | sync/map.go:25-59 | over every run of any number of goroutines the generator is called for a key at most once more than its value was deleted, callers given the value of one generator call get the same value, and without deletions there is one call and all callers get the value in the map |
| `SyncMaps.PresentAlone` | sync/map.go:25-29 | a caller that finds its key present is given the value in the map, and nothing changes |
| `SyncMaps.LateAlone` | sync/map.go:32-36 | one that finds it present behind the lock is given that value, releases the lock and calls no generator |
| `SyncMaps.CalledAgainExactly` | sync/map.go:35-38 | a step calls the generator again for a key if and only if it is the second look, behind the lock, at a missing key whose value has been deleted before |
| `SyncMaps.DeleteStartsOver` | sync/map.go:57-59 | a run in which a deletion makes the generator be called twice for one key, with two values |
| `SyncMaps.Map.LoadOrStoreFunc` | sync/map.go:25-41 | the value returned is the one in the map; an existing one is kept, and one that others stored while the lock was waited for wins over the generator |

## Left out

- Executors.DefaultExecutor.TaskCanceled: after the removal of a stale handle the loop's fields are not followed further; a pop that finds the root of the list is a panic in the code.
- The branch of the event loop on the executor's own context: it only sends the cancel event.
- Task values, contexts, goroutines, channels and `time.Timer` internals: kept as atomic steps, a clock and an armed time. A panic in a task body is an error like any other.
- Executors.DefaultExecutor.ConfigureSchedulerTimer: stopping and draining the timer channel; a stale tick is not modelled.
- Submitting: task ids are chosen by the step and are new, and a submitter that found the executor open may deliver after it was cancelled, as in the code; one blocked for ever after termination is a submit that is never delivered.
- TaskRaces.PublishedClosedExactly: the fields `err`, `value` and `canceled` are not part of the single-step model, nor are torn reads of them.
- PriorityQueues.PriorityQueue.Push: the wrap-around of the 64-bit sequence number.
- PriorityQueues.PriorityQueue.Pop: on an empty queue, where the code panics on a slice index.
- Queues shared between goroutines, which the code does not promise.
- User-defined marshalling, time values and float formatting: floats arrive as numeric tokens; map iteration order is the order of the entries. Embedded fields come as the fields of their struct.
- NULL and the typed array and bag writers of the builder, which the serializer does not call.
- DynamoUpdates.StatementMeans: texts with names that are not plain, whose clauses are in `ActsMean`; removal of a single list element; the server is taken to read collections as `Parse` does, to refuse a set operation on a missing attribute, and to refuse two clauses on one field; parameters are marshalled by the SDK.
- The `Lock` retry loops, the schema set-up of Postgres and the local file lock, which is no lease.
- AutoExtends.PgAutoExtend: an extension that fails with an error, on which the loop ends as well, and the caller's own cancellation.
- PostgresLocks.PostgresLock.TryLock: failing statements and commits, and the rounding of ttl to the server's time.
- RedisLocks.RedisLock.TryLock: the PTTL answer is taken at the time of the script; the local expiration is not part of the exclusion claim.
- NestedTransactions.DBTx.DeferredCommitOrRollback: a panic in a transaction, on which the code exits the process; failing statements and aborted transactions.
- SyncMaps.InitialiseOnce: `Store` and `LoadOrStore` beside the generator, and generators that do not return; `Clear` is a sequence of deletions.
- Configuration, secrets, dependency injection, HTTP, logging, caches, errors, functional helpers: wiring, I/O or easy members.

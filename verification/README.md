# A verified model of the RTOS kernel

A Dafny model of a small preemptive real-time kernel: eight round-robin ready rings, mutexes with
priority inheritance and direct handoff, counting semaphores and message queues whose callers retry
after a wake-up, timeouts driven by the tick, a first-fit heap, software timers, and the creation and
deletion of tasks. Verify it with `dafny verify dfyconfig.toml`.

## How it is built

The kernel is a state machine whose steps are the C critical sections, the tick interrupt and the
dispatch. It exists in two forms, and the second is proved to do exactly what the first does.

* **As a value.** `KernelState` holds one record for everything the critical sections read and write,
  with each ring and wait list as the sequence it stands for, and one function per critical section.
  `Placement` and `Steps` prove that every step keeps the invariant `Inv`; `Runs` puts steps together
  into runs. `Outcomes` says, field by field, what each step leaves behind. On runs rest `Inheritance`
  (exact priority inheritance, no inversion), `Wakeups` (no lost wake-up), `Ledger` (units and messages
  are conserved), `Timeouts` (exact deadlines), `Requests` (a call goes on with its own arguments, a
  mutex stays with its owner) and `RoundRobin` (bounded waiting). `Boot` is the state after `task_init`.
  `Guards` and `SplitCalls` give, for each condition put on runs, the exact circumstances in which a
  step keeps its promise, and `Witnesses` a state in which it does not.
* **In place.** `Links` says when head, tail and link fields spell out a sequence. `Machine.Rtos` is a
  class with those fields; each method is proved against the function it implements, `Perform` against
  any step and `RunAll` against any run, so what is proved of runs holds of the linked memory.
* **Heap.** `FreeList` and `HeapModel` are blocks as values; `HeapPool.Pool` edits headers inside an
  array of 8192 words. `TimerModel`, `TimerTick` and `TimerRuns` are timers as values;
  `TimerList.TimerService` is the linked list. `MessageQueue` has both forms in one file.
* **The whole.** `SystemModel` and `SystemRuns` join tasks and heap; `TaskMemory.Board` does
  `task_create` and `task_delete` in place.

A task's `call` field is its program counter inside a blocking call: `Invoke` is the first turn of the
retry loop, `Resume` what the task does once it runs again after `rtos_block_current`.

## Conditions on runs

Each is a guard of a step or of a run. For each there is a theorem that says exactly when the step keeps
what the guard protects, and in `Witnesses` a concrete state in which it does not.

* Enqueuing on a wait list and blocking are one step. For semaphores and queues, a wake-up that falls
  between the two leaves every task in its place if and only if somebody was waiting already
  (`SplitCalls.SplitWaitPlacedIff`; with dispatches on either side, `SplitCalls.SplitWaitLaterIff`).
  Otherwise the task ends up BLOCKED in no list and no ring, and the tasks behind it in its ring are lost
  (`SplitCalls.SplitWaitMisplaces`). For a mutex, an unlock between the two goes to the newcomer, and
  leaves it BLOCKED outside the list of the mutex it owns, if and only if every earlier waiter has a
  larger priority value (`SplitCalls.SplitLockIff`, `SplitCalls.OwnerLockedOut`).
* An unlock must leave its RUNNING caller in the bucket it has: the rings are right afterwards if and only
  if it does (`Guards.UnlockPlacesCallerIff`). `Guards.UnlockKeepsTheRest` says that everything
  else holds, and `Guards.MisplacedCallerRunsAgain` and `Guards.MisplacedCallerBlocksInRing` what follows
  otherwise.
* For the inheritance results only: a task that owns a mutex does not ask for another one. With two
  mutexes the first unlock keeps the caller above the other's waiters if and only if its base priority
  does (`Guards.NestedUnlockIff`), and a boost does not travel past the owner of the mutex asked for
  (`Guards.InheritanceStopsAtOwner`).
* A deleted task owns no mutex: the invariant survives if and only if it owns none
  (`Guards.DeleteKeepsInvIff`). For the wake-up results only, it has no wake-up still to use; the exact
  condition is `Guards.DeleteWokenIff`.
* For the deadline results only: the tick counter does not wrap, and no deadline wraps or equals
  UINT32_MAX. `Timeouts.DelayStartsSleep` and `Timeouts.CallDeadlineIff` are
  equivalences; `Timeouts.DelayOverAtOnceIff`, `Timeouts.CallOverAtOnceIff`, `Timeouts.DelayNeverEnds` and
  `Timeouts.CallNeverTimesOut` are the two ways to fail.
* A heap request does not clash: it is not one of the eight sizes whose block size wraps to 0 made while
  the first free block can be split. The pool keeps a tiling if and only if it does not
  (`HeapModel.RequestKeepsTilingIff`, and `HeapPool.Pool.Alloc` on the words of the pool).
* A timer is started only while it is not armed: the links spell out a list afterwards if and only if it
  was not (`TimerList.StartKeepsLinksIff`), and its expiry lies ahead if and only if it does not pass 32
  bits (`TimerModel.StartSettlesIff`). A tick does not find a due periodic timer whose next expiry wraps:
  the expiry loop ends if and only if there is none (`TimerTick.EndsIff`).

## Where the code and its documentation differ

`RTOS_MAX_TASKS` is documented as the number of tasks besides idle, but the registry count that
`task_create` compares with it includes the idle task, so 31 others fit (`SystemRuns.TaskLimit`).
The model follows the code.

## Model

| member | source | states |
|---|---|---|
| `Types.BucketMonotone` | src/core/task.c:31-40 | the bucket never decreases as the priority value grows |
| `Types.Bucket` | src/core/task.c:31-40 | each bucket is 32 consecutive priority values |
| `Runs.Step` | src/core/scheduler.c:33-191 | every kernel step keeps the whole invariant: each READY or RUNNING task is in exactly the ring of its bucket, each BLOCKED one in exactly the wait list of its block object, all lists disjoint, at most one task RUNNING and it is the current one, and the facts about mutexes, calls, counts and the registry |
| `Runs.Exec` | src/core/task.c:239-338 | the invariant holds at the end of every run of steps in any legal order |
| `Runs.ScanFrom` | src/core/task.c:302-338 | the registry scan of a tick keeps the invariant and touches no registry entry, object or tick count |
| `Steps.LockKeepsInv` | src/sync/mutex.c:218-259 | a turn of mutex_lock (recursive, free, or join, boost and block) keeps the invariant |
| `Steps.UnlockKeepsInv` | src/sync/mutex.c:261-297 | an unlock that leaves its caller's bucket alone keeps the invariant, handoff included |
| `Steps.SetPriorityKeepsInv` | src/core/scheduler.c:138-153 | a priority change keeps the invariant: a READY task moves to its new ring, a BLOCKED one is relabelled |
| `Steps.HandoffKeepsInv` | src/sync/mutex.c:284-292 | giving a mutex to any of its waiters and readying it keeps the invariant |
| `Steps.WaitKeepsInv` | src/core/block.c:29-43 | joining a wait list and blocking, as one step, keeps the invariant |
| `Steps.DelayKeepsInv` | src/core/task.c:282-298 | a delay keeps the invariant: the sleeper is in no ring and in no wait list |
| `Steps.WakeKeepsInv` | src/sync/semaphore.c:80-98 | a wake-up by time keeps the invariant, whatever the task waited for |
| `Steps.WakeHeadKeepsInv` | src/ipc/msgqueue.c:80-92 | waking the first waiter of a semaphore or queue keeps the invariant |
| `Steps.SemWaitKeepsInv` | src/sync/semaphore.c:144-162 | a turn of semaphore_wait keeps the invariant |
| `Steps.PostKeepsInv` | src/sync/semaphore.c:172-190 | semaphore_post keeps the invariant and the count within its maximum |
| `Steps.SendKeepsInv` | src/ipc/msgqueue.c:163-189 | a turn of msg_queue_send keeps the invariant |
| `Steps.RecvKeepsInv` | src/ipc/msgqueue.c:205-231 | a turn of msg_queue_recv keeps the invariant |
| `Steps.WakeIfDueKeepsInv` | src/core/task.c:311-336 | one turn of the registry scan keeps the invariant |
| `Steps.CreateKeepsInv` | src/core/task.c:225-233 | adding a new task keeps the invariant and the registry limit |
| `Steps.DeleteKeepsInv` | src/core/task.c:253-261 | deleting a task that owns no mutex keeps the invariant |
| `Steps.DispatchKeepsInv` | src/core/scheduler.c:158-191 | a dispatch keeps the invariant |
| `Steps.RingOccupied` | src/core/task.c:161-172 | in every good state the idle task is in ring 7, so some ring is occupied |
| `Steps.DispatchSelects` | src/core/scheduler.c:169-191 | in every good state a dispatch takes the head of the lowest-numbered occupied ring and never reaches the fallback or the final spin |
| `Outcomes.LockTakesFree` | src/sync/mutex.c:240-245 | a lock of a free mutex makes the caller its owner, leaves it RUNNING in its own code, and touches no other mutex, task, ring, list or object |
| `Outcomes.LockByOwner` | src/sync/mutex.c:235-238 | the owner's own lock returns and changes nothing |
| `Outcomes.LockWaits` | src/sync/mutex.c:248-254 | a lock of another task's mutex leaves the caller BLOCKED at the end of its list with the deadline and the very call it asked for; the owner gets the least of its own and all the waiters' priorities, moves only if it is READY and its bucket changes, and nobody else is touched |
| `Outcomes.SemWaitTakes` | src/sync/semaphore.c:147-151 | with a unit there, one is taken and the caller runs on in its own code, and nothing else changes |
| `Outcomes.SemWaitWaits` | src/sync/semaphore.c:153-157 | with none, the caller is BLOCKED at the end of the list with the very call it made, in no ring, and nothing else changes |
| `Outcomes.PostOutcome` | src/sync/semaphore.c:172-190 | a post below the maximum adds one unit and readies the first waiter at the tail of its ring; at the maximum it changes nothing |
| `Outcomes.SendPuts` | src/ipc/msgqueue.c:166-178 | with room, the message given is appended, the first receiver is readied, the caller runs on, and nothing else changes |
| `Outcomes.SendWaits` | src/ipc/msgqueue.c:180-187 | without room, the caller is BLOCKED at the end of the senders, to send the very message it was given, and no queue changes |
| `Outcomes.RecvGets` | src/ipc/msgqueue.c:208-220 | with a message there, the oldest is removed, the first sender is readied, the caller runs on, and nothing else changes |
| `Outcomes.RecvWaits` | src/ipc/msgqueue.c:222-229 | without, the caller is BLOCKED at the end of the receivers and no queue changes |
| `Outcomes.UnlockOutcome` | src/sync/mutex.c:275-296 | an unlock by the owner gives the caller its base priority, hands the mutex to one waiter that is READY with its other fields as they were, or frees it, and touches no other task, list or object |
| `Outcomes.UnlockRings` | src/sync/mutex.c:284-292 | the new owner goes to the tail of its ring, and nobody else changes place |
| `Outcomes.UnlockByOther` | src/sync/mutex.c:270-273 | an unlock by anybody else changes nothing |
| `Outcomes.EnterOutcome` | src/sync/mutex.c:232-258 | a turn of any blocking call returns its caller to its own code exactly when what it asks for is there, and otherwise leaves it BLOCKED with the same object, timeout and message |
| `Outcomes.CompletedTurn` | src/ipc/msgqueue.c:166-178 | a turn that returns has done what was called for: mutex owned, unit taken, message appended or removed |
| `Outcomes.ResumeOutcome` | src/sync/semaphore.c:157-160 | a task back from a timeout or a delay returns and changes nothing else; any other takes the next turn of the call it made, with its own timeout and message |
| `Outcomes.DelayOutcome` | src/core/task.c:282-298 | a delay leaves the caller asleep until now + ticks in 32 bits, out of its ring and in no list, and touches nothing else |
| `Outcomes.DispatchOutcome` | src/core/scheduler.c:158-180 | the head of the lowest-numbered occupied ring runs and goes to its tail, the task that ran before is READY, and nothing else changes |
| `Outcomes.CreateOutcome` | src/core/task.c:189-233 | a new task has exactly the priority and base priority asked for, the bucket of that, is READY at the tail of that ring and inside no call; all else is unchanged, and all is at the limit |
| `Outcomes.DeleteOutcome` | src/core/task.c:239-261 | a deletion takes away the task's record and touches no other task and no object |
| `Requests.RunRemembers` | src/ipc/msgqueue.c:148-189 | over any run, a task inside a blocking call still has the object, the timeout and the message it called with |
| `Requests.TurnIsPatient` | src/core/block.c:35-37 | a turn of a call with timeout 0 that blocks, first or retry, has wake time UINT32_MAX at every tick |
| `Requests.WaitForEver` | src/core/task.c:316-317 | in any run and after any number of retries, a task that called with timeout 0 is left alone by every tick while it waits |
| `Requests.StepOwner` | src/sync/mutex.c:235-292 | a step changes the owner of a mutex only by that owner's unlock, or when the running task locks a free one and becomes its owner |
| `Requests.OwnerKeepsMutex` | src/sync/mutex.c:270-292 | in every run a mutex stays with its owner until the owner unlocks it |
| `Requests.LockReturnsToOwner` | src/sync/mutex.c:232-258 | whenever a turn of mutex_lock, first or later, returns without a timeout, the caller owns the mutex |
| `KernelState.FirstOccupied` | src/core/scheduler.c:169-170 | the ring the scan stops at is occupied and every lower-numbered one is empty |
| `KernelState.MinPrio` | src/sync/mutex.c:17-36 | the result is the priority value of some waiter and at most that of every waiter |
| `KernelState.Best` | src/sync/mutex.c:146-157 | the position found has the least priority value, strictly less than every earlier waiter's |
| `Inheritance.LockExact` | src/sync/mutex.c:248-250 | a contended lock leaves the owner with the minimum of its base and of every priority that has waited since it acquired, the new waiter's included |
| `Inheritance.UnlockExact` | src/sync/mutex.c:277-292 | an unlock leaves the old owner at its base priority and the new owner exact against the remaining waiters, without a re-boost |
| `Inheritance.InheritanceIsExact` | src/sync/mutex.c:38-87 | at every point of every run without nested locking, each owner's priority is exactly that minimum, every waiter's priority is accounted for, and everybody else has its base priority |
| `Inheritance.OwnerOutranksWaiters` | src/sync/mutex.c:53-62 | hence an owner's priority value and bucket are at most those of each current waiter |
| `Inheritance.DispatchPrefers` | src/core/scheduler.c:169-178 | a dispatch passes over no runnable task of a lower-numbered bucket |
| `Inheritance.NoInversion` | src/core/scheduler.c:138-180 | while a task waits on a mutex whose owner can run, no task of a bucket above the waiter's is dispatched |
| `Boot.BootedIsGood` | src/core/task.c:143-176 | the state after task_init, with any initialised objects, satisfies every invariant the run theorems start from; idle, of priority 255 and READY, is the only task, and every mutex is free |
| `Boot.NoInversionInAnyRun` | src/sync/mutex.c:38-68 | from boot, at the end of any run without nested locking, the next dispatch is free of inversion |
| `Wakeups.NoWakeupIsLost` | src/sync/semaphore.c:144-190 | in every run that deletes no woken task, waiters on a semaphore or either side of a queue imply that what is available is at most the number of woken tasks yet to retry, under barging, timeouts and re-enqueuing |
| `Wakeups.SendLosesNothing` | src/ipc/msgqueue.c:163-188 | a turn of msg_queue_send keeps that on every list |
| `Wakeups.RecvLosesNothing` | src/ipc/msgqueue.c:205-230 | a turn of msg_queue_recv keeps that on every list |
| `Wakeups.SemWaitLosesNothing` | src/sync/semaphore.c:144-161 | a turn of semaphore_wait keeps that on every list |
| `Wakeups.PostLosesNothing` | src/sync/semaphore.c:164-191 | semaphore_post keeps that on every list |
| `Wakeups.NeverBothStuck` | src/ipc/msgqueue.c:80-117 | senders and receivers never wait on the same queue with nobody woken |
| `Ledger.UnitsAreConserved` | src/sync/semaphore.c:144-190 | after any run the count is the initial count plus successful posts minus the wait calls that returned without a timeout, first turn or retry, and at most the maximum |
| `Ledger.MessagesAreConserved` | src/ipc/msgqueue.c:163-231 | over any run, what a queue held followed by the messages that the returning sends were called with is all that was received followed by what it holds |
| `Ledger.ReceivedIsPrefixOfSent` | src/ipc/msgqueue.c:208-214 | from an empty queue, the messages received are a prefix of those that the returning sends were called with |
| `MessageQueue.PutAppends` | src/ipc/msgqueue.c:166-172 | writing the slot at the tail appends to the sequence read from the head modulo the depth, touching no slot in use |
| `MessageQueue.GetRemoves` | src/ipc/msgqueue.c:208-214 | reading the slot at the head removes the first message and keeps the rest in order |
| `MessageQueue.MessageRing.constructor` | src/ipc/msgqueue.c:135-147 | a new queue over the caller's storage is well formed and empty |
| `MessageQueue.MessageRing.Write` | src/ipc/msgqueue.c:169-172 | the in-place byte copy and the index updates append one message |
| `MessageQueue.MessageRing.Read` | src/ipc/msgqueue.c:211-214 | the in-place read returns the oldest message and removes it |
| `Timeouts.TickIsExact` | src/core/task.c:302-338 | a tick wakes exactly the due tasks, each with the status its kind of wait gives, appends each once to its own ring in registry order and takes each off its wait list, which keeps the others in order; every other task is unchanged |
| `Timeouts.NobodyOversleeps` | src/core/task.c:316-319 | in every run within 32 bits no task stays blocked past a finite deadline |
| `Timeouts.DelayStartsSleep` | src/core/block.c:35-43 | a delay of n at tick T sleeps until exactly T + n if and only if T + n is below UINT32_MAX |
| `Timeouts.DelayOverAtOnceIff` | src/core/block.c:39 | a delay is over right after the next tick if and only if it was for one tick or its deadline wrapped |
| `Timeouts.DelayNeverEnds` | src/core/task.c:316-317 | a delay whose deadline is UINT32_MAX is never over, in any run that does not delete the task |
| `Timeouts.SleepEndsExactlyOnTime` | src/core/task.c:321-326 | through any run a sleeper stays asleep until the tick that reaches its deadline and is READY right after it |
| `Timeouts.TimedWaitEnds` | src/sync/mutex.c:176-195 | a timed wait that began with deadline T + n is over by tick T + n |
| `Timeouts.CallBlocksNoLonger` | src/sync/mutex.c:248-257 | a call made at tick T with timeout n that blocks leaves its caller blocked at no tick from T + n on, whatever the rest of the run |
| `Timeouts.CallDeadlineIff` | src/core/block.c:35-43 | a call that blocks has the finite deadline T + n if and only if that is below UINT32_MAX, and none if and only if it equals it |
| `Timeouts.CallOverAtOnceIff` | src/core/task.c:316-336 | a call that blocks is over right after the next tick if and only if it was for one tick or its deadline wrapped |
| `Timeouts.CallNeverTimesOut` | src/core/task.c:316-317 | with timeout 0, or T + n equal to UINT32_MAX, no tick ends the wait, however long the run |
| `Timeouts.CallSetsDeadline` | src/core/block.c:35-40 | a call that blocks has wake time UINT32_MAX when its timeout is 0, at every tick, and T + n in 32 bits otherwise |
| `RoundRobin.DispatchAdvances` | src/core/scheduler.c:169-178 | a dispatch from ring p moves its head to the tail and everybody else one place forward |
| `RoundRobin.BoundedWaiting` | src/core/scheduler.c:52-133 | a task k places from the head of ring p is dispatched within k + 1 dispatches while no lower-numbered ring is occupied, whatever joins, leaves or changes rings |
| `RoundRobin.FullTurn` | src/core/scheduler.c:169-178 | n dispatches of an unchanged ring of n tasks pick each once and restore the ring |
| `Guards.LockBlocksAtMostOnce` | src/sync/mutex.c:232-259 | a task back from its wait in mutex_lock either owns the mutex and returns OK at once, or timed out and is neither owner nor waiter |
| `Guards.NoOvertaking` | src/sync/mutex.c:235-252 | while somebody waits, a newcomer leaves the owner in place and joins the end of the list |
| `Guards.HandoffPicksBest` | src/sync/mutex.c:277-292 | an unlock gives the mutex to the earliest-enqueued waiter of least priority value, READY from then on, and leaves the others in order; with no waiter it is free |
| `Guards.WakesLongestWaiting` | src/ipc/msgqueue.c:62-92 | a wake-up takes the waiter that came first to the tail of its ring and touches nobody else |
| `Guards.UnlockPlacesCallerIff` | src/sync/mutex.c:277 | after an unlock the rings are right if and only if the caller's base priority is in the bucket it already has |
| `Guards.UnlockKeepsTheRest` | src/sync/mutex.c:275-295 | after any unlock by the owner every part of the invariant but the rings holds, and the rings are wrong, if at all, at the caller alone |
| `SplitCalls.SplitWaitPlacedIff` | src/sync/semaphore.c:153-187 | for a semaphore or a queue: after a wake-up between a task's enqueue and its block, every task is in its place if and only if somebody was waiting before |
| `SplitCalls.SplitWaitLaterIff` | src/ipc/msgqueue.c:180-184 | with any number of dispatches before and after that wake-up, the wait lists are right if and only if somebody was waiting before |
| `SplitCalls.SplitWaitMisplaces` | src/core/scheduler.c:64-72 | otherwise the second insertion cuts the ring behind the task and the block takes the task out: it is BLOCKED in no wait list and no ring, and the READY tasks behind it are in no ring either |
| `SplitCalls.SplitLockIff` | src/sync/mutex.c:248-254 | an unlock by the owner between a newcomer's enqueue and its block gives the mutex to the newcomer, and leaves it BLOCKED outside the list, if and only if every earlier waiter has a larger priority value |
| `SplitCalls.OwnerLockedOut` | src/sync/mutex.c:254-257 | then the owner is BLOCKED on its own mutex in no wait list, and its timeout tells it that it does not have the mutex |
| `SplitCalls.PopHeadWakes` | src/ipc/msgqueue.c:80-92 | in a good state the wake-up as it finds the list is the wake-up of the model |
| `SplitCalls.UnlockNowIs` | src/sync/mutex.c:270-297 | in a good state the unlock as it finds the list is the unlock of the model |
| `Guards.MisplacedCallerRunsAgain` | src/core/scheduler.c:144-178 | after an unlock across buckets by the only task of its ring, the next dispatch takes the de-boosted caller again, ahead of the new owner |
| `Guards.MisplacedCallerBlocksInRing` | src/core/block.c:42-43 | if that caller then delays, it is BLOCKED and still in its old ring |
| `Guards.NestedUnlockIff` | src/sync/mutex.c:79-86 | with two mutexes held, after unlocking one the caller outranks every waiter of the other if and only if its base priority does |
| `Guards.InheritanceStopsAtOwner` | src/sync/mutex.c:38-68 | when the owner o of the mutex asked for itself waits on a mutex of p, p still outranks o afterwards if and only if p outranks the newcomer |
| `Guards.DeleteKeepsInvIff` | src/core/task.c:239-268 | deleting a task keeps the invariant if and only if the task owns no mutex |
| `Guards.DeletedOwnerKeepsMutex` | src/core/task.c:253-261 | otherwise the mutex stays locked by a task that no longer exists |
| `Guards.DeleteWokenIff` | src/core/task.c:255-261 | deleting a woken task loses no wake-up, on any object, if and only if nobody waits there or more tasks are woken than there is to take |
| `Links.RingTail` | src/core/scheduler.c:66-69 | the walk ends at the last node of the ring |
| `Links.RingFind` | src/core/scheduler.c:94-109 | the walk finds the task exactly when it is in the ring, with the node before it |
| `Links.ListFind` | src/sync/mutex.c:98-119 | the walk finds the waiter exactly when it is in the list, with the node before it |
| `Links.RingReinserted` | src/core/scheduler.c:63-72 | inserting a task that is in the ring already leaves the ring up to that task |
| `Links.NoRingHoldsTwice` | src/core/scheduler.c:63-72 | no links make a ring that holds a task twice |
| `Machine.MinWaitPriority` | src/sync/mutex.c:17-36 | the walk over the links yields the minimum over the list they spell out |
| `Machine.FindBest` | src/sync/mutex.c:146-157 | the walk finds the earliest waiter of least priority value, with the node before it |
| `Machine.Rtos.constructor` | src/core/task.c:147-175 | the memory after initialisation stands for the booted kernel |
| `Machine.Rtos.RingInsert` | src/core/scheduler.c:52-73 | the links then spell out the ring with the task at its tail, or cut behind the task when it was in that ring already; no other ring changes |
| `Machine.Rtos.RingDelete` | src/core/scheduler.c:78-133 | the links then spell out the ring without the task, unchanged when it was absent |
| `Machine.Rtos.AddTask` | src/core/scheduler.c:33-50 | a task joins the tail of its ring and is READY unless blocked |
| `Machine.Rtos.Rebucket` | src/core/scheduler.c:144-149 | a READY task moves from its ring to the tail of the new one |
| `Machine.Rtos.ChangePriority` | src/sync/mutex.c:79-86 | the priority and bucket change, and only a READY task whose bucket differs changes rings |
| `Machine.Rtos.WaitEnqueue` | src/sync/mutex.c:122-133 | the list grows by one at its end, and head and tail stay the first and last node of every list |
| `Machine.Rtos.WaitUnlink` | src/sync/mutex.c:89-120 | the list loses the task and keeps its order; head and tail stay right, NULL when it empties |
| `Machine.Rtos.WaitPopHighest` | src/sync/mutex.c:135-174 | removes the earliest-enqueued waiter of least priority value and keeps the order of the rest; NULL and no change for an empty list |
| `Machine.Rtos.WaitPopHead` | src/sync/semaphore.c:62-78 | removes the first waiter and keeps the rest; NULL and no change for an empty list |
| `Machine.Rtos.WakeBlocked` | src/sync/mutex.c:176-195 | a timed-out task leaves its wait list and joins its ring with the given status |
| `Machine.Rtos.WakeFirst` | src/ipc/msgqueue.c:80-92 | the first waiter, if any, is readied with its status as it was |
| `Machine.Rtos.PopFirst` | src/sync/semaphore.c:179-186 | the same for a first waiter that has not blocked yet |
| `Machine.Rtos.SplitTurn` | src/sync/semaphore.c:153-187 | enqueue, wake-up and block in place do what the split step does |
| `Machine.Rtos.FirstReady` | src/core/scheduler.c:169-170 | the scan of the heads finds the lowest-numbered occupied ring |
| `Machine.Rtos.GetNext` | src/core/scheduler.c:158-191 | the in-place dispatch, fallback included, does what the step does |
| `Machine.Rtos.Block` | src/core/block.c:20-46 | sets the block fields and the deadline, UINT32_MAX for timeout 0 and the 32-bit sum otherwise, and leaves the ring, and nothing else |
| `Machine.Rtos.ApplyInheritance` | src/sync/mutex.c:38-68 | raises the owner to the minimum over the linked list of waiters, never lowers it |
| `Machine.Rtos.LockTurn` | src/sync/mutex.c:232-258 | one turn in place does what the step does; it returns OK exactly to the owner, with the mutex taken when it was free, and says Suspended exactly when the caller is BLOCKED with the call it made |
| `Machine.Rtos.Handoff` | src/sync/mutex.c:278-292 | passes the mutex to the best waiter or leaves it unlocked |
| `Machine.Rtos.HandoffNow` | src/sync/mutex.c:284-292 | the same for a waiter that has not blocked yet |
| `Machine.Rtos.UnlockSection` | src/sync/mutex.c:270-297 | the in-place unlock does what the step does; a caller that is not the owner gets ERR_OWNER and changes nothing |
| `Machine.Rtos.SemWaitTurn` | src/sync/semaphore.c:144-161 | one turn in place does what the step does; OK means one unit fewer, Suspended that the caller is BLOCKED with the call it made |
| `Machine.Rtos.PostSection` | src/sync/semaphore.c:172-190 | the in-place post does what the step does; at the maximum it returns ERR_FULL and changes nothing |
| `Machine.Rtos.SendTurn` | src/ipc/msgqueue.c:163-188 | one turn in place does what the step does; OK means that this message was appended, Suspended that the caller is BLOCKED with this message still to send |
| `Machine.Rtos.RecvTurn` | src/ipc/msgqueue.c:205-230 | one turn in place does what the step does; OK hands out the oldest message, which is gone from the queue, Suspended means that the caller is BLOCKED |
| `Machine.Rtos.ResumeTurn` | src/core/block.c:48-52 | a task that runs again after a wait returns ERR_TIMEOUT or the end of its delay with nothing else changed, or takes the next turn of its own call, whose result says what was done; a handed-off lock returns OK to the owner, and a receive hands out the oldest message |
| `Machine.Rtos.TaskDelay` | src/core/task.c:282-298 | a delay of 0 is ERR_PARAM and changes nothing; otherwise the caller sleeps |
| `Machine.Rtos.WakeDelayed` | src/core/task.c:302-338 | the in-place registry loop does what the scan does |
| `Machine.Rtos.TickHandler` | src/platform/system.c:90-98 | the kernel part of a tick in place does what the tick step does |
| `Machine.Rtos.RegistryAdd` | src/core/task.c:42-48 | the registry grows by one at its end when there is room |
| `Machine.Rtos.RegistryRemove` | src/core/task.c:50-64 | the shifting loop removes the task and keeps the order of the rest |
| `Machine.Rtos.CreateTask` | src/core/task.c:189-233 | in-place creation does what the step does, with the priority, bucket and place asked for, and fails exactly at the task limit |
| `Machine.Rtos.Detach` | src/core/task.c:66-82 | a blocked task leaves the one list it waits in |
| `Machine.Rtos.DeleteTask` | src/core/task.c:239-268 | in-place deletion does what the step does, with the status for NULL, idle and current |
| `Machine.Rtos.BlockingCall` | src/sync/mutex.c:218-259 | a NULL object is ERR_PARAM, no current task is ERR_STATE, both without effect; otherwise the first turn is taken, and its result says what was done |
| `Machine.Rtos.MutexUnlock` | src/sync/mutex.c:261-297 | mutex_unlock with its argument checks |
| `Machine.Rtos.SemPost` | src/sync/semaphore.c:164-191 | semaphore_post with its argument check |
| `Machine.Rtos.Perform` | src/core/scheduler.c:33-191 | any legal step, done in place, keeps every link structure well formed and leads to exactly the state the step leads to |
| `Machine.Rtos.RunAll` | src/core/task.c:239-338 | any legal run, done in place, ends in exactly the state the run ends in |
| `FreeList.CoalesceCovers` | src/memory/heap.c:41-57 | merging changes no byte from free to used or back |
| `FreeList.CoalesceOk` | src/memory/heap.c:41-57 | merged blocks stay aligned, inside the pool and apart |
| `FreeList.CoalesceAbsorbs` | src/memory/heap.c:50-53 | every block lies inside one merged block |
| `FreeList.CoalesceIsComplete` | src/memory/heap.c:46-56 | afterwards no two list neighbours are adjacent in list order |
| `FreeList.CoalesceKeepsOrder` | src/memory/heap.c:46-56 | each merged block begins where a listed block began, and the order of the list is kept |
| `HeapModel.TotalIsEnough` | src/memory/heap.c:88-89 | the rounded size plus header covers the request exactly up to 0xFFFFFFF0, and wraps to 0 for exactly eight sizes |
| `HeapModel.FirstFit` | src/memory/heap.c:93-112 | the block found is large enough and every earlier one is too small |
| `HeapModel.RefusedIff` | src/memory/heap.c:93-114 | a request is refused if and only if every free block is below the total |
| `HeapModel.GrantIsFirstFit` | src/memory/heap.c:93-109 | a grant is the start of the first block that is large enough: just the total when 16 bytes or more are left, and the whole block otherwise |
| `HeapModel.RestGoesFirst` | src/memory/heap.c:98-107 | what is left of a split block comes first on the free list; without a split the block alone leaves the list |
| `HeapModel.FreedGoesFirst` | src/memory/heap.c:130-132 | a freed block comes first on the free list, with at least its own size |
| `HeapModel.GrantIsEnough` | src/memory/heap.c:88-109 | for every size, a granted pointer is 8-aligned, and is to a block in use that holds the request if and only if the size is at most 0xFFFFFFF0 |
| `HeapModel.RequestKeepsTilingIff` | src/memory/heap.c:88-109 | for every size below 2^32, the heap still tiles the pool after the request if and only if the size is not one of the eight that wrap to 0 or the first free block cannot be split |
| `HeapModel.AllocKeepsHeap` | src/memory/heap.c:78-115 | an allocation that does not clash keeps the tiling: each byte of the pool in exactly one free or live block, sizes and offsets multiples of 8 |
| `HeapModel.FreeKeepsHeap` | src/memory/heap.c:122-133 | freeing a live block keeps the tiling |
| `HeapModel.AllocCovers` | src/memory/heap.c:94-109 | a grant takes exactly its block's bytes from the free ones |
| `HeapModel.PayloadsApart` | src/memory/heap.c:109 | no byte of a live payload is in another live block, a free block or any header |
| `HeapModel.AllocFreeRoundTrip` | src/memory/heap.c:93-133 | in any state, an allocation freed at once restores the free bytes and the live blocks, every old free block lies inside a new one, and no request that would have succeeded now fails |
| `HeapModel.ReversalFrom` | src/memory/heap.c:35-57 | with at most one free block, any requests freed in reverse order restore the heap exactly |
| `HeapModel.Reversal` | src/memory/heap.c:62-70 | from a fresh heap they restore the single 32768-byte block |
| `HeapModel.ForwardFreesFragment` | src/memory/heap.c:41-57 | freed in allocation order, two blocks leave the pool in three pieces |
| `HeapModel.AfterUses` | src/memory/heap.c:78-133 | after any sequence of allocations and valid frees the tiling holds |
| `HeapPool.Pool.constructor` | src/memory/heap.c:20-22 | before heap_init the pool is not ready |
| `HeapPool.Pool.Init` | src/memory/heap.c:62-70 | the pool holds one free block of 32768 bytes |
| `HeapPool.Pool.RemoveFromList` | src/memory/heap.c:24-33 | the links spell out the free list without the block |
| `HeapPool.Pool.PrependFree` | src/memory/heap.c:35-39 | the links spell out the free list with the block in front |
| `HeapPool.Pool.CoalesceForward` | src/memory/heap.c:41-57 | the in-place loop ends and leaves exactly the merged list |
| `HeapPool.Pool.FindFit` | src/memory/heap.c:91-113 | the walk stops at the first block that fits, with the one before it |
| `HeapPool.Pool.Alloc` | src/memory/heap.c:78-115 | for every size, in-place allocation writes the headers the model says and returns its pointer, NULL for size 0 or before heap_init; the headers then describe some tiling if and only if the request did not clash |
| `HeapPool.EmptyHeadIsBad` | src/memory/heap.c:97-106 | once the first free header has size 0, the words of the pool describe no tiling at all |
| `HeapPool.FreeAfterClashSpins` | src/memory/heap.c:46-54 | freeing the pointer of a clashing request links the block to itself, and the merging loop goes on without changing anything |
| `HeapPool.Pool.Free` | src/memory/heap.c:122-133 | in-place free does what the model does; nothing for NULL or before heap_init |
| `HeapPool.Pool.Store` | src/memory/heap.c:109 | writing any word of a payload one holds leaves every header and link as it was |
| `TimerModel.InsertIs` | src/timer/sw_timer.c:25-45 | a timer goes behind all that expire no later and before the rest, whose order is kept |
| `TimerModel.InsertSorts` | src/timer/sw_timer.c:32-44 | the list stays sorted by expiry |
| `TimerModel.StartKeeps` | src/timer/sw_timer.c:56-101 | starting a timer that is not armed keeps the list sorted with every expiry ahead, arms it for now + ticks, and changes no other timer |
| `TimerModel.StartSettlesIff` | src/timer/sw_timer.c:64 | every expiry lies ahead after a start if and only if now + ticks does not pass 32 bits |
| `TimerModel.StopKeeps` | src/timer/sw_timer.c:108-134 | stopping takes exactly that timer out of the list |
| `TimerTick.TurnShrinks` | src/timer/sw_timer.c:144-164 | each turn of the expiry loop leaves one due timer fewer, although it may reinsert |
| `TimerTick.EndsIff` | src/timer/sw_timer.c:144-164 | the loop ends if and only if no due periodic timer's next expiry passes 32 bits |
| `TimerTick.ProcessIs` | src/timer/sw_timer.c:139-165 | the loop fires each due timer once, in expiry order with ties in list order, keeps exactly the periodic and not-yet-due timers, re-arms the periodic ones at now + period and leaves the list sorted with every expiry ahead |
| `TimerRuns.Step` | src/timer/sw_timer.c:56-165 | every start, stop and tick keeps the list sorted and every expiry greater than now |
| `TimerRuns.TickFires` | src/timer/sw_timer.c:143-154 | on a tick exactly the timers whose expiry has come fire, each once |
| `TimerRuns.PeriodicSchedule` | src/timer/sw_timer.c:156-160 | through any run, an armed periodic timer that is not stopped fires at its expiry, then every period, and at no other tick |
| `TimerRuns.Multiples` | src/timer/sw_timer.c:157 | the schedule is e + i * period for each i up to the end, and no more |
| `TimerRuns.OneShotSchedule` | src/timer/sw_timer.c:161-163 | a one-shot fires once, at its expiry |
| `TimerRuns.StartedSchedule` | src/timer/sw_timer.c:56-101 | started at T, a periodic timer fires at exactly T + k * period for k >= 1, a one-shot once at T + delay |
| `TimerRuns.StoppedIsSilent` | src/timer/sw_timer.c:108-134 | a stopped timer fires no more until it is started again |
| `TimerList.TimerService.constructor` | src/timer/sw_timer.c:20-23 | the list is empty |
| `TimerList.TimerService.FindPlace` | src/timer/sw_timer.c:30-35 | the walk stops where the timer belongs |
| `TimerList.TimerService.InsertSorted` | src/timer/sw_timer.c:25-45 | the links written, for any timer; they spell out the list with the timer in its place when it was not in it |
| `TimerList.TimerService.StartTimer` | src/timer/sw_timer.c:56-101 | for any timer and any number of ticks: NULL, no callback or 0 ticks is ERR_PARAM and changes nothing; a timer that was not armed is started as in the model; after starting an armed one no list begins at the head |
| `TimerList.TimerService.StopTimer` | src/timer/sw_timer.c:108-134 | stopping in place does what the model does |
| `TimerList.TimerService.TickProcess` | src/timer/sw_timer.c:139-165 | the in-place loop ends, runs the callbacks the model fires in that order and leaves the model's list |
| `TimerList.StartKeepsLinksIff` | src/timer/sw_timer.c:25-71 | for any list and any timer, the links after a start spell out some list if and only if the timer was not in it |
| `SystemModel.FailedCreate` | src/core/task.c:185-201 | a failed creation leaves the kernel as it was and the same heap bytes free |
| `SystemModel.CreatedBlocks` | src/core/task.c:193-233 | a successful creation takes two new, different blocks, the first with room for the control block and the second with room for the stack if and only if its size is at most 0xFFFFFFF0, and makes at the first a task of the priority asked for |
| `SystemModel.CreateFailsIff` | src/core/task.c:185-201 | a creation fails if and only if there is no function, the stack is too small, the registry is full, or no free block is large enough for the control block or, after it, for the stack |
| `SystemModel.CreateKeepsSystem` | src/core/task.c:178-234 | creation keeps kernel, tiling and ownership of blocks well formed, and a new control block is at an address no task has |
| `SystemModel.CreateKeepsSystemIff` | src/core/task.c:193-201 | for every stack size, creation keeps the system well formed if and only if the stack request does not clash |
| `SystemModel.DeleteLists` | src/core/task.c:255-261 | a deleted task is in no ring, wait list or registry slot, and every list keeps its other members in order |
| `SystemModel.DeleteFreesBlocks` | src/core/task.c:263-264 | a deletion frees exactly the bytes of the task's control block and stack |
| `SystemModel.DeleteKeepsSystem` | src/core/task.c:239-268 | deletion keeps the system well formed |
| `SystemModel.CreateDelete` | src/core/task.c:225-261 | deleting a task that was just created restores the kernel exactly |
| `SystemModel.SystemCreateDelete` | src/core/task.c:178-268 | creating and deleting a task restores the kernel, the live blocks and the free bytes |
| `SystemRuns.OpKeepsSystem` | src/core/task.c:178-268 | every kernel step, creation, deletion and use of the heap by the program keeps the system well formed |
| `SystemRuns.SystemRunIsKernelRun` | src/core/task.c:195-232 | every run of the system is a legal run of the kernel, since the heap never hands out the address of a live task |
| `SystemRuns.InitOk` | src/core/task.c:143-176 | task_init fails exactly when the pool cannot hold a control block, and otherwise leaves a well-formed system |
| `SystemRuns.TaskLimit` | src/core/task.c:189-191 | the registry has no duplicates and at most 32 entries, so at most 31 tasks besides idle |
| `SystemRuns.AlwaysWellFormed` | src/core/task.c:143-268 | from task_init on, after any legal operations, placement, tiling and the limit hold |
| `TaskMemory.Board.TaskCreate` | src/core/task.c:178-234 | in-place creation over the kernel's and the heap's memory does what the model does; what it returns is a new READY task of the priority asked for |
| `TaskMemory.Board.TaskDelete` | src/core/task.c:239-268 | in-place deletion does what the model does, with the status for NULL, idle and current |
| `Witnesses.BoostedUnlockMisplaces` | src/sync/mutex.c:277 | a task of base 200 boosted to 10 unlocks, and the rings are wrong |
| `Witnesses.FirstUnlockInverts` | src/sync/mutex.c:79-86 | the owner of two mutexes unlocks one, and falls below a waiter of the other |
| `Witnesses.ChainIsNotFollowed` | src/sync/mutex.c:45-62 | a task of priority 5 asks for a mutex whose owner waits for a third task, which stays at 20 |
| `Witnesses.DeletingOwnerBreaks` | src/core/task.c:253-261 | deleting a READY owner breaks the invariant |
| `Witnesses.DeletingWokenLosesUnit` | src/core/task.c:253-261 | deleting the task woken for the only unit leaves another waiting beside that unit |
| `Witnesses.PostBetweenMisplaces` | src/sync/semaphore.c:153-157 | a post between enqueue and block leaves the only waiter BLOCKED in no list and no ring, and the READY task behind it in no ring |
| `Witnesses.UnlockBetweenLocksOut` | src/sync/mutex.c:248-254 | with an owner, a waiter of 50 and a newcomer of 10, two dispatches lead to an owner that is BLOCKED on its mutex outside its list |
| `Witnesses.LateDelayIsOver` | src/core/block.c:39 | a delay of two made one tick before UINT32_MAX is over at the next tick |
| `Witnesses.LateDelayNeverEnds` | src/core/block.c:39 | a delay of one made then never ends |
| `Witnesses.HugeRequestRuinsHeap` | src/memory/heap.c:88-106 | a request for 0xFFFFFFF1 bytes ruins a fresh heap |
| `Witnesses.LongPeriodSpins` | src/timer/sw_timer.c:84-160 | a timer started at tick 0 with period 0x80000000 keeps the loop going at tick 0x80000000, and nothing is due before |
| `Witnesses.RestartMakesCycle` | src/timer/sw_timer.c:25-71 | restarting the only armed timer leaves no list |

## Left out

- Context switch, exception return, clocks, memory-mapped I/O, `rtos_start`, the idle loop and the exit trap: hardware.
- Initial stack frames, stack canaries and task names: easy arithmetic and copying.
- `scheduler_time_slice_tick`: the tick handler asks for a reschedule anyway, so it decides nothing.
- The fields `blocked_on_mutex`, `time_slice_counter`, `next` and `task_func`, and the states SUSPENDED and TERMINATED: nothing that is modelled depends on them.
- The `nop` spin in `rtos_block_current`: a blocked task is simply not dispatched until it is READY.
- `task_create` does not mask interrupts in the source; here its bookkeeping is one step.
- Enqueue and block are two critical sections in the source and one step here; `SplitCalls.SplitWaitPlacedIff` and `SplitCalls.SplitLockIff` say when that makes a difference.
- Total waiting time of semaphore and queue calls: each retry re-arms the full timeout, so no bound holds.
- Full coalescing after frees in any order: it does not hold, as `HeapModel.ForwardFreesFragment` shows.
- Timer callbacks that start or stop timers themselves.
- Initialisation of mutexes, semaphores and queues while the kernel runs: the set of objects is fixed at boot.
- Reads of a freed or never allocated pointer: heap_free is modelled for NULL and live pointers, as its documentation asks.
- Machine.Rtos.SendTurn: the class holds each queue's buffer as a value; the byte copy in place is `MessageQueue.MessageRing.Write`, proved against the same function.
- Machine.Rtos.RecvTurn: as for sending, with `MessageQueue.MessageRing.Read`.
- Machine.Rtos.Block: control blocks are records in a map by address, with the two link fields kept as maps of their own, rather than one C struct each.
- Runs.Step: an unlock across buckets and the deletion of a mutex owner are not steps, because no invariant holds after them; `Guards.UnlockPlacesCallerIff` and `Guards.DeleteKeepsInvIff` are the exact conditions.
- Runs.Exec: as for `Runs.Step`.
- TimerRuns.Step: the start of an armed timer and expiries past 32 bits are not steps; `TimerList.StartKeepsLinksIff`, `TimerModel.StartSettlesIff` and `TimerTick.EndsIff` are the exact conditions.
- TimerList.TimerService.TickProcess: not for a list with a due periodic timer whose next expiry wraps, where the loop does not end (`TimerTick.EndsIff`).
- HeapModel.AllocKeepsHeap: a clashing request is left to `HeapModel.RequestKeepsTilingIff`.
- HeapModel.AfterUses: a run stops at a clashing request, after which there is no heap to speak of.
- SystemModel.FailedCreate: not for a stack request that clashes, as for `HeapModel.AfterUses`; the exact condition is `SystemModel.CreateKeepsSystemIff`.
- SystemModel.CreatedBlocks: as for `SystemModel.FailedCreate`.
- SystemModel.CreateKeepsSystem: as for `SystemModel.FailedCreate`.
- SystemModel.SystemCreateDelete: as for `SystemModel.FailedCreate`.
- TaskMemory.Board.TaskCreate: not for a stack request that clashes; if the control block was refused too, the release that follows does not end (`HeapPool.FreeAfterClashSpins`).
- Timeouts.CallBlocksNoLonger: not for T + n at or past UINT32_MAX; `Timeouts.CallDeadlineIff`, `Timeouts.CallOverAtOnceIff` and `Timeouts.CallNeverTimesOut` say what happens there.
- Machine.Rtos.RingInsert: not for a task that is in the ring of another bucket, which no legal step and no split step reaches.

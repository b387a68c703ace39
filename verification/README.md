# The open_hsm worker pool, message queue and state machine in Dafny

This project models the concurrent core of open_hsm and proves what it keeps, over all interleavings and all runs:

- **The worker pool** (`core/osa_worker.c`) twice. `WorkerPool.dfy` has the job objects with their `next` and `prev` pointers,
  the pool's `head` and `tail`, and the static job slots, as classes that change in place. `PoolProtocol.dfy` is a transition
  system over any number of clients, one to sixteen workers, two counting semaphores and the thread that stops the pool;
  each locked region and each semaphore operation is one action. Both are written over the same functions of the queue,
  the statistics, the job records and the id counter, in `PoolCore.dfy`: the heap methods are proved to compute them, and the
  protocol steps by them. Every allocation of a static slot makes a numbered claim, and a free says which claim it releases.
  `PoolInvariants.dfy` holds what every action keeps; `PoolTheorems.dfy`, `PoolShutdown.dfy` and `PoolClients.dfy` hold the
  results for every reachable state and every run.
- **The message queue** (`platform/linux/osa_queue.c`): `RingQueue.dfy` is the ring over a flat byte buffer, refined to a
  sequence of messages; `QueueProtocol.dfy` is the same queue under any number of threads with condition variables. Both
  store and take messages by the functions of `QueueCore.dfy`.
- **The state machine** (`core/hsm.h`, `core/osa_hsm.c`): `Hsm.dfy` gives the macros a meaning for every machine, runs them in
  place in a class, and relates them to walking the parent chain; `HsmStack.dfy` bounds how deep they nest.
- **The client** (`examples/linux/hsm_worker.c`): `HsmClient.dfy` has its three handlers as written and their effect in one
  piece; `HsmPool.dfy` runs the client, the pool, the completion events and any number of other users of the same pool and
  slots together; `HsmResults.dfy` says what the client can rely on, `HsmRuns.dfy` shows the runs in which it loses a job, a
  result or a slot, and `HsmReturn.dfy` says when it gets back to `idle`.

Quantities are parameters: the number of workers (1 to 16), the queue size, the number of static slots, the number of job
objects, message size and capacity, and what a semaphore does at its maximum (count on, as POSIX does, or drop the token, as
FreeRTOS does). The six statistics, the queue depth and the id counter wrap at 2^32 as in the source.

## What the code does not do

Some things the code or its documentation suggests are false. Each is shown by a member, and where the property holds under a
condition, that it holds exactly then is proved beside it.

- Cancelling the head of the queue breaks the list when the head's `prev` is stale, because a dequeue does not clear it
  (`core/osa_worker.c:118-125`, `430-434`). `WorkerPool.Pool.Cancel` states the exact condition in both directions;
  `WorkerPool.CancelledHeadStillRuns` shows the cancelled job being run and the queue depth wrapping to 2^32 - 1, after which
  every submission is refused; `PoolClients.UnsafeHeadReachable` shows that every pool of at least two places gets there.
  A dequeue that clears the pointer (`WorkerPool.Pool.FetchClearing`) cures it, on the heap
  (`WorkerPool.CancelOnRepairedPool`) and in every reachable state (`PoolClients.ClearingPrevFreesCancel`). In the protocol,
  Cancel is guarded accordingly.
- A static slot can have two owners, because a finished job's slot is handed out again before its owner has freed it
  (`core/osa_worker.c:69-70`, `examples/linux/hsm_worker.c:279`). `PoolClients.TwoOwners` shows it on every pool with a slot;
  `PoolClients.HandedOutTwiceExactly` gives the condition: a slot that is handed out and not yet submitted is handed out again
  if and only if a free releases an older claim on it and the slot is not initialised afterwards. `WorkerPool.FreedWhileQueued`
  shows on the heap what happens when such a free hits a queued job.
- For the same reason a client may read a result that its job did not return, even a success for a failure
  (`HsmRuns.ReuseSpoilsResult`). What it reads is right if and only if no allocation has returned its slot since
  (`HsmRuns.ResultRightExactlyWhenKept`); a client can tell by the id in the slot (`HsmRuns.ResultRightExactlyWhenSameId`).
- For the same reason a client's WORK_CANCEL may take another client's job out of the queue, because it reads the id from the
  slot (`examples/linux/hsm_worker.c:288-292`). `HsmRuns.ClientCancelsOther` shows the client doing it, `HsmRuns.OtherCancelStrands`
  shows it being done to the client, and `HsmResults.OwnCancelExactly` says exactly when the job taken out is somebody else's.
- And for the same reason two clients may come to prepare one slot (`HsmRuns.SharedReachable`); `HsmResults.SharedOnlyByUndercut`
  says exactly when. Then `HsmResults.ClientAndPoolAgree` fails: a job that will tell the client of its completion can be queued
  while the client is in `idle` (`HsmRuns.SharedMisleads`).
- A job can be queued while all workers sleep on an empty semaphore, exactly when the work semaphore saturates below the queue
  size (`PoolTheorems.WorkLostExactlyWhenCapTooSmall`), and stopping can hang, exactly when it saturates below the number of
  workers (`PoolShutdown.HangsExactlyWhenCapTooSmall`). It stays so until somebody submits again, or,
  in the first case, stops the pool
  (`PoolTheorems.LostUntilSubmit`, `PoolShutdown.HungUntilSubmit`). (A POSIX semaphore saturates at `SEM_VALUE_MAX`, which a
  `queue_size` above it exceeds.)
- A wait with a timeout other than zero waits for any job, not for the one it names, against `core/osa_worker.h:173`
  (`PoolTheorems.WaitIgnoresItsJob`). What waits give is a count: after `n` submissions and `k` successful waits every job has
  finished for sure if and only if `n <= k` (`PoolTheorems.WaitsSufficeExactly`); and `k` waits vouch for the `k` oldest
  submissions if and only if the pool has one worker (`PoolTheorems.WaitsVouchExactly`).
- `STATE_SUPER` delegates to the parent of the current state, so a signal that a state and its parent both delegate recurses
  for ever. In every hierarchy a dispatch ends if and only if walking the parent chain ends and meets no such state
  (`Hsm.MacrosEndExactlyWhenWalkEnds`). In the example, any signal that no handler names does this in `processing`
  (`HsmClient.ExampleEnds`), where walking the chain would end (`HsmClient.ExampleWalks`).
- `STATE_TRANSIT` sends no EXIT, against `core/hsm.h:112`: handlers are called with the dispatched signal or with ENTRY
  (`Hsm.NoSignalButEntry`).
- No job moves from RUNNING to CANCELLED, against the diagram in `docs/worker_design.md:65` (`PoolClients.JobStatesMove`).
- The client may never leave `processing`: its completion finds its message queue full (`HsmRuns.FullQueueStrands`), it has
  cancelled its queued job (`HsmRuns.CancelStrands`), somebody else has (`HsmRuns.OtherCancelStrands`), or the pool is stopped while
  its job is queued (`HsmReturn.ShutdownStrands`). `HsmReturn.ReturnsExactly` shows that within the protocol these are the only
  ways, but for one that is the protocol's own: there nobody frees a job that is queued or running, so that after a stop the client
  may wait for ever to free a slot that somebody else has at the head of the queue (`HsmReturn.ReuseStrands`); the code frees it at
  once. Outside the protocol there is one more: the free of an older claim hits the client's queued job, and the next allocation
  zeroes it, the mark that names the client included (`PoolClients.TwoOwners`, `WorkerPool.FreedWhileQueued`).

## Model

| member | source | states |
|---|---|---|
| `WorkerPool.JobStore.NextId` | core/osa_worker.c:33-36 | ids are drawn by incrementing a 32-bit counter that wraps to 0 |
| `WorkerPool.JobStore.InitSlots` | core/osa_worker.c:41-55 | the first allocation zeroes every slot, links included, and marks it COMPLETED; later ones change nothing |
| `WorkerPool.JobStore.FindFree` | core/osa_worker.c:68-76 | the scan stops at the first slot whose state is COMPLETED or CANCELLED, or at the end |
| `WorkerPool.JobStore.Alloc` | core/osa_worker.c:60-79 | returns the first free slot zeroed, PENDING and with a new id, leaving every other slot alone (the first allocation leaves them all COMPLETED and zeroed), or null without drawing an id |
| `WorkerPool.JobStore.Free` | core/osa_worker.c:84-89 | a static slot becomes COMPLETED; any other pointer is ignored |
| `WorkerPool.JobStore.InitJob` | core/osa_worker.c:475-498 | the job is zeroed, PENDING and unlinked, with a new id |
| `WorkerPool.Pool.Link` | core/osa_worker.c:375-386 | a job not in the list is appended: the pointers represent the longer list |
| `WorkerPool.Pool.Submit` | core/osa_worker.c:352-398 | refused, changing nothing, exactly when the depth has reached the queue size; otherwise the list, the statistics, the id and the token are those of appending the job |
| `WorkerPool.Pool.SubmitToHsm` | core/osa_worker.c:400-412 | target and completion signal are set even if the submission is refused; an accepted job gets state, id, token and place in the list as in a plain submission |
| `WorkerPool.Pool.Fetch` | core/osa_worker.c:109-131 | a worker leaves after shutdown; otherwise it takes exactly the first job, or none from an empty list, and the list keeps representing the rest |
| `WorkerPool.Pool.FetchClearing` | core/osa_worker.c:117-125 | a dequeue that also clears the new head's `prev`: the list keeps representing the rest, and the head points back at nothing |
| `WorkerPool.Pool.Finish` | core/osa_worker.c:144-152 | the job becomes ERROR or COMPLETED by the sign of its result, the statistics follow, and the completion semaphore is posted |
| `WorkerPool.Pool.Search` | core/osa_worker.c:426-449 | the walk from the head stops at the first job with the id, or at the end |
| `WorkerPool.Pool.Unlink` | core/osa_worker.c:430-440 | the pointers represent the list without the job if and only if it is not the head or its `prev` is null |
| `WorkerPool.Pool.Cancel` | core/osa_worker.c:414-460 | exactly the first matching job becomes CANCELLED; the shortened list is represented if and only if the job is not the head or the head's `prev` is null; with a stale `prev` the cancelled job stays the head; no match changes nothing |
| `WorkerPool.StaleHead` | core/osa_worker.c:117-125 | submit A, submit B, dequeue A: the head is B and its `prev` is not null |
| `WorkerPool.CancelledHeadStillRuns` | core/osa_worker.c:428-446 | cancelling that head reports success, the next worker runs it, and the depth wraps to 2^32 - 1 |
| `WorkerPool.CancelOnRepairedPool` | core/osa_worker.c:426-459 | with that dequeue, every cancel leaves exactly the list without its job, ready for the next cancel |
| `WorkerPool.SubmitOnRepairedPool` | core/osa_worker.c:375-386 | submissions keep the repaired pool ready for a cancel |
| `WorkerPool.FreedWhileQueued` | core/osa_worker.c:68-89 | freeing a slot while its job is queued lets the next allocation return and zero the queued job; the list survives if and only if the job was alone in it |
| `PoolProtocol.Normalise` | core/osa_worker.c:213-218 | no workers selects 4, more than 16 gives 16, a queue size of zero selects 64, anything else is kept |
| `PoolInvariants.StructureStep` | core/osa_worker.c:109-151 | every action keeps: depth equals queue length and at most the queue size, no job is in the pool twice, queued jobs are PENDING, running jobs RUNNING, stored results are those returned; a slot under a live claim is not queued, and is PENDING unless an older claim was released, then COMPLETED |
| `PoolInvariants.FatesStep` | core/osa_worker.c:118-128 | every action keeps each accepted submission in exactly one of queue, cancelled and started |
| `PoolInvariants.EndingsStep` | core/osa_worker.c:133-152 | every action keeps each start either held by its worker or finished once by that worker |
| `PoolInvariants.FifoStep` | core/osa_worker.c:379-386 | every action keeps the starts followed by the queue equal to the submissions without the cancelled ones |
| `PoolInvariants.InvStep` | core/osa_worker.c:94-536 | the whole invariant is kept by every action of every thread |
| `PoolTheorems.InvReachable` | core/osa_worker.c:94-536 | the whole invariant holds in every reachable state |
| `PoolTheorems.ExactlyOnce` | core/osa_worker.c:118-152 | each accepted submission is queued, cancelled without ever executing, or started, exactly once; each start is running or was finished once, by the same worker |
| `PoolTheorems.OutcomeIsWhatWasReturned` | core/osa_worker.c:137-152 | the recorded outcome and final state are those of the value the job function returned |
| `PoolTheorems.StartOrder` | core/osa_worker.c:118-128 | first in, first out for any number of workers: starts followed by the queue are the submissions in order without the cancelled ones |
| `PoolTheorems.StatisticsConserved` | core/osa_worker.c:127-152 | submitted equals completed plus errors plus cancelled plus depth plus active, modulo 2^32; depth and active are exact, at most the queue size and the number of workers |
| `PoolTheorems.WaitBarrier` | core/osa_worker.c:515-531 | successful waits never outnumber finished jobs (with uncapped posts, semaphore plus waits equals them); as many waits as submissions means everything has finished |
| `PoolTheorems.WaitIgnoresItsJob` | core/osa_worker.c:515-522 | on every pool of two or more places a wait for a job can succeed while that job is queued |
| `PoolTheorems.WaitsSufficeExactly` | core/osa_worker.c:515-531 | for all counts: `n` submissions and `k` successful waits guarantee that every job has finished if and only if `n <= k` |
| `PoolTheorems.WaitsVouchExactly` | core/osa_worker.c:515-531 | in every reachable state as many of the oldest uncancelled submissions have finished as waits have succeeded, if and only if the pool has one worker |
| `PoolTheorems.NoLostWork` | core/osa_worker.c:102-131 | before shutdown, with a semaphore that can hold the queue size, queued jobs never wait on workers that all sleep; some worker can act |
| `PoolTheorems.QueueDrains` | core/osa_worker.c:102-176 | workers left alone stop after a bounded number of actions in any order, with every submission finished or cancelled |
| `PoolTheorems.WorkLostExactlyWhenCapTooSmall` | core/osa_worker.c:234-234 | a state with lost work is reachable if and only if the semaphore saturates below the queue size |
| `PoolTheorems.LostUntilSubmit` | core/osa_worker.c:102-131 | when all workers sleep on an empty semaphore, no job starts over any run without a submission or a stop |
| `PoolShutdown.ShutdownCompletes` | core/osa_worker.c:316-329 | after shutdown no job starts; every action of a worker or of the stopping thread brings the end one action closer; until then one of them can act; at the end all workers have left |
| `PoolShutdown.HangsExactlyWhenCapTooSmall` | core/osa_worker.c:321-329 | a hung join is reachable if and only if the semaphore saturates below the number of workers |
| `PoolShutdown.HungUntilSubmit` | core/osa_worker.c:321-329 | a hung join stays hung over any run without a submission |
| `PoolClients.JobStatesMove` | core/osa_worker.c:126-145 | between client calls a job moves only PENDING to RUNNING, RUNNING to COMPLETED or ERROR, PENDING to CANCELLED, and keeps its id |
| `PoolClients.SlotsSafe` | core/osa_worker.c:60-79 | an allocation never returns a queued or running slot, returns a slot under a live claim only if an older claim was released, and fails if and only if every slot is PENDING, RUNNING or ERROR |
| `PoolClients.LiveHandedOutExactly` | core/osa_worker.c:68-76 | a slot that is handed out and not yet submitted can be handed out again if and only if its claim is undercut |
| `PoolClients.HandedOutTwiceExactly` | core/osa_worker.c:60-89 | over every run in which the latest claim on a slot stays live, the slot can be handed out again if and only if the run frees an older claim on it with no initialisation afterwards |
| `PoolClients.TwoOwners` | examples/linux/hsm_worker.c:265-280 | on every pool with a slot: a finished job's slot passes to a second client, the first one's result reads 0, its free makes the slot available over the second client's head, or hits the second client's queued job |
| `PoolClients.FailedJobKept` | core/osa_worker.c:69-70 | over any run a failed job keeps its record until its owner frees, re-initialises or resubmits it |
| `PoolClients.CancelHitsItsJob` | core/osa_worker.c:369-372 | until the id counter wraps, ids of queued jobs are non-zero and each identifies its job, so a cancel removes that one |
| `PoolClients.SecondCancelFails` | core/osa_worker.c:426-459 | over any run after a successful cancel, a second cancel of that id fails unless the job was resubmitted or the counter wrapped |
| `PoolClients.UnsafeHeadReachable` | core/osa_worker.c:118-125 | on every pool of two or more places a head that cannot be cancelled safely is reachable |
| `PoolClients.ClearingPrevFreesCancel` | core/osa_worker.c:120-125 | if a dequeue cleared the new head's `prev`, every cancel would be safe in every reachable state |
| `RingQueue.Create` | platform/linux/osa_queue.c:49-88 | a zero message size or a capacity below one is refused; otherwise the queue is empty and open |
| `RingQueue.MsgQueue.TailIsModulo` | platform/linux/osa_queue.c:177-180 | the tail is `(head + count) mod max_msgs` whenever the queue is well formed |
| `RingQueue.MsgQueue.Store` | platform/linux/osa_queue.c:178-178 | the slot holds exactly the message and no other slot changes |
| `RingQueue.MsgQueue.Put` | platform/linux/osa_queue.c:177-180 | the message is appended, for any size, capacity and number of wraps; received followed by held stays equal to sent |
| `RingQueue.MsgQueue.Take` | platform/linux/osa_queue.c:251-254 | the oldest message comes out intact and the rest stay |
| `RingQueue.MsgQueue.Send` | platform/linux/osa_queue.c:116-188 | which of success, invalid length, closed, try again and wait, and that only success appends |
| `RingQueue.MsgQueue.ResumeSend` | platform/linux/osa_queue.c:158-187 | a woken sender waits again, finds the queue closed, or appends |
| `RingQueue.MsgQueue.Receive` | platform/linux/osa_queue.c:190-262 | which of success, invalid length, closed and empty, try again and wait, and that only success removes the oldest |
| `RingQueue.MsgQueue.ResumeReceive` | platform/linux/osa_queue.c:231-261 | a woken receiver waits again, finds the queue closed and empty, or removes the oldest |
| `QueueProtocol.InvStep` | platform/linux/osa_queue.c:158-183 | every action keeps: no blocked receiver, or at least as many woken ones as messages; the dual for senders and free slots; received followed by held equals sent |
| `QueueProtocol.ReceivedIsPrefix` | platform/linux/osa_queue.c:171-180 | over every run what was received is a prefix of what was sent, and the rest is what the queue holds |
| `QueueProtocol.NoSleepOnMessages` | platform/linux/osa_queue.c:231-254 | when a receiver sleeps on a non-empty queue there is an awake receiver for each message, and it takes the oldest |
| `QueueProtocol.NoSleepOnRoom` | platform/linux/osa_queue.c:158-183 | when a sender sleeps on a queue with room there is an awake sender for each free slot, and it stores its message |
| `QueueProtocol.NoMutualSleep` | platform/linux/osa_queue.c:158-257 | with nobody awake, senders and receivers do not both sleep |
| `QueueProtocol.WokenComeToRest` | platform/linux/osa_queue.c:158-257 | woken threads left alone come to rest within twice their number plus the number of sleepers, and then no receiver sleeps on messages and no sender on room |
| `Hsm.CallDeeper` | core/hsm.h:107-135 | the outcome of a handler call does not depend on how much stack there is, once there is enough |
| `Hsm.DelegationEnds` | core/hsm.h:130-135 | without a transition an event reaches the current state and its parent only, and the dispatch ends if and only if they do not both delegate; the calls made, the recorded error and the returned value are exact |
| `Hsm.NoSignalButEntry` | core/hsm.h:107-135 | for every machine, signal and depth, ended or not, every nested call carries the dispatched signal or ENTRY; calls made by transitions carry ENTRY |
| `Hsm.LastTransitionWins` | core/hsm.h:116-120 | through any nesting of transitions and delegations, a call that ends leaves the last state entered as current and the one before it as history; after a transition the recorded error is the value returned |
| `Hsm.AgreesWithWalk` | core/hsm.h:116-135 | in every hierarchy, through any nesting of transitions, a dispatch that ends leaves the same current and history state as walking the parent chain |
| `Hsm.MacrosEndExactlyWhenWalkEnds` | core/hsm.h:116-135 | in every hierarchy a dispatch through the macros ends if and only if the walk ends and its path meets no state that delegates what it is sent to a parent that delegates it again |
| `Hsm.WalkEndsMacrosMayNot` | core/hsm.h:130-135 | in hierarchies of any depth, without transitions, the walk always ends and the macros end, alike, if and only if the current state and its parent do not both delegate |
| `Hsm.ActiveObject.CallHandler` | core/hsm.h:116-135 | the macros, assigning the fields in place, compute the meaning given to them |
| `Hsm.ActiveObject.Start` | core/osa_hsm.c:58-76 | the initial state's ENTRY runs, then events are accepted |
| `Hsm.ActiveObject.Post` | core/osa_hsm.c:124-141 | a post succeeds if and only if the queue exists and has room, and then appends |
| `Hsm.ActiveObject.DispatchNext` | core/osa_hsm.c:78-89 | the oldest event is dispatched once, to the state current at that moment, and runs to completion |
| `Hsm.ActiveObjectIsFold` | core/osa_hsm.c:36-89 | over every run of posts and dispatches after the start, the instance after k dispatches is the run-to-completion step folded over the first k accepted posts, and the rest are in the queue |
| `HsmStack.StackBound` | core/hsm.h:116-135 | on a machine with n states every dispatch ends within 2n + 4 nested handler calls or never |
| `HsmClient.Client.Transit` | core/hsm.h:116-120 | the state's ENTRY runs after history and state are set, with the effect that entering that state has |
| `HsmClient.Client.IdleHandler` | examples/linux/hsm_worker.c:178-205 | only WORK_START does something: it launches a job |
| `HsmClient.Client.WorkingHandler` | examples/linux/hsm_worker.c:210-307 | ENTRY ends in `processing` or back in `idle`; a completion is counted by the sign of the result and ends in `idle`; WORK_CANCEL asks the pool to cancel the current job, if there is one; the rest changes nothing |
| `HsmClient.Client.ProcessingHandler` | examples/linux/hsm_worker.c:313-354 | WORK_ERROR launches again, completions are settled by the parent, the rest changes nothing |
| `HsmClient.Client.Dispatch` | examples/linux/hsm_worker.c:178-354 | the nested handlers have the one-piece effect and leave the machine at rest |
| `HsmClient.ExampleDispatch` | examples/linux/hsm_worker.c:187-351 | that effect is what the macros compute on the machine's table of reactions, for either answer of the pool |
| `HsmClient.ExampleEnds` | examples/linux/hsm_worker.c:300-303 | a dispatch to the resting machine ends if and only if it is not an unnamed signal in `processing` |
| `HsmClient.ExampleWalks` | examples/linux/hsm_worker.c:178-354 | walking the chain ends for every signal; the macros end exactly where the walk meets no double delegation, and then the machine goes where the walk goes |
| `HsmClient.WorkingIsTransient` | examples/linux/hsm_worker.c:220-263 | over every run the machine rests in `idle` or `processing`, never in `working`, and in `processing` its history is `working` |
| `HsmClient.JobsAccountedFor` | examples/linux/hsm_worker.c:223-286 | over every run, WORK_ERROR included, the job count equals completed plus errors plus unserved requests, plus one in `processing`, modulo 2^32 |
| `HsmPool.InvMove` | examples/linux/hsm_worker.c:221-294 | every move of the client, the workers and all other users of the pool and its slots keeps the joint invariant |
| `HsmResults.ClientAndPoolAgree` | examples/linux/hsm_worker.c:194-286 | at rest in `processing` the client's job is in exactly one place: queue, worker, completion event, or lost; in `idle` no job of its own is anywhere; whatever the others do with the same slots, as long as no slot was shared |
| `HsmResults.SharedOnlyByUndercut` | core/osa_worker.c:68-89 | the client comes to share a slot if and only if an allocation returns a slot under a live claim, its own or to it, whose older claim was released |
| `HsmResults.KeptUntilAllocated` | core/osa_worker.c:68-76 | the slot of the client's job passes to somebody else exactly when an allocation of theirs returns it, never while the job is queued or running |
| `HsmResults.ResultReachesClient` | examples/linux/hsm_worker.c:265-286 | as long as no allocation has returned the slot, the client reads what the function of its last finished job returned, and counts it by that sign |
| `HsmResults.LostByFullQueueOrCancel` | core/osa_worker.c:159-170 | a move loses the client's job if and only if it finishes it while the client's message queue is full, is the client's cancel of it while queued, or is anybody else's |
| `HsmResults.SameIdExactlyWhenKept` | core/osa_worker.c:71-73 | before the id counter wraps, the slot has the id that the client's job was submitted with exactly as long as no allocation has returned it |
| `HsmResults.CancelReadsId` | examples/linux/hsm_worker.c:288-292 | the id that WORK_CANCEL reads is that of the submitted job exactly as long as no allocation has returned the slot |
| `HsmResults.OwnCancelExactly` | examples/linux/hsm_worker.c:288-292 | before the wrap, the client's cancel takes a job out if and only if its slot is queued under the id read, and that job is somebody else's if and only if the id is not the one its own job was submitted with |
| `HsmResults.ClientCanMove` | examples/linux/hsm_worker.c:220-294 | the client can take an event whenever there is one, and can make its pool call if and only if the pool is not torn down, a cancel does not hit a head with a stale `prev`, and a slot to be freed is not in use by another |
| `HsmRuns.ReuseSpoilsResult` | examples/linux/hsm_worker.c:265-286 | for all `r` and `x`: on every pool with a slot a client whose function returned `r` can read `x`, after others have freed and reused the slot |
| `HsmRuns.ResultRightExactlyWhenKept` | examples/linux/hsm_worker.c:265-286 | what the client reads is sure to be what its function returned if and only if no allocation has returned the slot |
| `HsmRuns.ResultRightExactlyWhenSameId` | examples/linux/hsm_worker.c:265-286 | before the wrap, it is sure to be right if and only if the slot has the id that the job was submitted with |
| `HsmRuns.CancelStrands` | examples/linux/hsm_worker.c:288-294 | WORK_START followed at once by WORK_CANCEL loses the job, on every pool |
| `HsmRuns.FullQueueStrands` | core/osa_worker.c:166-169 | for every capacity of the client's message queue, a completion can be dropped and the job lost |
| `HsmRuns.OtherCancelStrands` | examples/linux/hsm_worker.c:288-292 | on every pool with a slot another client's cancel can lose the job of a client that has cancelled nothing, with an empty message queue and a running pool |
| `HsmRuns.ClientCancelsOther` | examples/linux/hsm_worker.c:288-292 | on every pool with a slot the client's WORK_CANCEL can be about to take another client's queued job out |
| `HsmRuns.SharedReachable` | core/osa_worker.c:68-89 | on every pool with a slot the client and another thread can come to prepare the same slot |
| `HsmRuns.SharedMisleads` | examples/linux/hsm_worker.c:265-286 | then a job that names the client can be queued while the client is in `idle` |
| `HsmReturn.DoomedForEver` | examples/linux/hsm_worker.c:265-294 | a client whose job is lost, or after a stop still queued or its slot stuck, stays in `processing` over every run |
| `HsmReturn.ShutdownStrands` | core/osa_worker.c:316-319 | a stop right after WORK_START leads there, on every pool |
| `HsmReturn.ReuseStrands` | core/osa_worker.c:118-125 | in the protocol, where a slot in the queue is not freed, so does a stop while the slot is at the head of the queue for another client with a stale `prev` |
| `HsmReturn.ReturnsExactly` | examples/linux/hsm_worker.c:265-294 | from `processing` some run leads back to `idle` if and only if the job is not lost and, after a stop, neither still queued nor its slot stuck in the queue |
| `HsmReturn.ComesToRest` | examples/linux/hsm_worker.c:194-286 | workers and client left alone come to rest within a bounded number of moves in any order, and then, before a stop, the client is in `idle` with every event handled, or its job is lost |

## Left out

- PoolProtocol.Enabled: a cancel of the head whose `prev` is stale is not a step of the protocol; what the code does then is in WorkerPool.Pool.Cancel. Clients do not submit, re-initialise or free a job that is queued or running, which the code does not check; a client that plays by the rules can come to do so by the free of an older claim (PoolClients.TwoOwners), and what the code does then is in WorkerPool.FreedWhileQueued.
- WorkerPool.Pool.Finish: does not call the completion callback, which runs under the lock and is taken not to re-enter the pool; the event posted to a state machine is in HsmPool.
- PoolProtocol.Step: an allocation, and an initialisation with its id, are single actions that do not overlap a worker's locked region, although `job_pool_alloc` and `osa_worker_job_init` take no lock. So two racing allocations or id draws are not modelled, nor an allocation between a worker's marking a job COMPLETED and its reading of `target_hsm` (`core/osa_worker.c:145-160`), after which the completion would never be posted. An interrupted semaphore wait changes nothing.
- HsmPool.OthersMay: the other users submit and initialise only static slots that they were given last (any slot once one is shared), and have their own completions, which do not go to the client. What holds of the client is stated for runs in which it has not come to share a slot.
- HsmReturn.ReturnsExactly: speaks of a pool that is not torn down and of the time before the id counter wraps. Where the client is to free a slot that somebody else has in the pool, the protocol has it wait; the code does not wait (WorkerPool.FreedWhileQueued).
- HsmPool.Postable: WORK_ERROR is not posted there, because it launches a second job beside the first; HsmClient covers it.
- RingQueue.MsgQueue.Send: stops, as Receive does, where the thread starts to wait; waking up is in ResumeSend and ResumeReceive, and the scheduling of sleepers in QueueProtocol.
- QueueProtocol.Step: has infinite waits and calls that do not wait only, because a timed-out `pthread_cond_timedwait` may consume a signal (POSIX.1-2017, System Interfaces).
- A wait on a job with a zero timeout, which only reads the job's state (and reports a failed job as unfinished).
- Destroying a queue with waiters, stopping a pool that was never started, failing memory and thread creation.
- Deadline arithmetic, POSIX timers, thread priorities, the completion thread (it only polls the shutdown flag), error code tables, logging, names, the count and full/empty queries, the ESP32 port beyond its saturating semaphore, `hsm_simulate.c` and the LED example: they carry no state that the properties above depend on.
- What job functions compute: they return arbitrary integers. `operation_progress` and `operation_result` of the example are display values.

# coio, modelled and verified

coio is a sender/receiver I/O runtime in C++. This project models its own logic in Dafny 4.11: the
intrusive data structures as classes over linked nodes and arrays, and the lock-free and lock-based
protocols as state machines whose steps are single atomic accesses or critical sections. Statements
about a protocol hold in every state of every interleaving (`Behaviors.IsRun`).

`dafny verify dfyconfig.toml` checks everything.

| part | files |
|---|---|
| timer heap: tree, cost, pointers | PairingTree, PotentialArithmetic, PairingCost, TimerQueues |
| op queue and run loop | Chains, OpQueues, TimeLoop |
| operations: phase machine, sleeps, epoll | OperationPhase, SleepOperations, EpollReadiness |
| synchronization: semaphore, mutex, latch, fifo | AsyncSemaphore, AsyncMutex, AsyncLatch, Fifos |
| waiting lists and signals | WaitingLists, SignalWait |
| generator | YieldTrees, Generators |
| flat buffer and `read_until` | FlatBuffers, ReadUntil |
| JSON | JsonText, JsonPrinting, JsonGrammar, JsonParser, JsonRoundTrip, JsonSyntax |
| coroutine frame layout | FrameLayout |
| shared | Basics, Behaviors, Sequences |

How to read a protocol file. `State` holds what the parties share and where each party is; fields
called auxiliary only record history. Each event has a relation between two states, `Happens`
collects them, `Good` is the inductive invariant, and the theorem over runs comes last, with what the
component promises spelled out in `Sound` or in its own `ensures`. What one operation or waiter does
is proved on that element alone (`...Placed`), and then lifted to the whole state (`...Keeps`). Some
steps have conditions that the code takes for granted, such as a link that is not null; that these
never hold the code up is proved too (`NeverStuck`, `...GoesOn`), and `CanStart` shows a run to begin
with.

Atomics are sequentially consistent steps. A compare-exchange marked weak may fail spuriously.
Deadlines and the clock are integers and the clock only moves forward. The kernel behind `epoll` is a
level, an interest and a pending edge for each direction; registering re-polls the level. A coroutine
goes from label to label, yielding, nesting and throwing, without end if it likes. Addresses of
waiters are numbers, and may come back.

Facts about the code that came out of the proofs:

- `parse(dump(v)) == v` fails for strings with other control characters and with bytes from 0x80 on:
  `dump` escapes both as `\u`, the latter because `char` is signed there, and the parser supports no
  `\u`. `JsonRoundTrip.DumpParses` gives the exact condition, `NumberedIsRejected` two such strings.
- What `dump` prints for a byte from 0x80 on is not JSON at all: `{:04x}` prints the sign of a negative
  `char` among the four digits. `JsonPrinting.StringDenotes`: exactly strings of bytes below 0x80 are
  printed as strings of RFC 8259 that denote them.
- A fifo that is constructed with elements has `max_size()` free slots all the same, so it can hold
  more than that. `Fifos.CapacityExactly` gives the exact condition.
- The branch of `shrink_to_fit` that moves bytes within a full block is dead.
- `flat_buffer::prepare` looks at its limit only when the block must grow, and a first block has at
  least 512 bytes. So `size() <= max_size()` can fail: `FlatBuffers.LimitIsExceeded` commits 100 bytes
  to a buffer with a limit of 10. From within the limit it holds after every commit exactly when the
  request was for no more than the limit left (`FlatBuffers.RequestWithinLimit`), which is what
  `read_until` asks for (`ReadUntil.ReadMore`).

## Model

| member | source | states |
|---|---|---|
| PairingCost.AmortisedMelds | include/coio/detail/op_queue.h:114-224 | over every run of adds, removes and pops from the empty heap that never holds more than n timers, the number of melds is at most 6·k·(1 + log2 n) for k operations: the amortised bound the header claims, with the product of the subtree sizes as potential |
| TimerQueues.TimerQueue.MeldsAmortised | include/coio/detail/op_queue.h:114-224 | the same bound for the melds that the pointer-level queue has really carried out |
| PairingCost.OpCost | include/coio/detail/op_queue.h:133-217 | one operation on a heap of at most n timers: two to the number of its melds times the new potential is at most the old potential times a fixed power of n |
| PairingCost.MergeCost | include/coio/detail/op_queue.h:187-217 | the two-pass merge pays for all but a logarithmic number of its melds with a drop of the potential |
| PairingTree.MergePairsHeap | include/coio/detail/op_queue.h:187-217 | merging a child list gives a single heap-ordered tree of exactly the same timers |
| PairingTree.TwoPassesMerge | include/coio/detail/op_queue.h:191-216 | pairing left to right onto a stack and then folding the stack is the recursive pairwise merge, and the melds of both loops together are one less than the number of children |
| PairingTree.DrainIsExact | include/coio/detail/op_queue.h:155-162 | popping while the root is due takes exactly the due timers, in non-decreasing deadline order, and leaves exactly the others |
| PairingTree.InsertHeap | include/coio/detail/op_queue.h:133-138 | adding keeps heap order and adds exactly that timer, which becomes the root exactly when it is strictly the earliest |
| PairingTree.DeleteHeap | include/coio/detail/op_queue.h:140-153 | removing anywhere keeps heap order and removes exactly that timer |
| PairingTree.UnlinkKeeps | include/coio/detail/op_queue.h:226-233 | taking a node out and letting its siblings move up keeps the rest heap ordered |
| TimerQueues.LinksMirror | include/coio/detail/op_queue.h:105-112 | in a well-formed heap `prev` is the parent of a first child and the previous sibling otherwise, and null exactly at the root |
| TimerQueues.MeldRoots | include/coio/detail/op_queue.h:176-185 | the pointer operation links two disjoint trees into the tree that Meld describes, the earlier root on top and the first one on a tie |
| TimerQueues.MergeChildren | include/coio/detail/op_queue.h:187-217 | both pointer loops together turn a child list into the merged tree, with exactly the melds counted |
| TimerQueues.UnlinkNode | include/coio/detail/op_queue.h:226-233 | whether `prev` is the parent or a sibling, the rewired links are the heap without the node and the node keeps its own children |
| TimerQueues.TimerQueue.Add | include/coio/detail/op_queue.h:133-138 | contents gain the timer; true exactly when its deadline is strictly below all others or the queue was empty |
| TimerQueues.TimerQueue.Remove | include/coio/detail/op_queue.h:140-153 | true exactly for linked timers; contents lose exactly that timer, whose links are null afterwards |
| TimerQueues.TimerQueue.TakeReadyTimers | include/coio/detail/op_queue.h:155-162 | exactly the due timers leave, sorted by deadline, appended to the list, and with null heap links, so that a `remove` that comes too late finds them not linked |
| TimerQueues.TimerQueue.Earliest | include/coio/detail/op_queue.h:164-169 | the least deadline of the contents, and none exactly when there are no timers |
| TimerQueues.TimerQueue.PopRoot | include/coio/detail/op_queue.h:219-224 | a timer that no other precedes leaves, and nothing else |
| TimerQueues.IntrusiveList.PushBack | include/coio/detail/intrusive_list.h:50-55 | the list gains the element at its end and stays linked |
| TimerQueues.IntrusiveList.PopFront | include/coio/detail/intrusive_list.h:71-79 | the first element leaves with a null link; null exactly for the empty list |
| TimerQueues.IntrusiveList.Release | include/coio/detail/intrusive_list.h:81-85 | the whole chain is handed over and the list is empty |
| OpQueues.NothingLostOrReordered | include/coio/detail/op_queue.h:32-97 | in every interleaving of producers and consumer: taken ++ queue == posted, no node twice, every node inside exactly when queued, a node outside has a null link |
| OpQueues.StepsOfQueue | include/coio/detail/op_queue.h:32-97 | linearization, for every step of every run: a successful exchange appends the whole chain in the order given, whatever happened to the old top meanwhile; only the front leaves; null is returned only when the queue is empty; nothing else changes the queue |
| OpQueues.ConsumerNeverStuck | include/coio/detail/op_queue.h:55-83 | in every state of every run the consumer has a next step, so `dequeue` and `reverse` follow no null link |
| OpQueues.ProducerGoesOn | include/coio/detail/op_queue.h:32-97 | a producer can add any node that is outside, and its exchange goes through when the top is the one it has read |
| OpQueues.SwingKeeps | include/coio/detail/op_queue.h:85-97 | an exchange that finds the value it read, even one that was drained and posted again, links a correct chain |
| OpQueues.AddKeeps | include/coio/detail/op_queue.h:36-53 | building the private chain newest first leaves the queue, what was posted and taken, and the chains of the other producers alone |
| OpQueues.TurnKeeps | include/coio/detail/op_queue.h:70-83 | each round of the reversal keeps the queue it stands for |
| Chains.TurnOne | include/coio/detail/op_queue.h:74-80 | turning one node around keeps the arrival order and loses no node |
| Chains.Arrive | include/coio/detail/op_queue.h:39-53 | pushing a chain newest first queues it up oldest first |
| TimeLoop.NoLostWakeup | include/coio/execution_context.h:559-590 | in every interleaving, a consumer blocked without a permit either is owed a release by another thread, or the queue is empty, work is outstanding and its wait ends no later than the earliest timer; whoever sleeps undisturbed has nothing to do |
| TimeLoop.SleeperIsWoken | include/coio/execution_context.h:559-590 | whoever is blocked and has something to do comes out of the wait, at once or after a release that is owed |
| TimeLoop.TakesWhatIsDue | include/coio/execution_context.h:576-588 | exactly the due timers are taken, and all of them are to be published |
| TimeLoop.ConsumerGoesOn | include/coio/execution_context.h:559-586 | inside `do_one` the consumer stops nowhere but at the semaphore |
| TimeLoop.SilentAddIsCovered | include/coio/execution_context.h:270-274 | when `add` answers false, a wait that covered the old timers covers the new one |
| TimeLoop.EarliestAddMustWake | include/coio/execution_context.h:270-274 | when `add` answers true there is a possible wait that the new timer would outrun, so the wakeup is needed |
| TimeLoop.WakesExactly | include/coio/execution_context.h:395-436 | a wakeup follows exactly when an operation is queued, the last work ends, the first stop is requested, or a timer comes that some right wait would outlast |
| TimeLoop.EverythingIsAccounted | include/coio/execution_context.h:559-590 | along every run: what was posted is what was finished and what is queued, likewise for work, permits and the timers of every deadline; each call of `do_one` finishes at most one operation, and `poll` never blocks |
| TimeLoop.OthersGoOn | include/coio/execution_context.h:395-436 | other threads may post, add, remove, start and finish work or request a stop at any time, and a release that is owed can be made |
| TimeLoop.AgentKeeps | include/coio/execution_context.h:430-436 | posting, adding, finishing work and requesting a stop from other threads leave a wakeup owed whenever they change what the consumer saw |
| TimeLoop.ConsumerKeeps | include/coio/execution_context.h:562-590 | every step of `do_one` keeps that knowledge, in `run` and in `poll` |
| OperationPhase.InvHolds | include/coio/execution_context.h:97-175 | the race of starter, stop callback and backend on the phase: published exactly once after being taken back, posted exactly once after being published |
| OperationPhase.PhaseAssertions | include/coio/execution_context.h:62-68 | `publish` never meets `completed`, and the last exchange of `start` fails only on `completed`: the two assertions in the code |
| OperationPhase.FinishedIsUntouched | include/coio/execution_context.h:147-151 | after `finish` no party has a step left |
| OperationPhase.RestIsDecided | include/coio/execution_context.h:105-145 | at rest an operation is either held, armed and unposted, or completed and posted exactly once |
| OperationPhase.StopIsHeard | include/coio/execution_context.h:153-169 | a stop request is not lost: once the stop callback has returned and everybody is at rest, the operation is no longer with the backend and has been posted once |
| OperationPhase.SomebodyGoesOn | include/coio/execution_context.h:97-175 | an operation that was started and has not finished has a next step of its own, or it waits with the backend and can be taken back and asked to stop |
| OperationPhase.StepsRunOut | include/coio/execution_context.h:97-175 | no interleaving goes on for ever: every step brings the operation nearer to its end, except an exchange that fails spuriously |
| OperationPhase.StopEndsIt | include/coio/execution_context.h:153-169 | after a stop request there are steps to the end that need no help of the backend |
| OperationPhase.CallbackGoesOn | include/coio/execution_context.h:153-169 | a stop callback that runs always has a next step of its own, so waiting for it is waiting for a running thread |
| OperationPhase.CancelIsStep | include/coio/execution_context.h:281-286 | cancelling with a truthful backend is a step of the machine that leaves the publisher, the posts and the end alone and takes the operation back exactly when it answers true |
| SleepOperations.EverySleepIsSound | include/coio/execution_context.h:62-289 | any number of sleeps in every interleaving: posted at most once and only when completed, `next_` null when published or posted, queued exactly from the post to the finish, `canceled_` written if at all before the publish, so that the operation finishes stopped exactly when `remove` returned true, and otherwise not before its deadline, posted exactly once at rest out of the heap, armed at rest in it, out of it and posted once a stop request was delivered, untouched after `finish` |
| SleepOperations.ConsumerGoesOn | include/coio/execution_context.h:474-487 | in every state of every run the consumer can clear, publish and post what it has taken, and finish the front of the queue, unless the stop callback there still runs, which then has the next step |
| SleepOperations.SleepGoesOn | include/coio/execution_context.h:62-289 | in every state of every run a sleep that has not finished has a next step of its own, or the consumer has one, or it waits in the heap and can be asked to stop |
| SleepOperations.EndsInTime | include/coio/execution_context.h:576-588 | once the clock has come to the deadline of a sleep in the heap, an idle consumer takes it |
| SleepOperations.TakeReadyKeeps | include/coio/execution_context.h:585-588 | what is taken off the heap was due, what is left is not, and every operation keeps its place |
| SleepOperations.ClearLinkKeeps | include/coio/execution_context.h:477 | reading and clearing the link of the first of the ready chain takes it off the chain and keeps the rest linked |
| SleepOperations.PublishReadyKeeps | include/coio/execution_context.h:478 | when the consumer exchanges the phase, the link is null and the operation off the chain, so that it may be posted at once |
| SleepOperations.PostKeeps | include/coio/execution_context.h:55-60 | whoever posts from `start` or from a stop callback finds `next_` null |
| SleepOperations.PostReadyKeeps | include/coio/execution_context.h:474-481 | and so does the consumer |
| SleepOperations.RemoveKeeps | include/coio/execution_context.h:281-286 | `remove` answers true exactly when the heap held the timer, which is then out of it, taken back for stopping and owed the write of `canceled_`; no other timer is touched |
| SleepOperations.MarkKeeps | include/coio/execution_context.h:283 | `canceled_` is written only for a timer that a cancellation has taken back, and while it is not yet published |
| SleepOperations.FinishPlaced | include/coio/execution_context.h:276-279 | by the time an operation finishes, whoever removed it has written `canceled_` |
| EpollReadiness.ReadinessIsNeverLost | src/linux/asyncio/epoll_context.cpp:79-134 | in every interleaving, also across skipped `epoll_ctl` calls, narrowed masks, recorded edges, closing and recycling: a waiting operation whose descriptor is ready has an edge pending in the kernel or fetched and not dispatched, and is watched; every operation is taken back and posted at most once, and a stop request that was delivered has taken it out of its slot |
| EpollReadiness.EdgeIsDelivered | src/linux/asyncio/epoll_context.cpp:283-316 | bounded progress in every run, whatever else happens in between: while the direction of a waiting operation stays ready, one `epoll_wait` and as many dispatches as the batch then holds take it out of its slot for good, with its publish owed or done |
| EpollReadiness.RegistrationGoesOn | src/linux/asyncio/epoll_context.cpp:82-100 | in every state of every run an operation that is being registered finds its slot empty, as asserted, and gets an answer |
| EpollReadiness.OperationGoesOn | src/linux/asyncio/epoll_context.cpp:82-134 | in every state of every run a started operation that has not finished has a next step of its own, or it waits in its slot and can be asked to stop |
| EpollReadiness.FreeWhenFinished | src/linux/asyncio/epoll_context.cpp:79-134 | a direction can be used again as soon as nobody there is under way |
| EpollReadiness.UsersMayAct | src/linux/asyncio/epoll_context.cpp:165-196 | readiness may come and go and `cancel` be called at any time; an operation can start where the direction is free, and an idle descriptor be closed and its entry handed on |
| EpollReadiness.FetchAndDispatch | src/linux/asyncio/epoll_context.cpp:270-316 | in every state of every run `epoll_wait` can report what is pending, and a fetched event can be dispatched, whatever the system call finds |
| EpollReadiness.ArmKeeps | src/linux/asyncio/epoll_context.cpp:96-128 | registering, with the mask changed or the call skipped, misses no edge |
| EpollReadiness.FindReadyKeeps | src/linux/asyncio/epoll_context.cpp:96-100 | a recorded edge goes to the only operation that is being registered in its direction and is gone afterwards; what is recorded for the other direction stays |
| EpollReadiness.DispatchKeeps | src/linux/asyncio/epoll_context.cpp:299-315 | dispatching a fresh or stale event drops an edge only when the descriptor is not ready, and records it when no operation waits |
| EpollReadiness.CancelBothKeeps | src/linux/asyncio/epoll_context.cpp:183-196 | `io_object::cancel` empties both slots, leaves each operation that was in one to be published by it alone, and touches no other |
| EpollReadiness.CancelTakesBoth | src/linux/asyncio/epoll_context.cpp:183-196 | so that after a `cancel` in any run nobody waits, and whoever did is owed a publish |
| EpollReadiness.CancelOpKeeps | src/linux/asyncio/epoll_context.cpp:345-356 | `cancel_op` clears a slot only of its own operation, so that a recycled entry and the other direction are not disturbed |
| EpollReadiness.CloseKeeps | src/linux/asyncio/epoll_context.cpp:169-181 | closing with empty slots and handing the entry to another descriptor keep everything, stale events included |
| AsyncSemaphore.SemaphoreIsSound | include/coio/sync_primitives.h:266-479 | in every interleaving: initial permits + releases == counter + grants, nobody waits while the counter is positive, whoever still waits came after everyone who was served, every acquisition completes at most once, with a value exactly when it got a permit, stopped only when asked to, and exactly once when all parties rest |
| AsyncSemaphore.NoBarging | include/coio/sync_primitives.h:411-449 | in every step of every run, while anybody waits no permit leaves the counter and the only one to be granted is the first in the queue, whose ticket is the least |
| AsyncSemaphore.LockIsReleased | include/coio/sync_primitives.h:423-447 | in every state of every run whoever has the lock has a next step, except a release at the maximum with nobody waiting, which terminates the program |
| AsyncSemaphore.AcquisitionGoesOn | include/coio/sync_primitives.h:293-479 | in every state of every run an acquisition that has not completed has a next step, or whoever has the lock has one, or it waits in the list, can be asked to stop, and a release may come |
| AsyncSemaphore.StepsRunOut | include/coio/sync_primitives.h:293-479 | every step on an acquisition brings it nearer to its end and leaves the others alone, so that whoever was handed a permit or asked to stop completes |
| AsyncSemaphore.StoppedAtOnce | include/coio/sync_primitives.h:293-302 | an acquisition that was asked to stop before it starts completes as stopped in `start`, without the lock |
| AsyncSemaphore.PermitsMove | include/coio/sync_primitives.h:266-449 | while the lock is free a release can take it, `try_acquire` fails only at zero, and a stop can be requested at any time |
| AsyncSemaphore.UnregisterKeeps | include/coio/sync_primitives.h:457-479 | a stop request takes exactly its own waiter off the list and keeps the order of the others |
| AsyncSemaphore.HandOverKeeps | include/coio/sync_primitives.h:423-436 | `release` hands its permit to the first waiter without touching the counter |
| AsyncSemaphore.TryKeeps | include/coio/sync_primitives.h:314-318 | taking a permit on the fast path, or finding none, keeps the ledger |
| AsyncSemaphore.LinkKeeps | include/coio/sync_primitives.h:320-328 | a waiter is linked only behind all others and only when the counter is zero |
| AsyncSemaphore.LocalPlaced | include/coio/sync_primitives.h:293-345 | destroying the stop callback, its start and every completion count each acquisition once |
| WaitingLists.SemaphoreList.PushBack | include/coio/sync_primitives.h:320-328 | the doubly linked list equals the abstract sequence with the waiter at its end |
| WaitingLists.SemaphoreList.PopFront | include/coio/sync_primitives.h:426-436 | the first waiter leaves with null links; null exactly for the empty list |
| WaitingLists.SemaphoreList.Unregister | include/coio/sync_primitives.h:457-479 | true exactly for linked waiters, wherever they stand; the list is the sequence without that waiter |
| WaitingLists.Unhook | include/coio/sync_primitives.h:459-477 | joining the neighbours of a node gives a well-linked chain without it |
| AsyncMutex.MutexIsSound | include/coio/sync_primitives.h:147-251 | in every interleaving, also with addresses that come back: at most one holder, none exactly when not locked, the waiters are exactly those that pushed themselves, the grants so far are the first of the pushes in the same order, and the drain never follows null |
| AsyncMutex.GrantsInPushOrder | include/coio/sync_primitives.h:231-251 | every step of every run appends a successful push to the queue, or grants to its first element, or leaves it alone |
| AsyncMutex.NeverStuck | include/coio/sync_primitives.h:236-251 | in every state of every run whoever does not wait in the queue has a next step, and one that advances it: `try_lock` succeeds on a free mutex, a push on the word it has seen goes through, and the drain of `unlock` comes to its end without a null link or a missing waiter |
| AsyncMutex.ReverseKeeps | include/coio/sync_primitives.h:242-247 | each round of the drain turns one waiter around without losing or reordering any |
| AsyncMutex.ResumeKeeps | include/coio/sync_primitives.h:249-250 | the waiter completed is the first of the queue |
| AsyncMutex.PushKeeps | include/coio/sync_primitives.h:156-160 | an exchange that finds the value seen before, even if it left and came back, makes a correct stack |
| AsyncLatch.LatchIsSound | include/coio/sync_primitives.h:524-533 | in every interleaving, also with addresses that come back: nobody completes before the count is down, nobody twice, the count is what the parties have not yet counted down, a null head means that it is zero, and once it is down and nobody is under way every waiter that arrived, before or after, has completed |
| AsyncLatch.RearriveKeeps | include/coio/detail/atomic_intrusive_stack.h:26-39 | a waiter that has completed is on no chain, so that its address may be pushed again, also while others still expect it at the head |
| AsyncLatch.CanComeBack | include/coio/detail/atomic_intrusive_stack.h:26-39 | and it can come back, as any kind of party |
| AsyncLatch.NeverStuck | include/coio/sync_primitives.h:625-632 | in every state of every run a party whose share the count still holds can count it down and has a next step until it returns; the popper finds a node for every link, and a push whose exchange finds the head it has seen goes through |
| AsyncLatch.SwingWillPop | include/coio/detail/atomic_intrusive_stack.h:26-39 | whoever pushes on a stack that was emptied owes a pop, and otherwise somebody else does |
| AsyncLatch.SwingStacking | include/coio/detail/atomic_intrusive_stack.h:26-39 | a push links the node on top of the chain the head stood for |
| AsyncLatch.PopKeeps | include/coio/detail/atomic_intrusive_stack.h:42-45 | an exchange with null claims exactly the nodes on the stack for the popper |
| AsyncLatch.NotifyKeeps | include/coio/sync_primitives.h:625-632 | each round completes the first of the nodes the popper has claimed, which had not completed before, and nobody else |
| AsyncLatch.CountDownKeeps | include/coio/sync_primitives.h:604-609 | whoever brings the count to zero owes a pop |
| Fifos.FifoIsSound | include/coio/utils/fifo.h:93-148 | in every interleaving of async and try operations: the size of `underlying_` == item permits + pops holding one + pushes not yet released, so `front` meets no empty queue, and elements leave in the order in which they were emplaced: the j-th pop hands its caller the value that the j-th push was given |
| Fifos.PermitSuffices | include/coio/utils/fifo.h:99-118 | in every state of every run whoever holds a permit can go on to its end, a push emplacing its value and a pop finding an element; whoever has none gets one exactly if there is one |
| Fifos.CapacityExactly | include/coio/utils/fifo.h:42-57 | the fifo stays within `max_size()` in all runs exactly when it was constructed empty; pre-filled, it starts with `max_size()` free slots all the same |
| SignalWait.EveryWaitIsSound | src/linux/utils/signal_wait.cpp:32-101 | in every interleaving, with the lock released between waiters: delivered at most once; told the signal, a cancellation or an error according to who took it; at rest told exactly once unless still on the list and armed; off the list and told once a stop request was delivered; nobody left behind once a delivery is over; untouched after being told |
| SignalWait.DeliveryGoesOn | src/linux/utils/signal_wait.cpp:90-100 | in every state of every run a delivery can publish the waiter it is at, tell it and come to the next, unless the stop callback of that waiter still runs, which then has the next step |
| SignalWait.WaitGoesOn | src/linux/utils/signal_wait.cpp:32-101 | in every state of every run a wait that has not been told has a next step of its own, or the delivery that claimed it has one, or it is on the list and can be asked to stop |
| SignalWait.SignalIsDelivered | src/linux/utils/signal_wait.cpp:86-101 | a signal that is caught while no delivery is under way starts one that claims the first two waiters and reaches all on the list |
| SignalWait.CanFail | src/linux/utils/signal_wait.cpp:32-54 | a registration may fail with any error, which is then what it is told |
| SignalWait.LocalPlaced | include/coio/utils/signal_wait.h:63-148 | `start`, `finish`, `deliver` and `request_cancel` write the result before the phase and deliver it once |
| SignalWait.DetachKeeps | src/linux/utils/signal_wait.cpp:86-94 | the first critical section of `pop_all` claims the first two waiters and leaves the others removable |
| SignalWait.AdvanceKeeps | src/linux/utils/signal_wait.cpp:90-100 | every later one claims whoever is next by then |
| SignalWait.RemoveKeeps | src/linux/utils/signal_wait.cpp:56-84 | a cancellation answers true exactly for a waiter that no delivery has claimed, takes it off its list, and moves nobody else |
| SignalWait.RefuseKeeps | src/linux/utils/signal_wait.cpp:33-46 | an `add` that answers the signal number after delivery, or an error, registers nothing and leaves the wait to be published by `start` with that result |
| WaitingLists.SignalList.Add | src/linux/utils/signal_wait.cpp:33-54 | null head answers the signal number, a failed `sigaction` its negated errno, and otherwise the waiter is in front |
| WaitingLists.SignalList.Remove | src/linux/utils/signal_wait.cpp:56-84 | true exactly for waiters on the list or behind the first of a detached chain; the default action is restored exactly when the list becomes empty before delivery |
| WaitingLists.SignalList.Detach | src/linux/utils/signal_wait.cpp:86-94 | the list becomes the detached chain, its first waiter is released and its second cut off from it |
| WaitingLists.SignalList.Advance | src/linux/utils/signal_wait.cpp:90-93 | the next waiter is released and the one now behind it cut off from it |
| Generators.Iterate | include/coio/generator.h:298-347 | a loop over a generator that leaves at the n-th value, if it gets so far, sees exactly the flattening of what the generator does, with any nesting of `elements_of`: the first n values of one that goes on or never ends, and otherwise all of them and the final exception |
| YieldTrees.DeeperExtends | include/coio/generator.h:124-211 | how deep one looks at a generator, which may have no end, changes nothing of what has been seen |
| YieldTrees.NoEnd | include/coio/generator.h:298-347 | a generator that does nothing but yield has as many values as one likes to look at |
| Generators.Resume | include/coio/generator.h:124-211 | from one suspension to the next, for coroutines that go from label to label: the next value of the flattening or its end; at a value every promise on the active chain knows the innermost, which holds it |
| Generators.EnterNested | include/coio/generator.h:130-137 | the nested generator is the innermost and every ancestor knows it |
| Generators.LeaveNested | include/coio/generator.h:152-185 | the parent is the innermost again and goes on behind the yield, or in its handler or with the exception of the child |
| Generators.Generator.Begin | include/coio/generator.h:340-347 | the first value, or the end, of the flattening; an exception of the root leaves it |
| Generators.Generator.Next | include/coio/generator.h:304-308 | what is ahead loses exactly its first value |
| Generators.Generator.Value | include/coio/generator.h:298-302 | the value is that of the innermost promise |
| YieldTrees.StepNest | include/coio/generator.h:129-141 | entering a nested generator keeps what the whole stack has still to produce |
| YieldTrees.StepEnd | include/coio/generator.h:157-163 | leaving one, normally or with an exception at the point of the yield, keeps it too |
| YieldTrees.RangeFlattens | include/coio/generator.h:235-242 | `elements_of` a plain range, a generator that walks along it, yields exactly its elements |
| JsonRoundTrip.DumpParses | examples/json_rpc/json_rpc.h:453-482 | `parse(dump(v)) == v` if and only if every string and key of v consists of characters from 0x20 to 0x7f and backspace, form feed, line feed, carriage return and tab; otherwise the parser throws |
| JsonRoundTrip.SpacedParses | examples/json_rpc/json_rpc.h:210-215 | the same with any white space between the tokens and around the text |
| JsonRoundTrip.NumberedIsRejected | examples/json_rpc/json_rpc.h:145-169 | it does fail: the dump of a string with the character 0x01 or 0xe9 is rejected |
| JsonSyntax.AcceptsExactly | examples/json_rpc/json_rpc.h:210-426 | the parser accepts a text, as a value, if and only if a syntax tree in the shape of RFC 8259 is written so and means this value: no leading zero, no comma without an element behind it, no raw control character, the later of two equal keys; apart from `\u`, and vertical tab and form feed as white space |
| JsonSyntax.NumeralWritten | examples/json_rpc/json_rpc.h:277-337 | whatever is read as a number is a sign, digits without a leading zero, and digits wherever a point or an exponent asks for them |
| JsonSyntax.NumeralReads | examples/json_rpc/json_rpc.h:277-337 | and every such numeral is read, an integer if it fits `ptrdiff_t` |
| JsonSyntax.LettersWritten | examples/json_rpc/json_rpc.h:339-370 | whatever is read as a string is plain characters from 0x20 on and the eight escapes by a letter |
| JsonText.AnyKeyOrder | examples/json_rpc/json_rpc.h:189-199 | two listings of the same members, in whatever order the map iterates, are the same object |
| JsonRoundTrip.ValueParses | examples/json_rpc/json_rpc.h:248-260 | the text of a value followed by anything that cannot extend a number parses to that value and leaves what follows |
| JsonRoundTrip.BodyParses | examples/json_rpc/json_rpc.h:339-370 | an escaped string reads back exactly when all its characters are spellable, and is rejected otherwise |
| JsonRoundTrip.NumberParses | examples/json_rpc/json_rpc.h:277-337 | every `ptrdiff_t` printed in decimal reads back, whatever non-digit follows |
| JsonPrinting.IntegerSpelled | examples/json_rpc/json_rpc.h:453-482 | an integer is printed as the one text that spells it: digits without a leading zero that denote its size, and a minus sign exactly below zero |
| JsonPrinting.StringDenotes | examples/json_rpc/json_rpc.h:145-169 | a dumped string, read as RFC 8259 reads strings, denotes what was dumped if all its bytes are below 0x80, and otherwise is no string of RFC 8259 |
| JsonPrinting.CharDenotes | examples/json_rpc/json_rpc.h:145-169 | the same for what is printed for one character, whatever follows |
| JsonPrinting.HexDenotes | examples/json_rpc/json_rpc.h:145-169 | the four places of an escaped control character are the lower-case hexadecimal digits of it, with a minus sign in front for a negative `char` |
| JsonPrinting.PlainExactly | examples/json_rpc/json_rpc.h:145-169 | a character is printed as itself exactly from 0x20 to 0x7f except the quote and the backslash, and by a letter exactly if it is one of the seven |
| JsonRoundTrip.ItemsParse | examples/json_rpc/json_rpc.h:383-393 | the printed elements of an array read back in order |
| JsonRoundTrip.MembersParse | examples/json_rpc/json_rpc.h:409-424 | the printed members of an object read back into the map |
| JsonParser.Parser.Parse | examples/json_rpc/json_rpc.h:210-215 | the method returns or throws what the grammar function says, message included |
| JsonParser.Parser.ParseValue | examples/json_rpc/json_rpc.h:248-260 | same, and stands behind the value |
| JsonParser.Parser.ParseNumber | examples/json_rpc/json_rpc.h:277-337 | same, digit loops, leading zero, fraction and exponent checks and integer range included |
| JsonParser.Parser.ParseString | examples/json_rpc/json_rpc.h:339-370 | same, for the loop over characters and escapes |
| JsonParser.Parser.ParseElements | examples/json_rpc/json_rpc.h:383-395 | same, for the loop over elements |
| JsonParser.Parser.ParseEntries | examples/json_rpc/json_rpc.h:409-426 | same, for the loop over members |
| JsonParser.Parser.SkipWhiteSpaces | examples/json_rpc/json_rpc.h:237-239 | stands at the first character that is not white space |
| JsonParser.Parser.NextCharactersAre | examples/json_rpc/json_rpc.h:241-246 | true exactly when the text goes on with the word |
| JsonText.EscapeString | examples/json_rpc/json_rpc.h:145-169 | the loop prints the quoted text of EscapeChar over all characters, signed `char` included |
| JsonText.DumpArray | examples/json_rpc/json_rpc.h:179-187 | the loop prints the elements with commas between them |
| JsonText.DumpObject | examples/json_rpc/json_rpc.h:189-199 | the loop prints the members with commas between them |
| ReadUntil.ReadUntilText | include/coio/asyncio/io.h:225-268 | for every chunking of the stream: the answer is that of a search that starts over on the whole stream (the end of the first occurrence, not found exactly when the buffer is full without one), and buffer ++ unread is the stream |
| ReadUntil.ReadUntilByte | include/coio/asyncio/io.h:190-223 | same for a single character |
| ReadUntil.ReadUntilState.SearchAndRead | include/coio/asyncio/io.h:595-651 | the asynchronous form, completion by completion, gives the same answer and leaves the same bytes |
| ReadUntil.ReadUntilState.Search | include/coio/asyncio/io.h:608-635 | one search answers for the stream, or remembers how far there is nothing to find |
| ReadUntil.NaiveIsFirst | include/coio/asyncio/io.h:189-269 | the reference search finds the first occurrence that fits, and nothing exactly when there is none |
| ReadUntil.SearchText | include/coio/asyncio/io.h:242-251 | resuming at the old end minus the length of the delimiter plus one misses no occurrence |
| ReadUntil.ReadMore | include/coio/asyncio/io.h:255-266 | a round asks for at least one byte and at most what the limit leaves, so the buffer never exceeds it, and appends exactly what the device delivered |
| FlatBuffers.RequestWithinLimit | include/coio/utils/flat_buffer.h:194-249 | from within the limit, `size() <= max_size()` holds after every commit if and only if the request was for no more than the limit left |
| FlatBuffers.CommitWithinLimit | include/coio/utils/flat_buffer.h:194-249 | and after one commit if and only if no more was committed than the limit left |
| FlatBuffers.LimitIsExceeded | include/coio/utils/flat_buffer.h:194-249 | it does fail: with a limit of 10 and the first block of 512 bytes, 100 bytes can be prepared and committed |
| FlatBuffers.ServedExactly | include/coio/utils/flat_buffer.h:194-245 | the requests after which the buffer is well-formed, or which are refused, are exactly those of Served, and all requests while the readable bytes are within the limit |
| FlatBuffers.GrownExactly | include/coio/utils/flat_buffer.h:220-230 | a new block has room for the request exactly when it is within the limit, the old block or the first 512 bytes; the doubling never wraps |
| FlatBuffers.FlatBuffer.Prepare | include/coio/utils/flat_buffer.h:194-245 | for every request of Served the buffer becomes what Prepared says, or nothing changes and it throws; a new block is allocated only when the whole block is too small for the readable bytes and the request; by compaction or growth the readable bytes stay what they are |
| FlatBuffers.GrownCapacity | include/coio/utils/flat_buffer.h:220-230 | the loop computes the capacity that GrownExactly speaks of |
| FlatBuffers.DoublesWhileItCan | include/coio/utils/flat_buffer.h:220-230 | the capacity is doubled until there is room, as long as that keeps within the limit; only then it is exactly what is needed, or allowed |
| FlatBuffers.FlatBuffer.Compact | include/coio/utils/flat_buffer.h:207-215 | moving the readable bytes to the front in place changes none of them |
| FlatBuffers.FlatBuffer.Commit | include/coio/utils/flat_buffer.h:247-249 | exactly the prepared bytes committed become readable, behind the others, as Committed says |
| FlatBuffers.FlatBuffer.Consume | include/coio/utils/flat_buffer.h:251-253 | exactly the first bytes are dropped |
| FlatBuffers.FlatBuffer.Reserve | include/coio/utils/flat_buffer.h:261-281 | fails exactly above the limit; the readable bytes stay, the capacity never shrinks |
| FlatBuffers.FlatBuffer.ShrinkToFit | include/coio/utils/flat_buffer.h:283-312 | the capacity becomes the size and the readable bytes stay; the branch that moves bytes within a full block is never reached |
| FrameLayout.AllocatorFits | include/coio/detail/co_memory.h:54-66 | for every frame size, allocator size and power-of-two alignment below or above that of the units: the stored allocator is aligned, lies behind the frame and ends inside the block |
| FrameLayout.AllocatedExactly | include/coio/detail/co_memory.h:41-135 | in all four forms, the units allocated are the fewest with room for the frame, the stored function behind it and the stored allocator, wherever the block lies |
| FrameLayout.UnitsAreLeast | include/coio/detail/co_memory.h:54-66 | with fewer units there is a block, aligned as `operator new` aligns it, in which the allocator would not fit |
| FrameLayout.FrameIsFree | include/coio/detail/co_memory.h:110-135 | whatever the coroutine writes into its frame reaches neither the stored function nor the stored allocator |
| FrameLayout.Memory.Allocate | include/coio/detail/co_memory.h:41-67 | function and allocator are stored without overlap, outside the frame and inside the block |
| FrameLayout.Memory.DeallocateErased | include/coio/detail/co_memory.h:137-141 | the stored function, read back behind the frame, finds the allocator and the number of units that `allocate` used |
| FrameLayout.Memory.DeallocateTyped | include/coio/detail/co_memory.h:69-80 | the allocator that was stored is found again, with the same number of units |
| FrameLayout.CeilingIsLeast | include/coio/detail/co_memory.h:14-27 | rounding up gives the least multiple that is not below |

## Left out

- System calls and kernel rings: `epoll` beyond readiness, success and failure; io_uring, IOCP, sockets, files, pipes, real signals.
- Memory orders weaker than sequential consistency, thread identities, real clocks.
- The sender/receiver templates, environments, concepts, `when_any`, `async_scope`, schedulers: they rest on code outside the repository.
- `inplace_vector`, `streambuf`, `object_pool`, `fixed_string`, `retain_ptr`, `scope_exit`: containers and wrappers that would add only easy members.
- The per-tag copies of `do_start` and `perform`: one input and one output operation stand for all of them.
- ERR and HUP readiness as claims of their own: either direction clears the recorded bits, so only IN and OUT are claimed.
- EpollReadiness.CloseKeeps: closing is modelled only with empty slots, because `close()` deletes the registration and does not complete what waits.
- EpollReadiness.DispatchKeeps: the two directions of one event are separate steps here, although the lock is held across them; that only adds interleavings.
- The bounded number of entries and events in one `epoll_wait`: one entry is followed, with any number of its events fetched.
- OpQueues.AddKeeps: `enqueue` of a node that already heads a chain is left out; its callers assert that the link is null.
- TimeLoop.NoLostWakeup: the queue and the heap appear as what the loop asks of them; that the queue and the heap answer so is OpQueues and TimerQueues.
- AsyncSemaphore.SemaphoreIsSound: a release at the maximum terminates the program and has no next state; acquisitions whose token can never be stopped construct no callback and are not followed separately.
- Fifos.FifoIsSound: a semaphore is its count of permits here; that the real one conserves permits and serves in order is AsyncSemaphore.
- AsyncLatch.RearriveKeeps: an address comes back only after the call that pushed it has returned, although a waiter may already be completed while its own call still pops for others.
- SignalWait.EveryWaitIsSound: one signal number is followed; the watchdog reads only valid numbers, so `pop_all` is never called with a negative one there.
- Generators.Resume: a generator that neither yields nor ends again is not resumed; the code would not come back from it either.
- Generators.Iterate: nested generators are fresh ones; moving an already started generator into `elements_of`, and destroying frames, are left out.
- JsonSyntax.AcceptsExactly: as everywhere in the JSON part, a number with a fraction or an exponent means its text.
- JSON floats: a number with a fraction or an exponent keeps its text, and `from_chars` on it, with its range error, is not modelled; `dump` of floats is lossy and left out.
- FrameLayout.AllocatorFits: sizes are unbounded here, so `n + sizeof(alloc_t) + ...` does not wrap.
- FlatBuffers.FlatBuffer.Prepare: requests outside Served are left out: with the readable bytes already above the limit, `max_ - len` wraps, and a request that then passes the check may get a block without room for it. `ServedExactly` says which ones these are.
- `intrusive_list::append` and `clear`, which none of the modelled code calls.
- Copying, moving and swapping flat buffers, and allocator propagation.
- ReadUntil.ReadUntilText: a buffer that already exceeds its limit is left out, and the end of the input stands for every error of the device.
- `write`, `read_at` and the other transfer loops next to `read_until`.

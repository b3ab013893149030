# linuxpp, modelled and proved

A Dafny model of the three parts of linuxpp that hold state worth reasoning about, and
proofs of what they keep.

**The event loop** (`src/ioloop.cpp`, `include/liblinuxpp/ioloop.hpp`, with its timerfd,
eventfd and epoll helpers). One thread waits on epoll and calls back; the callbacks use
the very lists the loop is traversing. A callback is an arbitrary finite list of
operations, given by an arbitrary function from handles to operations, so a claim about
all such functions is a claim about all callbacks. Clock readings are arguments, and a
timerfd is an optional deadline with the two clock readings of its arming.

| module | what it holds |
|---|---|
| `MonotonicTimer` | deadline to timespec to expiry |
| `OneShotTimeouts`, `OneShotProofs`, `OneShotPlan`, `OneShotRequests`, `OneShotEffects`, `OneShotAsWritten`, `TimeoutQueue` | one-shot timeouts: the model, what every run keeps, an independent account of what a pass runs, what only a request can do and what each does, how the code departs from its intent, and the members that update the queue in place |
| `PeriodicTimeouts`, `PeriodicProofs`, `PeriodicPlan`, `PeriodicEffects`, `PeriodicAsWritten`, `PeriodicQueue` | the same for periodic timeouts; the state records whether the code as written has done anything undefined |
| `CallbackQueue` | add_callback and process_callbacks, interleaved step by step |
| `Handlers`, `HandlerProofs`, `HandlerEffects`, `HandlerRemovals`, `HandlerTable` | the handler map and the epoll interest set, and what becomes of a handler removed during a batch |
| `IoLoop`, `IoLoopProofs`, `IoLoopRuns`, `IoLoopDelivery`, `IoLoopEffects` | the four parts together, every callback free to use all of them |

**Datagrams over TCP** (`src/net/tcp_datagram_socket.cpp`,
`include/liblinuxpp/length_prefixed_message.hpp`, `accumulate` in
`include/liblinuxpp/iovec.hpp`): `Framing` is the reference format, `Receiver` and
`ReceiverProofs` the resumable and the blocking receiver, `LengthPrefixed` the framers,
`DatagramSocket` the objects.

**Descriptors across popen** (`src/subprocess/popen.cpp`): `Descriptors` and
`DescriptorProofs` are the child's side, `Spawn`, `SpawnProofs` and `SpawnRuns` the
parent's side and any number of children, `Popen` the members that change the tables in
place.

Code that updates members in place is a class whose methods are proved equal, step for
step, to the functions of the model; the laws are proved about those functions.

Where the code departs from its evident intent, the model keeps the code as it is, shows
the departure, and says exactly when it matters:

- `src/ioloop.cpp:249-271` moves its iterator before it tests the deadline, so the entry
  that ends the loop is erased unrun. `Variant` names both readings;
  `OneShotAsWritten` says when they differ.
- `src/ioloop.cpp:329` erases an iterator of one vector from another, and
  `include/liblinuxpp/ioloop.hpp:380` returns the front of a vector that is empty. The
  state of the model is the intended one and records that either was reached;
  `PeriodicAsWritten` says in which runs.
- `include/liblinuxpp/length_prefixed_message.hpp:146` copies the payload over the
  length.
- `src/ioloop.cpp:485-497` expects ENOENT from epoll for a closed descriptor; the kernel
  answers EBADF, and the loop throws, with everything behind that descriptor still to
  be pruned. `HandlerRemovals` says what follows.
- `src/subprocess/popen.cpp:407-431` leaves open what it had opened.
- `src/subprocess/popen.cpp:76-107` assumes descriptors that do not collide.

## Model

| member | source | states |
|---|---|---|
| `MonotonicTimer.TimespecIsExact` | include/liblinuxpp/monotonic_timerfd.hpp:48-74 | for every duration, the kernel accepts the timespec exactly when the duration is not negative; it encodes the duration exactly, or 1 ns for zero, and never switches the timer off |
| `MonotonicTimer.OneshotNeverEarlyNeverLost` | src/monotonic_timerfd.cpp:24-39 | for every deadline and pair of clock readings the timer is armed, expires no earlier than the deadline, and later only by the arming lag or the 1 ns of a deadline already past |
| `MonotonicTimer.ReadableInTime` | src/monotonic_timerfd.cpp:24-39 | a timer armed no later than for a deadline is readable once that deadline, or 1 ns since the clock was read, and the arming lag have passed |
| `OneShotTimeouts.LowerBound` | src/ioloop.cpp:144-157 | everything before the position is earlier than the deadline and what is at it is not |
| `OneShotTimeouts.RunOps` | src/ioloop.cpp:159-234 | during a traversal no sequence of additions and removals moves, adds or drops an entry, touches the timer or turns a mark off |
| `OneShotTimeouts.Traverse` | src/ioloop.cpp:236-268 | the loop ends within the list it started with, whatever its callbacks add |
| `OneShotProofs.TraverseKeeps` | src/ioloop.cpp:245-268 | conservation holds in the middle of a traversal, for any callbacks, and the loop stops only at the end or at a live entry that is not due |
| `OneShotProofs.PassKeeps` | src/ioloop.cpp:236-299 | a pass keeps order, conservation, once-only and wake-up |
| `OneShotProofs.EveryRunKeepsInvariant` | src/ioloop.cpp:159-299 | in every reachable state: strict order by deadline then newest first; every handle in exactly one of pending, queued, run once, removed or dropped; nothing run twice, early or with another's callback; the timer armed no later than the front |
| `OneShotProofs.EveryRunExtendsHistory` | src/ioloop.cpp:200-299 | over every run a handle that ran or was removed stays so for ever; as intended nothing is ever dropped |
| `OneShotProofs.PassRunsInOrder` | src/ioloop.cpp:245-261 | a pass runs a subsequence of the queue by deadline, newest first among equals, each once due and with the callback its handle was issued with |
| `OneShotProofs.PassSettlesDue` | src/ioloop.cpp:236-299 | after a pass every due entry has run or was removed and no other has run |
| `OneShotProofs.NoTimeoutStarves` | src/ioloop.cpp:175-197 | in every reachable state a queued handle has a timer that becomes readable at its deadline plus the arming lag, and reading it settles the handle |
| `OneShotRequests.PassRemovesRequested` | src/ioloop.cpp:200-234 | only a callback that asks for it removes a handle during a pass |
| `OneShotRequests.PassDecides` | src/ioloop.cpp:236-299 | a queued timeout nobody removes runs in the pass that finds it due and, as intended, stays queued otherwise |
| `OneShotEffects.RemovalIsRecorded` | src/ioloop.cpp:200-234 | a removal turns the record of a queued or pending handle into removed, and changes nothing else of the history, nor the timer |
| `OneShotEffects.RemovalOutside` | src/ioloop.cpp:203-222 | outside a traversal it takes exactly the handle's entry out of the queue, the others staying in order; a handle no longer wanted changes nothing |
| `OneShotEffects.RemovalInside` | src/ioloop.cpp:203-234 | during one it marks exactly the handle's entry, or takes a held-back addition back |
| `OneShotEffects.RemovedNeverRuns` | src/ioloop.cpp:200-299 | over every run a wanted timeout that is removed stays removed and its callback is never called |
| `OneShotEffects.AdditionIsRecorded` | src/ioloop.cpp:159-198 | an addition issues the next handle for the deadline and the callback asked for |
| `OneShotEffects.AdditionOutside` | src/ioloop.cpp:175-197 | outside a traversal it is queued among the others, which stay in order; the timer is armed for it exactly if it is now the earliest |
| `OneShotEffects.AdditionInside` | src/ioloop.cpp:163-173 | during one it is held back behind the others and the timer is left alone |
| `OneShotEffects.PassRearms` | src/ioloop.cpp:295-298 | after a pass the timer is armed for exactly the earliest deadline left, with that arming's clock, and off if there is none |
| `OneShotEffects.EveryRunAims` | src/ioloop.cpp:175-298 | over every run the timer is only ever armed for a deadline somebody asked for |
| `OneShotEffects.PassIssuesAdditions` | src/ioloop.cpp:236-299 | what the callbacks of a pass add, the pass issues |
| `OneShotPlan.TraversedFollowsPlan` | src/ioloop.cpp:245-268 | marks, iterator and loop do what a plan computed from the queue and the callbacks alone says; the loop stops early exactly when some entry is neither due nor cancelled |
| `OneShotPlan.PassFollowsPlan` | src/ioloop.cpp:236-299 | the callbacks a pass runs are exactly those of the plan, in order, and an entry that is not due is removed exactly when the plan cancels it |
| `OneShotAsWritten.VariantsDifferInOneHandle` | src/ioloop.cpp:249-271 | the code as written runs the same callbacks as intended and differs in the fate of one handle, the entry that stopped the loop |
| `OneShotAsWritten.DropsIffSomethingSurvives` | src/ioloop.cpp:249-271 | a pass as written loses a handle exactly when the intended pass leaves an entry it found queued |
| `OneShotAsWritten.DropsIffSomeLeftOver` | src/ioloop.cpp:249-271 | told before the pass: it loses a handle exactly when some entry is not due and no callback of the plan cancels it |
| `OneShotAsWritten.ConservesIffLossless` | src/ioloop.cpp:236-299 | over whole runs the code as written conserves every handle if and only if no pass begins with an entry it would leave over, and then it reaches the intended state |
| `OneShotAsWritten.LosesATimeout` | src/ioloop.cpp:249-271 | two additions and one wake-up lose the second timeout |
| `TimeoutQueue.Timeouts.constructor` | src/ioloop.cpp:37-56 | the empty queue satisfies the invariant |
| `TimeoutQueue.Timeouts.AddTimeout` | src/ioloop.cpp:159-198 | the member updates equal the model's addition; the handle is new |
| `TimeoutQueue.Timeouts.RemoveTimeout` | src/ioloop.cpp:200-234 | the search, erase and mark equal the model's removal |
| `TimeoutQueue.Timeouts.RunExpired` | src/ioloop.cpp:245-268 | the iterator loop is the model's traversal, with the iterator one past the entry that stopped it |
| `TimeoutQueue.Timeouts.EraseUpTo` | src/ioloop.cpp:270-272 | the erase after the loop takes that entry too |
| `TimeoutQueue.Timeouts.Settle` | src/ioloop.cpp:274-298 | remove_if, the merge loop and the re-arming equal the model's |
| `TimeoutQueue.Timeouts.ProcessTimeouts` | src/ioloop.cpp:236-299 | the whole of process_timeouts is the pass as written and keeps the invariant |
| `TimeoutQueue.Timeouts.ProcessTimeoutsIntended` | src/ioloop.cpp:236-299 | with the iterator advanced after the test it is the intended pass |
| `PeriodicTimeouts.RunOps` | src/ioloop.cpp:301-333 | during a traversal no operation moves, adds or drops a periodic entry |
| `PeriodicProofs.FreshHandleIsHeldBack` | include/liblinuxpp/ioloop.hpp:355-370 | a handle added during a traversal is in the pending vector and not in the queue, so removing it in that traversal always takes the path that erases through the wrong vector |
| `PeriodicProofs.ResetPrefixResetsAll` | src/ioloop.cpp:377-392 | once marked entries are dropped the early-breaking reset loop makes every processed entry due at now + its period, clears its flag, and leaves every other as it is |
| `PeriodicProofs.PassKeeps` | src/ioloop.cpp:335-423 | a periodic pass keeps order, conservation and wake-up, for any callbacks and any order std::sort gives to ties |
| `PeriodicProofs.EveryRunKeepsInvariant` | src/ioloop.cpp:301-423 | in every reachable state the list is sorted, its timer armed for the front, and exactly the handles not removed are queued |
| `PeriodicProofs.PassOutcome` | src/ioloop.cpp:335-423 | what a pass runs and when; each survivor that ran is queued for later + its period, with its handle, period and callback and both flags clear, and every other as it was |
| `PeriodicProofs.PassAddsOnlyNew` | src/ioloop.cpp:401-414 | every handle in the list after a pass was in it before or was issued during the pass |
| `PeriodicProofs.PassParts` | src/ioloop.cpp:401-414 | the list after a pass is the renewed entries and, unchanged, the ones held back during it |
| `PeriodicProofs.RemovedIsNotStarted` | src/ioloop.cpp:341-364 | a handle removed during a traversal does not start in the rest of it |
| `PeriodicProofs.RemovedStaysSilent` | src/ioloop.cpp:301-423 | over every run a removed handle never has its callback start again |
| `PeriodicProofs.TraverseRemovesRequested` | src/ioloop.cpp:341-364 | only a callback that asks for it removes a handle |
| `PeriodicEffects.RemovalIsRecorded` | src/ioloop.cpp:301-333 | a removal turns the record of a handle not removed yet into removed, and changes nothing else of the history, nor the timer |
| `PeriodicEffects.RemovalOutside` | src/ioloop.cpp:304-321 | outside a pass it takes exactly the handle's entry out of the queue |
| `PeriodicEffects.RemovalInside` | src/ioloop.cpp:304-333 | during one it marks exactly the handle's entry, or takes a held-back addition back |
| `PeriodicEffects.RemovedNeverStarts` | src/ioloop.cpp:301-423 | over every run a handle that is removed stays removed and its callback never starts again |
| `PeriodicEffects.AdditionIsRecorded` | include/liblinuxpp/ioloop.hpp:355-396 | an addition issues the next handle for the period and the callback asked for |
| `PeriodicEffects.AdditionOutside` | include/liblinuxpp/ioloop.hpp:337-396 | outside a pass it is queued for now + period, behind everything earlier and before everything else; the timer is armed for it exactly if it is now the earliest |
| `PeriodicEffects.AdditionInside` | include/liblinuxpp/ioloop.hpp:360-370 | during one it is held back, for now + period, and the timer is left alone |
| `PeriodicEffects.PassRearms` | src/ioloop.cpp:417-422 | after a pass the timer is armed for exactly the earliest deadline, and off if there is none |
| `PeriodicEffects.OnePeriodApart` | include/liblinuxpp/ioloop.hpp:306-311 | over every run, after a pass that ran a callback nobody removed, it does not start again before one period has passed since that pass renewed it |
| `PeriodicEffects.PassIssuesAdditions` | src/ioloop.cpp:335-423 | what the callbacks of a pass add, the pass issues |
| `PeriodicProofs.NoTimeoutStarves` | src/ioloop.cpp:335-423 | in every reachable state a queued periodic handle has its wake-up, and the pass it causes runs it and queues it for later + its period unless it is removed |
| `PeriodicProofs.SortExists` | src/ioloop.cpp:395-398 | the assumption on std::sort can be met |
| `PeriodicPlan.TraversedFollowsPlan` | src/ioloop.cpp:341-364 | marks and loop do what a plan computed from the queue and the callbacks alone says |
| `PeriodicPlan.PassFollowsPlan` | src/ioloop.cpp:335-423 | the callbacks a pass runs are exactly those of the plan, in order; an entry is removed exactly when the plan cancels it, and is otherwise queued again, for later + its period if it was due |
| `PeriodicAsWritten.EveryRunIsTainted` | include/liblinuxpp/ioloop.hpp:372-381 | in every reachable state an undefined handle has been returned if and only if any handle was issued |
| `PeriodicAsWritten.DefinedIffNothingAdded` | include/liblinuxpp/ioloop.hpp:372-381 | as written a run from the beginning is defined if and only if it adds no periodic timeout |
| `PeriodicAsWritten.ErasesIffStrays` | src/ioloop.cpp:301-333 | with that return repaired a run is defined if and only if in no pass a callback removes a handle that a callback of the same pass added, told from the plan of each pass |
| `PeriodicAsWritten.AddThenRemoveStrays` | src/ioloop.cpp:323-331 | a due callback that adds a timeout and removes it again reaches the undefined erase |
| `PeriodicQueue.PeriodicTimeouts.AddPeriodicTimeout` | include/liblinuxpp/ioloop.hpp:355-396 | the members equal the model; the handle returned is the new one except on an empty list outside a pass, where it is undefined |
| `PeriodicQueue.PeriodicTimeouts.RemovePeriodicTimeout` | src/ioloop.cpp:301-333 | as written the behaviour is defined exactly when the handle is queued or nowhere, and then equals the model |
| `PeriodicQueue.PeriodicTimeouts.RemoveIntended` | src/ioloop.cpp:301-333 | erasing from the pending vector instead is the model's removal in every case |
| `PeriodicQueue.PeriodicTimeouts.InvokeExpired` | src/ioloop.cpp:341-364 | the invoke loop, with callbacks that remove as written or as repaired: defined exactly when nothing is erased through the wrong vector, and then the model's traversal |
| `PeriodicQueue.PeriodicTimeouts.ResetProcessed` | src/ioloop.cpp:377-392 | the reset loop is the model's, and entry by entry: due at now + its period with the flag clear as long as everything before it was processed, untouched from there on |
| `PeriodicQueue.PeriodicTimeouts.ProcessPeriodicTimeouts` | src/ioloop.cpp:335-423 | the whole of process_periodic_timeouts, as written and as repaired: as written defined exactly when the pass erases nothing through the wrong vector, and then the model's pass, keeping the invariant |
| `CallbackQueue.NextKeeps` | src/ioloop.cpp:63-78 | every step of every thread keeps mutual exclusion, exactly-once first-in-first-out conservation and the wake-up |
| `CallbackQueue.EveryInterleavingKeepsInvariant` | src/ioloop.cpp:425-442 | over every interleaving of any number of producers with the loop, executed ++ in hand ++ queued equals the additions in lock order, and a non-empty queue has its wake-up under way, also at a saturated counter |
| `CallbackQueue.NothingIsLost` | src/ioloop.cpp:425-442 | from rest in any reachable state the loop alone gets a queue that is not empty called if and only if the eventfd is readable, and one round of process_callbacks then does it; it is readable if the write of even one queued callback went through or met a saturated counter |
| `CallbackQueue.DeliverableIff` | src/ioloop.cpp:425-442 | in any reachable state with nobody inside add_callback, wherever the loop stands, the loop alone gets everything called if and only if the queue is empty, the eventfd is readable or the loop is on its way to the queue |
| `CallbackQueue.ReadableIff` | src/ioloop.cpp:63-78 | after any interleaving the eventfd is readable if and only if some write came after the last read, or it was readable before and nothing read it |
| `CallbackQueue.CounterCounts` | src/ioloop.cpp:63-78 | after any interleaving the counter is the number of writes since the last read, up to saturation |
| `CallbackQueue.EveryRunDeliversIff` | src/ioloop.cpp:63-78 | so over every interleaving that ends at rest with callbacks queued, the loop alone calls them if and only if a write came after its last read |
| `CallbackQueue.FailedWriteStrandsCallback` | src/ioloop.cpp:63-78 | a write that fails for another reason leaves its callback queued, and the loop alone never calls it |
| `CallbackQueue.Callbacks.AddCallback` | src/ioloop.cpp:63-78 | the callback is queued last, EAGAIN is no error, and the counter is up unless it threw |
| `CallbackQueue.Callbacks.ProcessCallbacks` | src/ioloop.cpp:425-442 | everything added before the move is called in order; everything added after stays queued with the eventfd readable |
| `HandlerProofs.DispatchFollowsLivePointers` | src/ioloop.cpp:466-478 | whatever the handlers of a batch do, each event finds its element alive and calls its own callback |
| `HandlerProofs.BatchKeeps` | src/ioloop.cpp:462-500 | a batch keeps registrations consistent and calls exactly the reported handlers in order |
| `HandlerEffects.AdditionSucceedsIff` | src/ioloop.cpp:80-105 | an addition succeeds exactly for an open descriptor without a handler |
| `HandlerEffects.AdditionTakesEffect` | src/ioloop.cpp:80-105 | it registers a new element with the events and callback asked for in map and kernel alike, counts it, and changes no other registration; if it throws it changes nothing |
| `HandlerEffects.RemovalOutside` | src/ioloop.cpp:107-142 | outside a batch a removal takes the handler out of the map, the interest set and the counter at once, changes no other registration, and throws exactly when the descriptor is closed |
| `HandlerEffects.RemovalInside` | src/ioloop.cpp:117-122 | during a batch it is put off and nothing else changes |
| `HandlerEffects.RemovedOutsideIsNeverCalled` | src/ioloop.cpp:107-142 | over every run a handler removed outside a batch is never called again |
| `HandlerEffects.DispatchDoesWhatIsAsked` | src/ioloop.cpp:466-471 | the dispatch of a batch does exactly what its handlers ask for, in the order of their events, and logs one call for each |
| `HandlerProofs.EveryDispatchIsLive` | src/ioloop.cpp:444-502 | in every run, even one that closes registered descriptors, no dispatch follows a dangling pointer and the event buffer is large enough |
| `HandlerProofs.DeadIsNeverCalled` | src/ioloop.cpp:107-142 | over every run a handler element that has left the map is never called again |
| `HandlerProofs.UnwatchedIsNeverCalled` | src/ioloop.cpp:444-502 | nor is one that epoll cannot report, whatever is opened, closed, added or removed; a new registration is a new element |
| `HandlerRemovals.NeverCalledIffUnwatched` | src/ioloop.cpp:444-502 | in any state between batches an element is never called again, in any run, if and only if epoll cannot report it |
| `HandlerRemovals.PruneErasesReached` | src/ioloop.cpp:479-500 | pruning erases exactly the handlers it reaches before it throws |
| `HandlerRemovals.RemovedIsDeadIff` | src/ioloop.cpp:479-500 | after a batch a handler is gone if and only if it waits to be pruned and no descriptor up to its first occurrence is closed, whatever an earlier throw left behind |
| `HandlerRemovals.ReachedIsNeverCalled` | src/ioloop.cpp:462-500 | such a handler is not called in any later round of any run |
| `HandlerRemovals.NeverCalledIffReached` | src/ioloop.cpp:462-500 | for every handler in the map after a dispatch: it is never called in any later run if and only if pruning reaches it or the kernel had stopped watching its descriptor |
| `HandlerRemovals.RemovedIsNeverCalledAgain` | src/ioloop.cpp:107-142 | a handler that a handler of a batch asks to remove is out of the map after the batch and never called again, if no descriptor with a handler was closed |
| `HandlerRemovals.RemovedIsCalledAgain` | src/ioloop.cpp:479-500 | a handler removed behind a closed descriptor survives the throw and is called in the next batch |
| `HandlerRemovals.StaleRemovalErases` | src/ioloop.cpp:479-500 | what such a throw leaves to be pruned makes every later batch erase a new handler of that descriptor, which nobody removed, as long as the descriptor stays open |
| `HandlerProofs.PruneThrowsIffClosed` | src/ioloop.cpp:485-497 | pruning throws exactly when a descriptor to be pruned is no longer open |
| `HandlerProofs.BatchAgrees` | src/ioloop.cpp:462-500 | if no descriptor with a handler has been closed, after a batch map, interest set and counter match and exactly the removed descriptors, removed once or often, are gone |
| `HandlerProofs.EveryRunAgreesIff` | src/ioloop.cpp:80-142 | over every run map, interest set and counter match afterwards if and only if no descriptor was ever closed while it had a handler; nothing repairs it later |
| `HandlerProofs.EveryCarefulRunSettles` | src/ioloop.cpp:462-500 | and then nothing is waiting to be pruned between rounds |
| `HandlerProofs.RemoveThenCloseThrows` | src/ioloop.cpp:485-497 | from every state with nothing to prune, a handler that removes and then closes its own descriptor makes the loop throw, with its handler still in the map and its removal still to come |
| `HandlerTable.Table.AddHandler` | src/ioloop.cpp:80-105 | map and epoll change together or not at all |
| `HandlerTable.Table.RemoveHandler` | src/ioloop.cpp:107-142 | put off during a batch, immediate otherwise |
| `HandlerTable.Table.DispatchEvents` | src/ioloop.cpp:466-478 | the dispatch loop is the model's |
| `HandlerTable.Table.PruneRemoved` | src/ioloop.cpp:480-500 | the pruning loop is the model's, up to where it throws |
| `HandlerTable.Table.RunOnce` | src/ioloop.cpp:444-502 | one round is the model's batch, keeps the invariant and calls exactly the reported handlers |
| `IoLoop.RunOps` | src/ioloop.cpp:159-234 | whatever a callback does to all four parts, a list being traversed keeps its entries and the batch of callbacks in hand stays as it is |
| `IoLoopProofs.RunOpsSplits` | src/ioloop.cpp:63-234 | the four parts of the loop do not see each other's operations |
| `IoLoopProofs.PerformShadows` | src/ioloop.cpp:466-471 | one dispatched element does in each part exactly the operations of the user's handler, or of the timeouts or callbacks that ran, in their order |
| `IoLoopProofs.DispatchShadows` | src/ioloop.cpp:466-478 | a batch of the whole loop does in each part exactly what its events' traces say: for a user's handler its own operations, for the loop's own what the callbacks that ran do |
| `IoLoopRuns.EveryLoopRunSplits` | src/ioloop.cpp:444-502 | every run of the whole loop, with callbacks of every kind using every part, is in each part the run made of exactly what they do there |
| `IoLoopRuns.EveryLoopRunKeepsInvariants` | src/ioloop.cpp:444-502 | so the invariants of all four parts hold in every state the loop reaches |
| `IoLoopRuns.EveryLoopRunIsFinal` | src/ioloop.cpp:444-502 | over every run of the loop one-shot history is not rewritten, removed periodic timeouts stay silent, and handler elements that have left the map are not called |
| `IoLoopRuns.NeverCalledIffUnwatched` | src/ioloop.cpp:444-502 | in every state between rounds of the whole loop a handler element is never called again, however the loop runs on, if and only if epoll cannot report it |
| `IoLoopRuns.NeverCalledIffReached` | src/ioloop.cpp:444-502 | whatever kind of callback asked for its removal during a batch, a handler is never called after it if and only if pruning reached it or the kernel had stopped watching its descriptor |
| `IoLoopRuns.RemovedHandlerIsNeverCalled` | src/ioloop.cpp:444-502 | with no descriptor closed while it has a handler, that is every handler removed during the batch |
| `IoLoopRuns.EveryLoopRunAgreesIff` | src/ioloop.cpp:444-502 | over every run of the whole loop map, interest set and counter match afterwards if and only if no descriptor was ever closed while it had a handler |
| `IoLoopRuns.EveryCarefulLoopRunSettles` | src/ioloop.cpp:479-500 | and then nothing is waiting to be pruned between rounds |
| `IoLoopRuns.EveryLoopRunDefinedIff` | include/liblinuxpp/ioloop.hpp:355-396 | which runs of the loop as written the model describes: the returned periodic handle is undefined in exactly the runs that issue one, and otherwise exactly a pass that removes what it added is undefined |
| `IoLoopRuns.EveryLoopRunConservesIff` | src/ioloop.cpp:236-299 | as written, a run of the whole loop conserves every one-shot handle if and only if no pass in it begins with a timeout it would leave over, and then its one-shot timeouts end up as intended |
| `IoLoopDelivery.CreatedInOrder` | src/ioloop.cpp:37-56 | the constructed loop satisfies all invariants, with exactly its own four descriptors registered and map, interest set and counter in agreement |
| `IoLoopDelivery.QueuedTimeoutRuns` | src/ioloop.cpp:236-299 | wherever the timer's event stands in a batch, a timeout still queued when it is reached and in time has its timer readable, and the batch settles it for good |
| `IoLoopDelivery.QueuedPeriodicRuns` | src/ioloop.cpp:335-423 | the same for a periodic timeout: the batch runs its callback or it is removed |
| `IoLoopDelivery.OneReportable` | src/epoll.cpp:194-208 | any registered descriptor can be reported by itself, as the event buffer always has room |
| `IoLoopDelivery.ProcessCallbacksCalls` | src/ioloop.cpp:425-442 | process_callbacks calls everything that had been added, in order, and queues exactly what those callbacks add |
| `IoLoopDelivery.PerformRests` | src/ioloop.cpp:466-471 | any event adds exactly the callbacks its operations post, in order, and calls none unless it is the eventfd's |
| `IoLoopDelivery.EveryLoopRunRests` | src/ioloop.cpp:425-442 | between rounds nobody is inside add_callback and nothing is left half run |
| `IoLoopDelivery.AddedCallbacksRun` | src/ioloop.cpp:444-478 | a non-empty queue has its eventfd readable, and a batch that reports it, anywhere among other events, calls every callback added before, once each and in order |
| `IoLoopEffects.UserHandlerActs` | src/ioloop.cpp:466-471 | a user's handler that is reported has all its operations done, in every part |
| `IoLoopEffects.AddedTimeoutIsIssued` | src/ioloop.cpp:466-471 | a timeout added by anything in a batch, wherever its event stands, is issued for the deadline and callback asked for |
| `IoLoopEffects.AddedPeriodicIsIssued` | src/ioloop.cpp:466-471 | the same for a periodic timeout, its period and its callback |
| `IoLoopEffects.PostedCallbackIsAdded` | src/ioloop.cpp:466-471 | a callback added by anything in a batch is among the ones the batch has added |
| `IoLoopEffects.RemovedHandlerWaits` | src/ioloop.cpp:466-478 | a handler removed by anything in a batch waits to be pruned when it ends |
| `IoLoopEffects.HandlersDoWhatIsAsked` | src/ioloop.cpp:466-478 | the handlers after a batch, before it prunes, are what its events ask for, one after another, and nothing else |
| `IoLoopEffects.RemovedOutsideIsNeverCalled` | src/ioloop.cpp:107-142 | a handler removed outside a batch is never called again, however the loop runs on |
| `Framing.ParseEncode` | src/net/tcp_datagram_socket.cpp:234-251 | parsing undoes encoding, whatever follows on the stream |
| `Framing.ParseAppend` | src/net/tcp_datagram_socket.cpp:206-232 | parsing as bytes arrive gives what parsing them all at once gives |
| `ReceiverProofs.OrHeaderIsBigEndian` | src/net/tcp_datagram_socket.cpp:159-183 | or-ing header bytes in as they come gives the big-endian value of those seen |
| `ReceiverProofs.ReceiverTracksParser` | src/net/tcp_datagram_socket.cpp:206-232 | over every run of calls the state, buffer and deliveries are those of the reference parse of the bytes consumed |
| `ReceiverProofs.DeliversWholeFrames` | src/net/tcp_datagram_socket.cpp:206-232 | at any point exactly the frames wholly consumed have been delivered, an empty one waiting for one more call |
| `ReceiverProofs.BlockedCallChangesNothing` | src/net/tcp_datagram_socket.cpp:186-204 | a call that finds no bytes and throws leaves state, deliveries and stream alone; a buffer being filled has the length of its message, with what is in it kept |
| `ReceiverProofs.RoundTrip` | src/net/tcp_datagram_socket.cpp:155-251 | for all payloads that fit and every way of cutting the stream, deliveries are a prefix of the payloads and all of them when the stream is used up |
| `ReceiverProofs.EnoughCallsDeliver` | src/net/tcp_datagram_socket.cpp:155-232 | as many calls as bytes and payloads left, none idle, deliver everything |
| `ReceiverProofs.RunsAgreeWithRecv` | src/net/tcp_datagram_socket.cpp:123-153 | any run of recv_part to the next finished state fills the buffer and uses the stream as one recv does |
| `ReceiverProofs.TruncatedNeverFinishes` | src/net/tcp_datagram_socket.cpp:123-153 | where recv reports truncation no run of recv_part finishes |
| `ReceiverProofs.MessageCanFinish` | src/net/tcp_datagram_socket.cpp:186-232 | where recv delivers, two full calls of recv_part do |
| `ReceiverProofs.ChunksDoNotMatter` | src/net/tcp_datagram_socket.cpp:155-204 | runs that consumed equally many bytes agree on deliveries and state, but for finished against fresh |
| `LengthPrefixed.AccumulateWraps` | include/liblinuxpp/iovec.hpp:574-585 | wrapping every partial sum at 32 bits is the true sum modulo 2^32 |
| `LengthPrefixed.PrefixIsTotalModulo` | include/liblinuxpp/length_prefixed_message.hpp:112-116 | narrowed to 16 bits it is the true sum modulo 2^16 |
| `LengthPrefixed.VectorGathersMessage` | include/liblinuxpp/length_prefixed_message.hpp:100-122 | the vector framer's iovecs read as length then buffers |
| `LengthPrefixed.MessageIsFrameIffItFits` | include/liblinuxpp/length_prefixed_message.hpp:112-122 | a message parses as exactly its concatenated buffers if and only if they are shorter than 65536 bytes |
| `LengthPrefixed.BufferAndVectorAgree` | include/liblinuxpp/length_prefixed_message.hpp:74-80 | the single-buffer framer sends what the vector framer sends for any scattering of that buffer |
| `LengthPrefixed.ArraySendsMessageIffEmpty` | include/liblinuxpp/length_prefixed_message.hpp:139-147 | as written the array framer sends the message if and only if it has no buffers |
| `LengthPrefixed.SendsEncode` | src/net/tcp_datagram_socket.cpp:244-251 | a sequence of sends puts the encoding of the payloads on the stream |
| `LengthPrefixed.StreamHoldsPayloadsIffFit` | src/net/tcp_datagram_socket.cpp:244-251 | the stream of any number of messages parses as exactly their payloads, nothing left over, if and only if each is shorter than 65536 bytes |
| `DatagramSocket.MessageVector.Fill` | include/liblinuxpp/length_prefixed_message.hpp:112-122 | whatever the vector held before, it now reads as the message |
| `DatagramSocket.MessageArray.constructor` | include/liblinuxpp/length_prefixed_message.hpp:139-147 | what the copy from slot 0 leaves in the slots |
| `DatagramSocket.Socket.RecvSizePart` | src/net/tcp_datagram_socket.cpp:155-184 | the byte loop over the header equals the model and takes only what was asked for |
| `DatagramSocket.Socket.OrBytes` | src/net/tcp_datagram_socket.cpp:166-172 | the or-loop is the model's fold |
| `DatagramSocket.Socket.RecvMsgPart` | src/net/tcp_datagram_socket.cpp:186-204 | resize, receive and state change equal the model |
| `DatagramSocket.Socket.RecvPart` | src/net/tcp_datagram_socket.cpp:206-232 | the dispatch on the state equals the model |
| `DatagramSocket.Socket.ReceiveAll` | src/net/tcp_datagram_socket.cpp:206-232 | call after call, the deliveries are those of the modelled connection |
| `DatagramSocket.Socket.Recv` | src/net/tcp_datagram_socket.cpp:123-153 | the blocking receive: a whole message; or one of the two truncation errors with the stream used up and the buffer untouched, or resized and filled as far as the bytes went |
| `DatagramSocket.Socket.SendBuffer` | src/net/tcp_datagram_socket.cpp:234-242 | what goes out is a prefix of the frame |
| `DatagramSocket.Socket.SendVector` | src/net/tcp_datagram_socket.cpp:244-251 | what goes out is a prefix of the message of these buffers, not of an earlier one |
| `DatagramSocket.EndToEnd` | src/net/tcp_datagram_socket.cpp:155-251 | messages that fit, sent as scattered buffers, come out of recv_part whole and in order for every cutting, all of them after enough calls; if one does not fit, no way of receiving gives these messages |
| `DescriptorProofs.CompatibleIsRight` | src/subprocess/popen.cpp:76-107 | for every table and all streams, compatible descriptors give stdin, stdout and stderr the right end of their stream or what was inherited |
| `DescriptorProofs.RightIsCompatible` | src/subprocess/popen.cpp:169-205 | and where distinct descriptors are distinct files nothing else does |
| `DescriptorProofs.CompatibleIffAlwaysRight` | src/subprocess/popen.cpp:169-205 | descriptors are compatible if and only if every table with those descriptors open comes out right |
| `DescriptorProofs.FirstClosedEndDecides` | src/subprocess/popen.cpp:173-205 | with descriptors at least 3 and distinct across streams, exit code 2, 3 or 4 names the first stream whose end is not open, and otherwise the set-up is right |
| `DescriptorProofs.ClosesRestIff` | src/subprocess/popen.cpp:109-238 | the closing loops leave exactly the standard descriptors if and only if every other open one is listed, or below a finite limit when the listing failed |
| `DescriptorProofs.ClosingEndsIff` | src/subprocess/popen.cpp:208-222 | the closing comes to its end unless the listing does not and the limit is unknown |
| `DescriptorProofs.ToIntWraps` | src/subprocess/popen.cpp:226-226 | the cast of the limit wraps modulo 2^32 into the range of an int |
| `DescriptorProofs.EveryWayCloses` | src/subprocess/popen.cpp:208-238 | the directory alone, brute force alone, and any part of the directory followed by brute force give the same table |
| `DescriptorProofs.ExecIsIntendedIff` | src/subprocess/popen.cpp:169-253 | the child executes with exactly the intended table if and only if its signals can be unblocked, the streams are set up right, and the closing loops run to their end and reach every other descriptor |
| `DescriptorProofs.ChildAtExec` | src/subprocess/popen.cpp:169-253 | the child executes with exactly the intended stdin, stdout and stderr and nothing else |
| `SpawnProofs.OwnStreamsAreApart` | src/subprocess/popen.cpp:310-327 | streams popen opens itself never share a descriptor, and avoid the standard ones if those were open |
| `SpawnProofs.CloneOutcome` | src/subprocess/popen.cpp:285-452 | after any call, whatever was asked for: what parent and child hold, descriptor by descriptor, the child's told from the descriptors of the streams and the reach of the closing loops |
| `SpawnProofs.StartsIff` | src/subprocess/popen.cpp:395-431 | a call starts a child exactly when every stream can be opened, the clone succeeds, the child's set-up gets as far as execve, and execve succeeds; else it throws |
| `SpawnProofs.ChildExitsWith` | src/subprocess/popen.cpp:169-253 | the child gets as far as execve, or exits with 2, 3, 4, 6 or 5, each exactly in the case it stands for, told from the descriptors and the kernel's answers |
| `SpawnProofs.OpenGives` | src/subprocess/stream_descriptors.cpp:3-26 | what each kind of stream opens: the two ends of one new pipe, one new file, or nothing new |
| `SpawnProofs.PipesConnect` | src/subprocess/popen.cpp:433-449 | of each pipe of a successful call the right end is the child's standard descriptor and the other is in the parent, held by the popen object; a path is the child's alone |
| `SpawnProofs.ParentKeepsOnlyItsEnds` | src/subprocess/popen.cpp:433-449 | for streams popen opens itself, the parent's table is the old one plus exactly the ends the popen object holds, whatever the child does |
| `SpawnProofs.OwnedOrKept` | src/subprocess/popen.cpp:255-273 | each descriptor of each stream is either the child's or the popen object's, never both |
| `SpawnProofs.ThrowLeaksIff` | src/subprocess/popen.cpp:407-431 | a call that throws leaves the parent's table as it was if and only if it had opened nothing |
| `SpawnProofs.SharedDescriptorFails` | src/subprocess/popen.cpp:183-205 | one descriptor for both stdout and stderr never works |
| `SpawnProofs.StdinIsLost` | src/subprocess/popen.cpp:83-104 | in a parent without stdin the pipe for the child's stdin becomes descriptor 0 and the child closes it |
| `SpawnRuns.OpeningKeeps` | src/subprocess/popen.cpp:306-327 | opening streams keeps every file of popen in one place |
| `SpawnProofs.ChildHolds` | src/subprocess/popen.cpp:169-253 | with descriptors at least 3 and distinct across streams and a thorough closing, a child that executes holds its streams' ends and the inherited standard files, and nothing else |
| `SpawnRuns.StepConservesIff` | src/subprocess/popen.cpp:285-452 | whatever is asked for, a call keeps every file popen ever opened in one place if and only if the child's descriptors of such files are exactly those the parent gives up, each under one number |
| `SpawnRuns.EveryRunConservesIff` | src/subprocess/popen.cpp:285-452 | over any number of calls, failed ones included: every pipe end or file popen opened is always open in exactly one process under exactly one descriptor, if and only if every call that starts a child is exact in that sense |
| `SpawnRuns.SeparateIsExact` | src/subprocess/popen.cpp:76-107 | descriptors at least 3 and distinct across streams make a call exact |
| `SpawnRuns.EveryAdmissibleRunConserves` | src/subprocess/popen.cpp:285-452 | so runs of such calls always conserve, and no child has anything but its standard descriptors |
| `SpawnRuns.LostStdinIsInexact` | src/subprocess/popen.cpp:83-104 | the pipe given to a parent without stdin is lost by an inexact call |
| `Popen.Process.HandleChildStream` | src/subprocess/popen.cpp:76-107 | the close, dup2, close sequence is the model's |
| `Popen.Process.CloseAllViaProc` | src/subprocess/popen.cpp:109-167 | the loop over the directory is the model's, on every way out |
| `Popen.Process.CloseByForce` | src/subprocess/popen.cpp:224-237 | the loop up to the limit, cast to int, is the model's |
| `Popen.Process.CloneHandler` | src/subprocess/popen.cpp:169-253 | the child's whole set-up is the model's, with its exit codes |
| `Popen.Process.OpenStream` | src/subprocess/pipe_stream.cpp:8-11 | a stream's open(): a pipe's two ends, one descriptor for a path, the caller's own, or a throw that changes nothing |
| `Popen.Object.OpenAll` | src/subprocess/popen.cpp:306-327 | the streams opened in order, up to the first that throws |
| `Popen.Object.Clone` | src/subprocess/popen.cpp:285-452 | parent, child and object after the call are those of the model; it returns a child exactly when the order and the kernel's answers allow one |

## Left out

- Thin system-call wrappers (open, pipe, read, write, fcntl, bind, connect, accept, socket options, the UDP and TCP socket classes): they forward arguments and translate errno.
- The make_iovec and fill_iovec overloads: only the resulting list of buffers matters; the vector framer's filling constructor does what Fill does.
- unique_fd and int_descriptor: plain descriptors here. The popen object's members start closed, so overwriting an open one does not arise.
- stop, keep_running_, signals, signal_mutex, the clone stack, memory ordering, pid and status accessors, wait and poll on the child.
- Exceptions thrown by user callbacks, a recursive start(), and a timerfd read that blocks because a handler re-armed the timer earlier in the same batch: a pass whose timer is not readable is taken not to happen.
- Wait errors other than EINTR (src/ioloop.cpp:453-471), which fall through to dispatch with the events of the wait before: a wait here succeeds or is interrupted.
- Real time: durations are whole nanoseconds of unbounded integers, so overflow of the clock's 64 bits and rounding of finer durations are not modelled.
- Handle ids are consecutive within one loop; several loops share the counter, which only leaves gaps. Their 64-bit wrap-around is not modelled.
- IoLoop.Op: a call of add_callback is one critical section in the whole-loop model; its steps are interleaved freely in CallbackQueue. Its eventfd write does not fail in the whole-loop model; CallbackQueue has the failure.
- Handlers: a registered descriptor that is duplicated, so that the kernel keeps the registration after a close, is not modelled.
- Descriptors: close-on-exec flags on the inherited standard descriptors, and a close that fails, are not modelled; the kernel's numbering of new descriptors is any free number.
- DatagramSocket.Socket.Recv: the end of the stream is the end of `incoming`; errors of the socket itself are not modelled.
- A receive of zero bytes is taken to return at once; on an empty TCP queue it may answer EAGAIN or block, and a trailing empty frame then waits for later data.
- bool_sentry is taken to restore its flag at the end of its scope, and network_byte_order to be big-endian and of the size of its type.
- new_callbacks_ is taken to be empty after it is moved from.

# Verified model of the event loop

This project models the prioritised event-loop scheduler of the eventhandler library: the queue
`EventQueueBase` with its four handle-time-sorted sub queues (VIP, IMMEDIATE, HIGH, LOW) and its idle
list, the vsync and barrier state machine on top of it, the protocol that puts the loop thread to sleep
and wakes it, the waiters of synchronous senders, and the collector that joins finished threads.

## How the model is built

- `Events.dfy`, `EventLists.dfy`: the event record and the helpers on one list. The loops of the source
  are methods; each is proved equal to a function on sequences.
- `Vsync.dfy`: the vsync and barrier fields and their transitions, the frame grid and the poll back-off.
- `QueueState.dfy`: the whole queue as a value, and what each operation does to it.
- `EventQueueBase.dfy`: the queue as a class that is updated in place. Every method that takes the queue
  lock in the source is a method here, with the source's loops, and its `ensures` equates the new state
  (`View()`) with the function of the old one from `QueueState.dfy`. What the source promises is proved
  about those functions in the files below.
- `PickPolicy.dfy`, `RoundPolicy.dfy`, `Ordering.dfy`, `VsyncAccounting.dfy`, `FrontCache.dfy`,
  `PendingQuery.dfy`, `Sending.dfy`: which event a pick chooses, how long a sleep lasts, what barrier mode
  and the idle gate let through, order, the vsync count, the cached front times, the yield query.
- `Timeouts.dfy`, `Waiters.dfy`: deadlines as lengths of waits; `NoneIoWaiter`, `EpollIoWaiter` and
  `WaiterImp`, each as a value with its transitions and as a class.
- `EventLoop.dfy`: the event loop as a system of steps. A step is one region that the source protects by
  a lock (or one unlocked region of a wait), so the steps of the runner, of inserting and removing
  threads, of `Finish`, of a change of the waiter and of synchronous senders interleave in every order.
- `LoopQueue.dfy`, `LoopHistory.dfy`, `LoopSleep.dfy`, `LoopSync.dfy`, `LoopRuns.dfy`: what every step
  keeps, and the promises over whole runs.
- `LoopProgress.dfy`, `FinishRuns.dfy`, `PollRuns.dfy`, `PolicyRuns.dfy`, `BarrierRuns.dfy`, `CountRuns.dfy`,
  `WaiterRuns.dfy`: how soon a due event is served, what `Finish` guarantees, when a missed poll overflows,
  what keeps barrier mode away, begins it and ends it, when the vsync count is exact, and what a wait leaves
  behind, over whole runs.
- `ExampleRuns.dfy`: runs from the start that reach the configurations in which a promise fails.
- `ThreadCollector.dfy`: deposit, reclaim and stop of threads, as a class and as a system of steps.

Time is a number of nanoseconds; `MAX_TIME` is `InnerEvent::TimePoint::max()`. Every reading of the
clock is a parameter, and one round of `GetEvent` takes five readings that may differ but do not go back.
The system parameters of the barrier (4, 50 and 100 ms) have their default values; the thresholds of
the yield query are a parameter. Object identity is a number that is used once. Counts of one event are
taken with `Copies`, the number of times it is queued.

Assumptions about callers, all of them visible as conditions of a step: an event object is inserted at
most once, a vsync task is sent to VIP without a barrier mark, and at most 127 vsync tasks are pending
at once, because the counter is an `int8_t`. `Sending.VsyncRouteIsDisciplined` says exactly when the
route from a file descriptor meets this: the type of a listener is read at registration for the priority
and again at each event for the vsync mark, and must not become vsync in between. What goes wrong
otherwise is stated by `VsyncAccounting.VsyncInsertExact`, `Sending.RepairForgetsExactly` and
`Sending.RetypedListenerIsForgotten`.

## Where the code and its documentation differ

- The declaration of `Finish` says that `GetEvent` never returns an event after it. That holds exactly when
  `GetEvent` is not polling inside `TryEpollFd` at that moment (`FinishRuns.FinishDuringPoll`); a call that is
  polling still returns the one event it holds (`FinishRuns.FinishedOverRuns`,
  `ExampleRuns.EventAfterFinish`).
- `MarkBarrierTaskIfNeed` asks for the priority of the event before `Insert` has set it, so its VIP
  clause sees the priority of an earlier insertion and never marks a fresh VIP event
  (`Sending.VipMarkNeedsEarlierPriority`; all marks are in `Sending.MarkedExactly`).
- The comment on `VIP` says that its queue is distributed until its tasks are completed. VIP is subject to the
  counter that gives lower queues a turn like every other queue; a due VIP event is served exactly when
  VIP has turns left or no lower queue passes (`PickPolicy.VipIsServed`, `ExampleRuns.VipIsBypassed`). The same
  condition for HIGH, which is documented to go before LOW, is in `PickPolicy.ChosenExactly`.
- `GetEvent`'s own vsync pop does not refresh the cached front time (`FrontCache.FrontsStayExact`,
  `ExampleRuns.YieldToNothing`).
- `SetVsyncPolicy(DISABLE_VSYNC_FIRST)` keeps barrier mode away by turning lazy mode on, but one check
  inside a forced window turns lazy mode off and nothing after it turns it back on, so that barrier mode
  can be entered after the window although the policy is disabled again (`Vsync.ForcedWindowUndoesDisable`,
  `PolicyRuns.DisabledOverRuns`, `ExampleRuns.BarrierThoughDisabled`).
- `PostIdleTask` documents its delay as the time after which the task is processed. An idle event whose time
  lies ahead does not shorten a sleep, so a due task can be slept over until something else wakes the loop; when is
  stated exactly by `RoundPolicy.SleepsOverIdleExactly`, and `ExampleRuns.IdleTaskSleptOver` is a run.
- A missed poll can push the check time beyond `int64_t` when a vsync task arrives and is removed with
  its handler during the poll (`PollRuns.PollOverflowsExactly`, `ExampleRuns.OverflowIsReachable`).

## Model

| member | source | states |
|---|---|---|
| LoopRuns.BoundedStarvation | frameworks/eventhandler/src/event_queue_base.cpp:468-517 | in any run in which a queue passes the scan at every pick, at most 215 events are picked from other queues before LOW has its turn, 71 before HIGH, 11 before IMMEDIATE and 1 before VIP, whatever is inserted or removed in between; vsync picks do not count, except that for HIGH there must be none |
| PickPolicy.LowWaitsItsTurn | frameworks/eventhandler/src/event_queue_base.cpp:471-511 | while LOW passes, each pick from a higher queue strictly increases the counters read as a base-6 number, and a vsync pick never decreases it |
| PickPolicy.LowWaitsExactly | frameworks/eventhandler/src/event_queue_base.cpp:471-511 | the bound is attained: when all four queues pass, LOW is picked exactly when that number is 215, any other pick adds exactly one, and LOW's turn resets it to 0 |
| PickPolicy.TurnComes | frameworks/eventhandler/src/event_queue_base.cpp:471-511 | while a queue passes, each pick from another queue strictly increases what has been used up before its turn: the counters above it in base 6, plus one more round once it has given its turn to a lower queue |
| PickPolicy.VsyncUsesUpTurns | frameworks/eventhandler/src/event_queue_base.cpp:483-503 | the exception: HIGH pays with its counter before the vsync override takes the pick, so each vsync pick costs HIGH a turn against LOW, and when all are gone the next other event comes from LOW |
| PickPolicy.ChosenExactly | frameworks/eventhandler/src/event_queue_base.cpp:471-495 | a queue is chosen by the scan exactly when it passes, every passing queue above has used up its turns, and it has turns left or competes with no lower queue |
| PickPolicy.VipIsServed | interfaces/inner_api/event_queue.h:136-146 | a VIP queue with a due event is served exactly when it has turns left or no lower queue passes |
| ExampleRuns.VipIsBypassed | frameworks/eventhandler/src/event_queue_base.cpp:471-511 | a run from the start in which a LOW task is served while a VIP task is due |
| LoopRuns.BlockedWithReasonWakes | frameworks/eventhandler/src/none_io_waiter.cpp:37-73 | in every reachable configuration, if the blocked runner has a reason to wake (finished, vsync pending, a sub-queue event before its deadline) then the waiter it sleeps on is signalled or its timer is over, and the wake step is enabled |
| LoopSleep.NoLostWakeUp | frameworks/eventhandler/src/none_io_waiter.cpp:37-59 | the same from the invariant that every step keeps, across a change of the waiter |
| LoopSleep.NoLostWakeUpBeforeBlocking | frameworks/eventhandler/src/none_io_waiter.cpp:37-56 | a notification between releasing the queue lock and blocking makes the blocking call return at once |
| LoopSleep.DueEventWakes | frameworks/eventhandler/include/event_handler_utils.h:36-63 | a due sub-queue event is slept over for no longer than the time between computing the wait and starting it, plus one millisecond of rounding for epoll |
| LoopSleep.InsertRaisesAlarm | frameworks/eventhandler/src/event_queue_base.cpp:212-234 | if an insertion gives a sleeper a reason to wake, Insert asks for a notification, also when insertion at the front lowered the time of the event |
| LoopSleep.InsertNotifiesForReason | frameworks/eventhandler/src/event_queue_base.cpp:212-234 | Insert notifies exactly for a vsync task, an event before the deadline or a deadline that has passed, and never for an idle event |
| WaiterRuns.NotifiedOnlyWhileWaiting | frameworks/eventhandler/src/epoll_io_waiter.cpp:115-209 | in every reachable configuration an epoll waiter counts the runner exactly while it waits, so its awaken descriptor is written exactly then |
| WaiterRuns.NoStaleSignal | frameworks/eventhandler/src/none_io_waiter.cpp:56-58 | over any run, after a wait a NoneIoWaiter is signalled again only by a later notification |
| WaiterRuns.BlockingTakesSignal | frameworks/eventhandler/src/epoll_io_waiter.cpp:132-147 | a returning epoll wait takes the awaken signal with it exactly if it was reported; otherwise the next wait returns at once |
| WaiterRuns.CurrentWaiterExactly | frameworks/eventhandler/src/event_queue.cpp:129-199 | a step replaces the current waiter exactly on a request for an epoll waiter by a queue without one, or on a failed epoll wait, by a fresh epoll waiter or a fresh NoneIoWaiter |
| LoopSleep.SwapKeepsSleep | frameworks/eventhandler/src/event_queue.cpp:170-199 | replacing the waiter under a sleeping runner keeps it signalled: the old waiter is notified before it is replaced |
| LoopSleep.FinishKeepsSleep | frameworks/eventhandler/src/event_queue.cpp:430-438 | Finish signals the waiter that the runner sleeps on |
| LoopSleep.SharedStepKeepsSleep | frameworks/eventhandler/src/event_queue_base.cpp:191-407 | every step of another thread keeps the sleep invariant: alarm implies signalled waiter |
| LoopSleep.RunnerStepKeepsSleep | frameworks/eventhandler/src/event_queue.cpp:129-138 | every step of the runner keeps it, and a sleep starts without alarm |
| LoopRuns.VsyncNeverForgotten | frameworks/eventhandler/src/event_queue_base.cpp:213-216 | in every reachable configuration the pending count covers every queued vsync task and the one handed out but not yet run, is never negative, and is positive in barrier mode; vsync tasks sit at VIP and are never barrier tasks |
| VsyncAccounting.RoundKeepsVsync | frameworks/eventhandler/src/event_queue_base.cpp:598-632 | a round of GetEvent keeps the vsync account, counting the task it hands out; the reset to zero happens only when no vsync task exists |
| VsyncAccounting.RemoveOrphansKeepsVsync | frameworks/eventhandler/src/event_queue_base.cpp:245-267 | orphan removal takes exactly the removed vsync tasks off the count |
| VsyncAccounting.RemoveKeepsVsync | frameworks/eventhandler/src/event_queue_base.cpp:352-375 | removal by filter, which leaves the count alone, keeps the count sufficient |
| VsyncAccounting.InsertKeepsVsync | frameworks/eventhandler/src/event_queue_base.cpp:213-216 | insertion by a disciplined sender keeps the vsync account |
| VsyncAccounting.HandleTaskKeepsVsync | frameworks/eventhandler/src/event_queue.cpp:272-280 | running a vsync task takes it off the count and ends barrier mode; dropping it leaves the count sufficient |
| VsyncAccounting.VsyncInsertExact | interfaces/inner_api/event_queue.h:418-427 | one more vsync task at VIP stays covered exactly when the int8 counter is not at 127 |
| CountRuns.CountOverRuns | frameworks/eventhandler/src/event_queue.cpp:272-280 | from the start the count is exactly the number of queued and handed-out vsync tasks until the first step that loses one: a removal by filter or of everything that takes one, or a drop by the loop |
| CountRuns.RepairNeedsLoss | frameworks/eventhandler/src/event_queue_base.cpp:615-623 | in any run from the start the repair branch is reached only after a vsync task has been lost |
| VsyncAccounting.RepairAtMostOnce | frameworks/eventhandler/src/event_queue_base.cpp:598-623 | after a repair the count is 0 and the next round does not repair, so GetEvent starts over at most once between two waits |
| VsyncAccounting.UntilWait | frameworks/eventhandler/src/event_queue_base.cpp:598-632 | GetEvent between two waits never ends in a repair |
| VsyncAccounting.PollAdditionFits | frameworks/eventhandler/src/event_queue.cpp:400-419 | the addition fits when the fields are as they were at the start of the poll |
| PollRuns.PollOverflowsExactly | frameworks/eventhandler/src/event_queue.cpp:400-419 | over any run from the round that starts an unannounced poll to its end, the addition leaves int64 exactly when a vsync task was announced during the poll with no frame report after it, the count is zero again and the period is below its limit; then orphans were removed during the poll |
| PollRuns.PlanWhilePolling | interfaces/inner_api/event_queue.h:418-427 | during the poll the check time is the maximum once an announcement has replaced the plan, and leaves room for one more period otherwise |
| PollRuns.PollOverflows | frameworks/eventhandler/src/event_queue.cpp:400-419 | from any unannounced poll with nothing pending, a vsync task that arrives and leaves with its dead owner makes the end of the poll overflow by exactly the period |
| ExampleRuns.OverflowIsReachable | frameworks/eventhandler/src/event_queue.cpp:400-419 | a run from the start reaches a check time beyond INT64_MAX |
| LoopRuns.SleepsExactly | frameworks/eventhandler/src/event_queue_base.cpp:598-629 | in every run GetEvent goes to sleep only with no vsync pending and out of barrier mode, and the deadline is the exact minimum of all sub-queue handle times, which lies ahead |
| RoundPolicy.SleepIsExact | frameworks/eventhandler/src/event_queue_base.cpp:519-563 | the same for one round from any state that satisfies the invariants |
| RoundPolicy.SleepIgnoresIdle | frameworks/eventhandler/src/event_queue_base.cpp:541-563 | the deadline is the same whatever the idle list holds |
| RoundPolicy.SleepsOverIdleExactly | frameworks/eventhandler/src/event_queue_base.cpp:519-563 | a sleep goes on beyond the time of an idle event exactly when no sub queue holds an event that is as early |
| ExampleRuns.IdleTaskSleptOver | frameworks/eventhandler/src/event_queue_base.cpp:541-563 | a run from the start in which an idle task is due and may run, nothing else is queued, and the runner is blocked with no step to take |
| RoundPolicy.RoundEndings | frameworks/eventhandler/src/event_queue_base.cpp:612-623 | a round ends in the own vsync pop of GetEvent, or in a repair, exactly from the states before it in which a vsync is pending and neither the pick nor the idle list can give anything, with the vsync task at VIP announced but not polled, or absent |
| LoopRuns.BarrierOverRuns | frameworks/eventhandler/src/event_queue_base.cpp:116-143 | in every run, each event obtained in barrier mode is either a vsync task that is not a barrier task, or a barrier task due at its pick, idle list included |
| RoundPolicy.BarrierSafety | frameworks/eventhandler/src/event_queue_base.cpp:513-547 | the same for one round from any well-formed state |
| RoundPolicy.BarrierProgress | frameworks/eventhandler/src/event_queue_base.cpp:96-107 | in barrier mode a due barrier task in any sub queue makes the pick return an event |
| LoopRuns.IdleGateOverRuns | frameworks/eventhandler/src/event_queue_base.cpp:535-558 | from an idle queue with stamp T, in any run without a successful pick the stamp stays T and no idle event sent after T is handed out |
| RoundPolicy.IdleGate | frameworks/eventhandler/src/event_queue_base.cpp:535-558 | an idle event is handed out only when no sub queue has anything to give, not before its time, and only if sent no later than the busy-to-idle stamp |
| RoundPolicy.IdleServedExactly | frameworks/eventhandler/src/event_queue_base.cpp:535-558 | a round takes an idle event exactly when there is nothing to pick and an idle event has come due, was sent by the time the queue turned idle, and is the head or in barrier mode a barrier task; it takes the first such event |
| RoundPolicy.HandedOutIsDue | frameworks/eventhandler/src/event_queue_base.cpp:471-558 | nothing but a vsync task is handed out before its time |
| RoundPolicy.PollsExactly | frameworks/eventhandler/src/event_queue_base.cpp:605-611 | a round polls before it returns its event exactly when no vsync is pending, lazy mode is off or a forced window is open, and the announcement has not been seen or the check time has passed |
| RoundPolicy.StampMoves | frameworks/eventhandler/src/event_queue_base.cpp:526-539 | the idle stamp moves only after a successful pick has made the queue busy |
| LoopRuns.OrderOverRuns | frameworks/eventhandler/src/event_queue_base.cpp:51-80 | over any run, of two events of one priority the one that goes first is never overtaken by a non-vsync one, except in barrier mode by a barrier task when it is none (or among idle events) |
| LoopRuns.SendingOrder | frameworks/eventhandler/src/event_queue_base.cpp:191-230 | an event sent at the end with a time not earlier than a queued one of its priority goes behind it; an event sent at the front goes before everything then queued and its time is only lowered |
| Ordering.RoundPops | frameworks/eventhandler/src/event_queue_base.cpp:468-558 | a round takes one event from one position of one list and changes no other: a vsync task, the head, the first barrier task, or an idle barrier task |
| Ordering.FairKeepsOrder | frameworks/eventhandler/src/event_queue_base.cpp:109-143 | popping such a position keeps the order of any two events it may not invert |
| LoopRuns.Conservation | frameworks/eventhandler/src/event_queue_base.cpp:191-407 | in every reachable configuration the accepted events are exactly the queued plus the handed out plus the removed ones, each once |
| LoopRuns.SendersAreReleased | frameworks/eventhandler/src/inner_event.cpp:42-66 | in every reachable configuration a synchronous sender's waiter is finished exactly when its event is neither queued, in hand nor about to be released; a blocked sender's event is alive, a returned sender's is gone, and a released sender returns at its next step |
| LoopSync.DestroyKeepsSync | frameworks/eventhandler/src/inner_event.cpp:163-169 | destroying events notifies exactly their own senders |
| LoopSync.RemovalsKeepSync | frameworks/eventhandler/src/event_queue_base.cpp:270-375 | removal by filter and RemoveAll release the senders of what they remove |
| LoopSync.ExecutionKeepsSync | frameworks/eventhandler/src/event_runner.cpp:427-446 | both the drop of an event with a dead handler and the end of a dispatch release its sender |
| LoopSync.ReleaseKeepsSync | frameworks/eventhandler/src/event_queue_base.cpp:377-407 | orphans release their senders when the released lists are destroyed, after the lock |
| LoopRuns.RunKeepsInv | frameworks/eventhandler/src/event_queue_base.cpp:191-632 | every configuration of a run satisfies order, priorities, counters, vsync account, history, sleep and sender invariants together |
| LoopRuns.BlockedOverDueEventWakes | frameworks/eventhandler/include/event_handler_utils.h:36-63 | in every reachable configuration a due sub-queue event is slept over for no longer than the time between computing the wait and starting it, plus one millisecond of rounding for epoll |
| LoopRuns.SleepLasts | frameworks/eventhandler/src/none_io_waiter.cpp:37-59 | in every reachable configuration a runner blocked on an unsignalled NoneIoWaiter has no step to take before its deadline or a year, and the timer of epoll does not run out before a deadline that fits it |
| LoopRuns.DueEventIsServed | frameworks/eventhandler/src/event_queue_base.cpp:598-613 | in normal mode a due event in any sub queue makes the next round hand something out |
| LoopProgress.DueEventReachesLoop | frameworks/eventhandler/src/event_queue_base.cpp:598-632 | with a due sub-queue event, in normal or barrier mode, and the runner calling, sleeping or polling, the loop gets an event within at most six steps of the runner plus one for every vsync task announced meanwhile, in any run in which no other thread takes that event or finishes the queue |
| LoopProgress.RunnerComesCloser | frameworks/eventhandler/src/event_queue_base.cpp:598-632 | every step the runner can take then strictly reduces the distance; a round may repair the count once before it serves |
| LoopProgress.RunnerCanMove | frameworks/eventhandler/src/none_io_waiter.cpp:37-59 | the runner has a step to take then, unless it is blocked and the slack of its timer has not passed |
| LoopProgress.DueRound | frameworks/eventhandler/src/event_queue_base.cpp:598-623 | a round with a due sub-queue event hands something out or repairs a count that was not zero, never sleeps |
| FinishRuns.FinishExact | interfaces/inner_api/event_queue.h:247-253 | from a finished queue some run without Prepare lets GetEvent return an event exactly when GetEvent is polling |
| FinishRuns.FinishDuringPoll | interfaces/inner_api/event_queue.h:247-253 | the same at the call of Finish: the documented promise holds exactly when the call does not come during a poll |
| FinishRuns.FinishedOverRuns | frameworks/eventhandler/src/event_queue.cpp:400-438 | over any run from a finished queue without Prepare, nothing leaves the queue, and GetEvent returns exactly one event, the one in hand at the end of the poll, if it was polling and has ended the poll, and none otherwise |
| ExampleRuns.EventAfterFinish | frameworks/eventhandler/src/event_queue.cpp:400-438 | a run from the start reaches a finished queue from which GetEvent still returns an event |
| PickPolicy.ScanExact | frameworks/eventhandler/src/event_queue_base.cpp:471-495 | the scan chooses the first passing queue with turns left, otherwise the last passing queue; a counter is incremented exactly when a lower passing queue loses its turn, and otherwise the reported time is the minimum over all heads |
| PickPolicy.FirstToPass | frameworks/eventhandler/src/event_queue_base.cpp:83-94 | in normal mode the first queue to pass is the highest-priority queue with any due event |
| PickPolicy.PickChoice | frameworks/eventhandler/src/event_queue_base.cpp:468-517 | a non-vsync pick is due and comes from a passing queue; every passing higher queue stands at exactly five and, in normal mode, has a strictly later head; a queue at five is chosen only when no lower queue passes |
| PickPolicy.VsyncGoesFirst | frameworks/eventhandler/src/event_queue_base.cpp:497-503 | a vsync task is picked exactly when it is ready and no VIP or IMMEDIATE queue passes with turns left or without a lower competitor |
| PickPolicy.PickNothing | frameworks/eventhandler/src/event_queue_base.cpp:468-517 | a pick comes back empty exactly when no queue has a due event (barrier mode: a due barrier task) and no vsync task is ready; the reported time is then the earliest head |
| QueueState.PickKeeps | frameworks/eventhandler/src/event_queue_base.cpp:468-517 | a pick keeps all lists sorted, priorities, counters and front bounds, and hands out an event of the priority of its queue |
| QueueState.PickTakesOne | frameworks/eventhandler/src/event_queue_base.cpp:468-517 | a pick takes exactly the event it returns out of the queue, once, and nothing else |
| QueueState.GetExpiredKeeps | frameworks/eventhandler/src/event_queue_base.cpp:519-564 | GetExpiredEventLocked keeps the invariants and makes the front time of the picked queue exact again |
| QueueState.RoundKeeps | frameworks/eventhandler/src/event_queue_base.cpp:598-632 | a round of GetEvent keeps the invariants; its own pop is a vsync task |
| QueueState.RoundTakesOne | frameworks/eventhandler/src/event_queue_base.cpp:598-632 | a round takes exactly the event it hands out, once, and nothing else |
| QueueState.InsertKeepsWellFormed | frameworks/eventhandler/src/event_queue_base.cpp:191-243 | insertion of either kind keeps every list sorted and the priorities right, and makes the front time of its queue exact |
| QueueState.InsertAddsOne | frameworks/eventhandler/src/event_queue_base.cpp:191-243 | an accepted insertion adds exactly one copy of the stored event, a refused one changes nothing |
| QueueState.RemoveKeepsWellFormed | frameworks/eventhandler/src/event_queue_base.cpp:352-375 | removal by filter keeps the invariants and makes every front time exact |
| QueueState.RemoveCopies | frameworks/eventhandler/src/event_queue_base.cpp:352-375 | removal takes out every copy of what the filter selects and keeps every copy of the rest |
| QueueState.RemovalByOwner | frameworks/eventhandler/src/event_queue_base.cpp:285-296 | removal by owner takes out every copy of exactly the events of that owner |
| QueueState.RemovalById | frameworks/eventhandler/src/event_queue_base.cpp:298-310 | removal by event id takes out exactly the events of that owner and id that hold no task |
| QueueState.RemovalByParam | frameworks/eventhandler/src/event_queue_base.cpp:312-326 | removal by id and parameter takes out exactly those that match both |
| QueueState.RemovalByName | frameworks/eventhandler/src/event_queue_base.cpp:328-350 | removal by name takes out exactly the tasks of that owner and name |
| QueueState.OrphanRemoval | frameworks/eventhandler/src/event_queue_base.cpp:245-267 | orphan removal takes out exactly the events of dead owners |
| FrontCache.FrontsOverRuns | frameworks/eventhandler/src/event_queue_base.cpp:218-220 | over any run from exact front times they stay exact precisely until the first round that starts in such a state |
| FrontCache.RoundFronts | frameworks/eventhandler/src/event_queue_base.cpp:613-616 | only that pop can break it, only at VIP, and it leaves the time of the head before the pop |
| FrontCache.FrontsStayExact | frameworks/eventhandler/src/event_queue_base.cpp:613-616 | a round leaves all front times exact unless, before it, nothing else can leave, a vsync task is pending and announced, and the vsync task stands at the head of VIP with no event of the same time behind it; and exactly then not |
| ExampleRuns.YieldToNothing | frameworks/eventhandler/src/event_queue_base.cpp:1093-1121 | a run from the start in which a lone vsync task, while it runs, leaves every list empty and the yield query of an idle task answering that something is queued |
| FrontCache.FrontIsNeverLate | frameworks/eventhandler/src/event_queue_base.cpp:1104-1105 | in every reachable configuration the cached time is a lower bound, and says empty only of an empty queue |
| EventLists.InsertEventsLocked | frameworks/eventhandler/src/event_queue_base.cpp:51-80 | the backward search stores the event at the position after the last event that is not later, or at the front with its time lowered to the head's |
| EventLists.EndSlot | frameworks/eventhandler/src/event_queue_base.cpp:67-79 | everything behind the position is strictly later, what is before it is not |
| EventLists.InsertKeepsSorted | frameworks/eventhandler/src/event_queue_base.cpp:51-80 | either way of inserting keeps the list sorted |
| EventLists.InsertPlaces | frameworks/eventhandler/src/event_queue_base.cpp:51-80 | at the end: behind every event that is not later and before every later one; at the front: before every event |
| EventLists.InsertKeepsContents | frameworks/eventhandler/src/event_queue_base.cpp:51-80 | insertion adds exactly the stored event |
| EventLists.CheckBarrierTaskInListLocked | frameworks/eventhandler/src/event_queue_base.cpp:96-107 | the loop computes the barrier check of the specification |
| EventLists.CheckBarrierIsExact | frameworks/eventhandler/src/event_queue_base.cpp:96-107 | on a sorted list the check hits exactly when a due barrier task is present, the first barrier task is then due, and the reported time looks only at the head |
| EventLists.FindIf | frameworks/eventhandler/src/event_queue_base.cpp:116-143 | the search returns the first position that satisfies the filter, or the length |
| EventLists.RemoveIf | frameworks/eventhandler/src/event_queue_base.cpp:363-369 | the loop keeps exactly the events that do not match and tells whether any did |
| EventLists.WithoutKeeps | frameworks/eventhandler/src/event_queue_base.cpp:391-393 | kept and removed events partition the list |
| EventLists.WithoutKeepsOrder | frameworks/eventhandler/src/event_queue_base.cpp:391-393 | the events that stay keep their order |
| EventLists.WithoutKeepsSorted | frameworks/eventhandler/src/event_queue_base.cpp:391-393 | the events that stay are sorted |
| EventQueueBases.EventQueueBase.Insert | frameworks/eventhandler/src/event_queue_base.cpp:191-243 | in place: the new state, the result and the notification of the waiter are those of the insertion specification, with mark, priority, sorted position, front time and vsync announcement |
| EventQueueBases.EventQueueBase.RemoveMatching | frameworks/eventhandler/src/event_queue_base.cpp:352-375 | in place: all five lists lose exactly the matching events, front times are refreshed; the result says whether any list held a match |
| EventQueueBases.EventQueueBase.RemoveByName | frameworks/eventhandler/src/event_queue_base.cpp:328-350 | returns true exactly when a queued task of that owner and name existed; without owner or name nothing changes |
| EventQueueBases.EventQueueBase.RemoveAll | frameworks/eventhandler/src/event_queue_base.cpp:270-283 | in place: all lists are empty and the front times say so; an unusable queue is left alone |
| EventQueueBases.EventQueueBase.PartitionOrphans | frameworks/eventhandler/src/event_queue_base.cpp:391-402 | splits a list stably into orphans and the rest and takes one pending vsync per orphaned vsync task, ending barrier mode and polling |
| EventQueueBases.EventQueueBase.RemoveOrphan | frameworks/eventhandler/src/event_queue_base.cpp:377-407 | in place: the orphans of all five lists are gone and the vsync fields account for the orphaned vsync tasks |
| EventQueueBases.EventQueueBase.PickFirstVsyncEventLocked | frameworks/eventhandler/src/event_queue_base.cpp:453-466 | in place: takes the first vsync task out of VIP, if there is one |
| EventQueueBases.EventQueueBase.ScanSubQueues | frameworks/eventhandler/src/event_queue_base.cpp:471-495 | the loop chooses the queue, reports the time and increments the counter that the scan specification says, with the early break |
| EventQueueBases.EventQueueBase.PickEventLocked | frameworks/eventhandler/src/event_queue_base.cpp:468-517 | in place: state and event are those of the pick specification |
| EventQueueBases.EventQueueBase.GetExpiredEventLocked | frameworks/eventhandler/src/event_queue_base.cpp:519-564 | in place: state, event and next wake-up time are those of the specification, refreshing the front time by the event's own priority |
| EventQueueBases.EventQueueBase.CheckBarrierMode | frameworks/eventhandler/src/event_queue_base.cpp:573-596 | in place: policy, lazy mode and barrier mode change as specified |
| EventQueueBases.EventQueueBase.GetEvent | frameworks/eventhandler/src/event_queue_base.cpp:598-632 | the loop ends after at most two rounds, with the state and outcome of the specification, and returns nothing exactly when finished |
| EventQueueBases.EventQueueBase.DispatchVsyncTaskNotify | interfaces/inner_api/event_queue.h:418-427 | the five vsync fields after an announcement, with the int8 counter and the receive time capped by the check time |
| EventQueueBases.EventQueueBase.UpdateVsyncCheckTime | interfaces/inner_api/event_queue.h:465-474 | the poll plan after a frame report; a period that is not positive changes nothing |
| EventQueueBases.EventQueueBase.FinishPoll | frameworks/eventhandler/src/event_queue.cpp:404-418 | the poll plan after a poll: unchanged if a vsync arrived, no longer announced, doubled, or switched off |
| EventQueueBases.EventQueueBase.Finish | frameworks/eventhandler/src/event_queue.cpp:430-438 | a usable queue is finished and its waiter notified; an unusable one is left alone |
| EventQueueBases.EventQueueBase.Prepare | frameworks/eventhandler/src/event_queue.cpp:421-428 | a usable queue is no longer finished |
| Vsync.CheckTimeOnGrid | interfaces/inner_api/event_queue.h:465-474 | the check time minus its delay is on the frame grid through the last frame time, at most one period away, and the first grid point at or after now (last frame ahead) or strictly after now |
| Vsync.BackOff | frameworks/eventhandler/src/event_queue.cpp:411-418 | k misses in a row give the period times 2^k and the check time plus (2^k - 1) periods until the limit is reached; the next miss switches polling off and nothing changes after that |
| Vsync.BackOffEnds | frameworks/eventhandler/src/event_queue.cpp:411-418 | from any period a frame report can set, the period stays below 138 ms, the check time moves by less than that, and 28 misses switch polling off |
| Vsync.ReportPlansPolls | interfaces/inner_api/event_queue.h:465-474 | whatever the period was, a frame report plans polls at doubling distances from the reported period capped at 34 ms, until at most 28 misses have switched polling off |
| Vsync.CheckModeKeeps | frameworks/eventhandler/src/event_queue_base.cpp:573-596 | CheckBarrierMode never enters barrier mode without a pending vsync, enters it only on a late one, leaves it by itself only on a time-out that also turns lazy mode on, and adds only to times that have passed |
| Vsync.CheckModeExactly | frameworks/eventhandler/src/event_queue_base.cpp:566-596 | in every state, inside a forced window or not: barrier mode is entered exactly for a pending late vsync out of lazy mode or in a window, left exactly on a time-out with the announcement unseen, and lazy mode is on afterwards exactly when it was left or was on without a window |
| BarrierRuns.BarrierEndsExactly | frameworks/eventhandler/src/event_queue.cpp:272-280 | a step ends barrier mode exactly when a vsync task starts to run, whatever else is pending, an orphaned vsync task is removed, or a round finds the time-out passed or repairs the count |
| BarrierRuns.BarrierBeginsExactly | frameworks/eventhandler/src/event_queue_base.cpp:573-596 | a step begins barrier mode exactly when it is a round that finds a vsync late and has something to give |
| BarrierRuns.BarrierKeepsInterval | interfaces/inner_api/event_queue.h:429-435 | over any run barrier mode does not begin within 4 ms of the completion of a vsync task |
| BarrierRuns.AnnouncementPolledOnce | frameworks/eventhandler/src/event_queue.cpp:400-411 | over any run, after an announcement has been seen by a poll, a sleep or an orphan removal, a round polls on account of one only if another vsync task was announced in between |
| Vsync.BarrierEndsByTimeOut | frameworks/eventhandler/src/event_queue_base.cpp:589-595 | barrier mode ends at a check exactly when the announcement has not been polled and 100 ms have passed since it was entered; lazy mode is then on and no later check, at whatever time, changes anything |
| Vsync.ForcedWindow | frameworks/eventhandler/src/event_queue.cpp:379-388 | inside a forced window every check schedules without default barriers and out of lazy mode; after it, or once it is closed by hand, the policy that was set is back but lazy mode is not |
| Vsync.PolicyDecidesCheck | frameworks/eventhandler/src/event_queue.cpp:390-398 | a policy that is set decides whether the next check enters barrier mode, with its own delay outside a window: never under the disabled policy, and never out of lazy mode by itself |
| Vsync.SettersTakeEffectAtOnce | frameworks/eventhandler/src/event_queue.cpp:370-398 | lazy mode can be set under every policy but the disabled one, at once; a forced window lifts that at once, and one closed by hand leaves no trace at any later check |
| Vsync.ForcedWindowUndoesDisable | frameworks/eventhandler/src/event_queue.cpp:379-398 | after disabling, a late vsync task that comes after a forced window makes the queue enter barrier mode under the disabled policy exactly when some check fell inside the window |
| PolicyRuns.DisabledOverRuns | frameworks/eventhandler/src/event_queue.cpp:370-398 | over any run, disabling (lazy mode on, no barrier mode) lasts exactly until the first step that sets another policy, checks inside a forced window, or switches lazy mode off under a forced policy |
| PolicyRuns.DisabledMeansNoBarrier | frameworks/eventhandler/src/event_queue_base.cpp:573-613 | until the first such step no round is in barrier mode and none polls |
| ExampleRuns.BarrierThoughDisabled | frameworks/eventhandler/src/event_queue_base.cpp:573-588 | a run from the start in which a round enters barrier mode although the policy is disabled and no forced window is open |
| PendingQuery.HasPendingHigherEvent | frameworks/eventhandler/src/event_handler.cpp:583-610 | the loop answers true exactly when some higher-priority level asks for attention; the threshold table is never read beyond HIGH |
| PendingQuery.QueryRefinesDefinition | frameworks/eventhandler/src/event_handler.cpp:583-610 | with exact front times and no vsync business, the answer is true exactly when a higher queue holds an event overdue by its threshold, or for an idle asker any event |
| PendingQuery.QueryExactly | frameworks/eventhandler/src/event_queue_base.cpp:1093-1121 | the whole answer in every state with exact front times: no in barrier mode; otherwise yes exactly for an overdue event, a late pending vsync task, or a late poll |
| PendingQuery.VsyncQueryExactly | frameworks/eventhandler/src/event_queue_base.cpp:1095-1117 | the vsync form is yes exactly under the policy without default barriers, out of lazy and barrier mode, for a late pending vsync task or a late poll |
| PendingQuery.LowFrontNeverHides | frameworks/eventhandler/src/event_queue_base.cpp:1093-1121 | a front time that is too low never hides an overdue event |
| PendingQuery.VsyncQueryMatchesBarrier | frameworks/eventhandler/src/event_queue_base.cpp:1106-1114 | with vsync-first scheduling in force, the reported vsync time has passed exactly when CheckBarrierMode would enter barrier mode now |
| PendingQuery.VsyncAnswerPredictsBarrier | frameworks/eventhandler/src/event_handler.cpp:583-610 | a yes to the vsync form of the question means that CheckBarrierMode enters barrier mode now |
| Sending.VsyncRouteIsDisciplined | frameworks/eventhandler/src/event_queue.cpp:147-168 | a task posted for a file descriptor meets the discipline of the count exactly when it is no vsync task, or its listener was a vsync listener already at registration (or asked for VIP) and the counter is below 127 |
| Sending.RepairForgetsExactly | frameworks/eventhandler/src/event_queue_base.cpp:615-623 | the count is reset exactly when it is not zero, nothing can leave by the pick or from the idle list and VIP holds no vsync task; a vsync task is then still queued exactly when some list other than VIP held one |
| Sending.RetypedListenerIsForgotten | frameworks/eventhandler/src/event_queue.cpp:228-315 | from any state with nothing due and no vsync task, a listener that becomes a vsync listener after it was registered below VIP gets its task queued but forgotten by the next round |
| Sending.VsyncTaskLeavesByOverride | frameworks/eventhandler/src/event_queue.cpp:228-241 | within the 49 days of its delay a vsync task is picked only by the vsync override, and it is never barrier-marked |
| Sending.MarkedExactly | frameworks/eventhandler/src/event_queue_base.cpp:173-206 | exactly which sent events are stored as barrier tasks: by default the undelayed ones of the main thread to the main runner; without default barriers the forced ones, those of that kind that ask for it and those that carried VIP before; none when disabled; never a vsync task |
| Sending.DirectTaskPassesBarrier | frameworks/eventhandler/src/event_queue_base.cpp:96-107 | a task that the main thread sends to itself without delay under the default policy is not held back: while it is queued every later round in barrier mode hands something out |
| Sending.DelayIsKept | frameworks/eventhandler/src/event_handler.cpp:112-121 | a sent event that is no vsync task leaves only in a round that picks at its delay after the sending or later; without a delay it is due at once |
| Timeouts.TimePointToTimeOut | frameworks/eventhandler/include/event_handler_utils.h:36-45 | the length reaches the deadline exactly, and is 0 for a deadline that has passed |
| Timeouts.NanosecondsToTimeout | frameworks/eventhandler/include/event_handler_utils.h:47-60 | a non-negative length becomes milliseconds that are never early and less than one late, unless capped; a negative one means no limit |
| Waiters.NoneIoWaiter.NotifyOne | frameworks/eventhandler/src/none_io_waiter.cpp:61-66 | the waiter is signalled |
| Waiters.NoneIoWaiter.AfterRelock | frameworks/eventhandler/src/none_io_waiter.cpp:56-58 | the predicate is cleared only after the queue lock is held again |
| Waiters.EpollIoWaiter.NotifyAll | frameworks/eventhandler/src/epoll_io_waiter.cpp:188-209 | the awaken descriptor is written exactly when somebody is waiting |
| Waiters.EpollIoWaiter.AfterEpollWait | frameworks/eventhandler/src/epoll_io_waiter.cpp:132-147 | the waiting count goes down, and the awaken descriptor is drained only if it was reported |
| Waiters.EpollIoWaiter.BeforeUnlock | frameworks/eventhandler/src/epoll_io_waiter.cpp:125-127 | the waiting count goes up before the queue lock is released |
| Waiters.WaiterImp.Notify | frameworks/eventhandler/src/inner_event.cpp:52-59 | the waiter is finished and a blocked thread is notified |
| Waiters.WaiterImp.WaitUntilBlocked | frameworks/eventhandler/src/inner_event.cpp:42-50 | the thread returns exactly when the waiter is finished, and blocks with the count raised otherwise |
| ThreadCollectors.AllJoinedOnce | frameworks/eventhandler/src/event_runner.cpp:110-230 | in every run no thread is joined twice or without having been accepted, and when Stop has returned the joined threads are exactly the accepted ones, although the lock is dropped during each join |
| ThreadCollectors.StepKeepsInv | frameworks/eventhandler/src/event_runner.cpp:81-230 | every step keeps every accepted thread in exactly one place, and the collector thread never sleeps un-notified with work to do |
| ThreadCollectors.AnnouncedIsJoined | frameworks/eventhandler/src/event_runner.cpp:81-99 | over any run, once a deposited thread has been announced before Stop, it has been joined whenever the collector thread sleeps un-notified |
| ThreadCollectors.JoinedSoon | frameworks/eventhandler/src/event_runner.cpp:205-225 | an announced thread is joined after at most two steps of the collector thread for every announcement there was and comes, and four more |
| ThreadCollectors.CollectorCanMove | frameworks/eventhandler/src/event_runner.cpp:81-99 | until then the collector thread can take a step or be created, unless the thread it joins has not ended |
| ThreadCollectors.CollectorSleepsExactly | frameworks/eventhandler/src/event_runner.cpp:205-225 | after the inner loop the collector thread goes to sleep exactly when it is not being destroyed and no announced thread is deposited any more |
| ThreadCollectors.JoinedAfterEnd | frameworks/eventhandler/src/event_runner.cpp:176-203 | over any run a thread is joined only after it has ended |
| ThreadCollectors.WorkRunsOut | frameworks/eventhandler/src/event_runner.cpp:143-175 | once destroying_ is set, every step of the collector thread or of Stop uses up work and no other step adds any |
| ThreadCollectors.StopReturns | frameworks/eventhandler/src/event_runner.cpp:143-203 | over any run, once destroying_ is set, Stop has returned after at most as many steps of its own and of the collector thread as there is work left at that moment |
| ThreadCollectors.StopIsNeverStuck | frameworks/eventhandler/src/event_runner.cpp:153-203 | until Stop has returned, it or the collector thread can move, or a thread being joined has not ended |
| ThreadCollectors.DrainedTakesOne | frameworks/eventhandler/src/event_runner.cpp:210-217 | the inner loop takes at most one thread, which was announced and deposited, and loses none |
| ThreadCollectors.ThreadCollector.DrainReclaims | frameworks/eventhandler/src/event_runner.cpp:210-217 | the loop over the announced threads computes that |
| ThreadCollectors.ThreadCollector.TakeAny | frameworks/eventhandler/src/event_runner.cpp:143-151 | ReclaimAll takes some deposited thread exactly while there is one |
| ThreadCollectors.ThreadCollector.MarkDestroying | frameworks/eventhandler/src/event_runner.cpp:153-163 | destroying_ is set and the collector thread notified exactly when it waits |
| ThreadCollectors.ThreadCollector.Deposit | frameworks/eventhandler/src/event_runner.cpp:110-133 | a thread is accepted exactly when it is joinable, has an exit callback and the collector is not being destroyed |
| ThreadCollectors.ThreadCollector.ReclaimCurrentThread | frameworks/eventhandler/src/event_runner.cpp:81-99 | an ending thread is announced unless the collector is being destroyed, and the collector thread is notified exactly when it waits |

## Left out

- The FFRT queue (`event_queue_ffrt.cpp`), the emitters, serialisation, dumps, tracing, history, slow-event reports and `QueryPendingTaskInfo`: wrappers over foreign code or diagnostics.
- Observer and garbage-collection callbacks: the model has no observer subscribed, so no callback shifts a wake-up time.
- File descriptors, `epoll` and `eventfd` calls and `DeamonIoWaiter`: a waiter keeps only its predicate, its waiting count and whether its awaken descriptor is signalled; a callback for a file descriptor is an insertion by the runner.
- `NoWaitModeLoop`, `GetExpiredEvent` and `CheckFileDescriptorEvent` as parts of a run: only `GetExpiredEventLocked`, which they call, is modelled.
- `HasInnerEvent`, `HasPreferEvent`, `IsQueueEmpty`, `IsIdle`: read-only searches that would only add easy members.
- The vsync setters and the decrement at the start of a vsync task are written without the lock in the source; the model takes each as one step.
- `EnsureIoWaiterLocked` on the class: its waiter is fixed, and the replacement of a waiter is a step of the event loop only.
- In-place splicing of list nodes: the lists of the class are sequences that its methods reassign, so the model does not capture iterator validity.
- Cancellation of a wait after a failed `epoll_wait` also clears the table of listeners, which the model does not keep.
- EventQueueBases.EventQueueBase.GetEvent: stops where the source would wait and is continued by the step system, because other threads act while the lock is released.
- PollRuns.PollOverflowsExactly: speaks of clocks and frame reports that stay 138 ms away from the largest `int64_t`, because nearer to it the sums of the frame report itself overflow.
- ThreadCollectors.StopIsNeverStuck: says that Stop or the collector thread can move or that a thread being joined has not ended; that a thread told to exit does end is not modelled.
- Undefined behaviour of signed overflow: sums are mathematical, and the lemmas on ranges say when they fit.

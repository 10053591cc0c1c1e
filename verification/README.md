# Verified models of the FreeRTOS kernel objects and of the Kconfig engine

This project models the parts of the repository whose correctness rests on an argument across several
functions or across many interleaved steps, and proves that argument with Dafny 4.11. Check everything
with `dafny verify dfyconfig.toml`.

| file | what it models |
|---|---|
| `QueueProtocol.dfy`, `QueueRuns.dfy`, `QueueCalls.dfy` | blocking on a queue: tasks, interrupts, the suspended scheduler and the queue lock, as interleaved steps; whole runs, and whole calls |
| `QueueRing.dfy` | the queue's ring of items, at byte level, with `pcWriteTo` and `pcReadFrom` as offsets |
| `Timers.dfy`, `Ticks.dfy`, `TimerCommands.dfy` | the timer daemon over unbounded time, and the code over the wrapping tick count that does the same; what each command does to its timer |
| `StreamProtocol.dfy`, `StreamRuns.dfy`, `StreamCalls.dfy`, `StreamBytes.dfy` | one writer and one reader of a stream or message buffer that interleave byte by byte; whole runs, and whole calls |
| `StreamBuffer.dfy` | the buffer code itself, on an array |
| `EventGroups.dfy`, `EventRuns.dfy`, `Words.dfy`, `Barrier.dfy` | event groups on 32-bit words, waiting for bits over whole runs, and `xEventGroupSync` as a barrier used again and again |
| `CoRoutines.dfy`, `CoRoutineEvents.dfy`, `Turns.dfy` | the co-routine scheduler with its two delay lists, the events that end a delay, and the ready lists whose members take turns |
| `IntrusiveList.dfy`, `Lists.dfy` | the circular doubly linked list on the heap, and lists as sequences |
| `KconfigModel.dfy`, `KconfigGetters.dfy` | symbols and choices, and how a getter computes one cached value from others |
| `KconfigMeaning.dfy`, `KconfigValues.dfy`, `KconfigAssignment.dfy` | what expressions mean, what value a symbol or choice has, and what comes of what the user sets, said without the getters |
| `KconfigEvaluation.dfy` | evaluation without a cache: when it ends, what it gives and what it reads |
| `KconfigCache.dfy`, `KconfigComment.dfy` | the lazily cached values and their invalidation, and the comment that argues for it |
| `KconfigSearch.dfy` | the three-colour search for dependency loops |
| `KconfigLoops.dfy`, `KconfigEscapes.dfy` | what the absence of a loop is worth: when evaluation ends, and configurations in which it does not |
| `KconfigExpr.dfy`, `KconfigGrammar.dfy` | writing expressions and parsing them back, on tokens, and the grammar |
| `KconfigMenu.dfy` | flattening a level of the menu tree and removing its `if` nodes, by pointers |
| `Arithmetic.dfy`, `Wrappers.dfy` | two facts about quotients; optional values |

Where a program variable wraps (tick counts, `int8_t` lock counts, `size_t`), the model wraps it too and
carries the unbounded quantity behind it in a separate field on which no decision depends. `configASSERT`
is not defined in `boards/arm/stm32/FreeRTOSConfig.h`, so asserts are not part of the behaviour; where
the kernel asserts something about a caller's argument, the model requires it.

## What turned out not to hold as written, and when it does

- The queue lock counts are `int8_t` and are capped at the number of tasks. The count is the number of
  interrupts that acted, up to the number of tasks, if and only if there are at most 127 tasks
  (`QueueProtocol.LockCountExactIff`). From any empty queue, no run loses a wake-up, and none leaves a
  task blocked that could go on, if and only if there are at most 127 tasks (`QueueRuns.NoLostWakeUp`,
  `QueueRuns.QuietQueueStrandsNobody`); with more, 128 items added by interrupts while the queue is
  locked are enough (`QueueRuns.LosingRun`).
- `queueOVERWRITE` on a full queue whose items have size 0 makes the number of items exceed the length;
  on any other queue it never does (`QueueRing.Queue.Send`).
- The decision whether a timer command comes too late is right exactly if the delay is below the period,
  or still reaches it modulo 2^32 (`Timers.DecisionIsExactIff`), so for every delay below 2^32 ticks.
- A sample of the time by the timer daemon leaves its lists right exactly if it comes less than 2^32 ticks
  after the last one or leaves no timer on a list (`Timers.SampleIsRightIff`); the theorems about runs are
  about runs of such samples. The daemon waits without limit only when both lists are empty
  (`Timers.Daemon.ProcessTimerOrBlockTask`), and its other waits end in time (`Timers.WaitIsSafe`).
- The indices of stream and message buffers and their sums are of type `size_t`. The counts computed from
  them are right for all indices if and only if the buffer has at most 2^31 bytes
  (`StreamBytes.CountsAreExactIff`). From an empty buffer, every run of a writer and a reader delivers the
  bytes that were accepted if and only if a stream buffer has at most 2^31 bytes
  (`StreamRuns.ReceivedIsPrefixOfSent`), and every run delivers whole messages if and only if a message
  buffer has at most 2^31 + 2 bytes (`StreamRuns.MessagesStayWhole`). In a longer stream buffer the index of
  the writer wraps and unread bytes are overwritten (`StreamRuns.LosingRun`); in a longer message buffer the
  reader counts too few bytes and cuts a message (`StreamRuns.CuttingRun`). By how much each count comes out
  too small is said in `StreamBytes.CountsFromIndices`.
- Tasks that together set all bits waited for may use `xEventGroupSync` as a barrier, so that in no run
  one of them returns early, exactly if every task sets a bit that is waited for and that no other task
  sets (`Barrier.IsBarrierIff`).
- A co-routine delay of 0 ticks misses a whole turn of the counter exactly on the last tick before it
  wraps (`CoRoutines.ZeroDelayIsMissedIff`); `crDELAY` never asks for one.
- The comment in `_rec_invalidate` says that an item whose visibility is not cached has no dependents
  with cached values. Short-circuiting makes that false: in a fresh configuration a single read may do
  (`KconfigComment.CommentMayFail`). It is true of an item and a dependent, whatever is read and set,
  exactly if evaluating the visibility of the dependent computes that of the item
  (`KconfigComment.CommentHoldsIff`), and so for all users if a prompt condition of the dependent always
  reads the item (`KconfigComment.CommentHoldsIfAlwaysRead`). Stopping there is right all the same
  (`KconfigCache.SweepKeepsCoherent`).
- The loop check follows a choice only to its own symbols, and a symbol to its choice only the first time
  it comes to the choice. It raises exactly if there is a loop of the steps that it takes
  (`KconfigSearch.Checker.CheckAll`). Where nothing depends on a choice but its own symbols, it finds every
  loop of the dependencies that `_build_dep` records (`KconfigSearch.DependencyLoopIsFound`). With a menu
  inside a choice there may be one that it never finds (`KconfigEscapes.LoopThroughChoiceEscapes`), and
  whether it finds a loop through the selection of a choice may depend on which symbol of the choice is
  defined first (`KconfigEscapes.SearchOrderDecides`); in both cases evaluation does not end.
- An int or hex symbol has a value in the range in force exactly if the low bound is at most the high one
  (`KconfigValues.NumberIsInRange`): with the bounds the wrong way round, a default below the low bound is
  set to that and so ends up above the high one.
- The type of a tristate symbol depends on MODULES, which `_build_dep` does not record. The loop check
  therefore accepts configurations whose evaluation does not end
  (`KconfigEscapes.LoopThroughModulesEscapes`). In a configuration that it accepts, and for given user
  values, every evaluation ends exactly if that of MODULES does, which is exactly if MODULES does not come
  back to itself by the type of a tristate symbol that it really asks for (`KconfigLoops.EvaluationEndsIff`).
  That MODULES depends on no tristate symbol is enough for all users (`KconfigLoops.SafeEvaluationEnds`),
  but more than is needed (`KconfigEscapes.UnsafeMayEnd`); it is exactly what makes the reads that the
  getters may possibly make well founded (`KconfigLoops.PossibleReadsRankedIff`).

## Model

| member | source | states |
|---|---|---|
| `QueueRuns.NoLostWakeUp` | kernel/FreeRTOS/queue.c:835-1972 | from any empty queue, in every interleaving of tasks and interrupts, while a reader waits each item has unblocked a reader that is still to look, or is in `cTxLock`, or that count is at the number of tasks, and the same for writers and free slots: exactly if there are at most 127 tasks |
| `QueueRuns.QuietQueueStrandsNobody` | kernel/FreeRTOS/queue.c:835-1044 | in every run, once the scheduler runs and all unblocked tasks have looked again, readers wait only on an empty queue, writers only on a full one, and every blocked task is on its list: exactly if there are at most 127 tasks |
| `QueueRuns.LosingRun` | kernel/FreeRTOS/queue.c:251-293 | with 128 tasks or more and a queue of any length, there is a run that ends with an item in the queue, nobody unblocked, and a reader blocked |
| `QueueProtocol.UnlockWakesExactly` | kernel/FreeRTOS/queue.c:2279-2396 | unlocking wakes, from the head of the list, exactly as many waiters as interrupts acted meanwhile, or all of them, in spite of the cap on the count |
| `QueueProtocol.Unlock` | kernel/FreeRTOS/queue.c:2286-2340 | the draining loop as written wakes what the specification says and leaves the lock open |
| `QueueProtocol.LockCountExactIff` | kernel/FreeRTOS/queue.c:251-293 | the `int8_t` lock count is min(interrupts, tasks) for any number of interrupts if and only if there are at most 127 tasks |
| `QueueProtocol.InterruptAccounts` | kernel/FreeRTOS/queue.c:1108-1188 | an item that an interrupt adds is accounted for, whether the queue is locked or not |
| `QueueCalls.CallIsServedOrOver` | kernel/FreeRTOS/queue.c:835-1044 | in every run a call that returns `pdPASS` has been served exactly once, one that returns an error or has not returned never; it returns an error only if it had no block time and looked in vain, or if its time was found to be over, so a call with block time whose time is never over ends only served |
| `QueueCalls.CallEnds` | kernel/FreeRTOS/queue.c:1378-1520 | the step by which any call may end: one by which it takes, shows, adds or replaces an item, or a look in vain without block time, or an expired check |
| `QueueCalls.LookDecides` | kernel/FreeRTOS/queue.c:844-980 | a look at the queue serves the call whenever there is something for it, and else ends it exactly if there is no block time |
| `QueueCalls.OverdueCallEnds` | kernel/FreeRTOS/queue.c:1485-1520 | a call whose time has been found to be over never waits again and ends with its fifth step from there at the latest |
| `QueueCalls.OverdueSendFails` | kernel/FreeRTOS/queue.c:1034-1042 | a send whose time has been found to be over fails with its third step from there, even if there is room by then |
| `QueueCalls.LastLook` | kernel/FreeRTOS/queue.c:1502-1517 | a receive or a peek whose time is over looks once more: it fails if there is no item, and is served if there is one and nobody takes it first |
| `QueueCalls.ItemsAreAccountedFor` | kernel/FreeRTOS/queue.c:835-1972 | in every run the number of items is what it was, plus what the calls that returned `pdPASS` and the interrupts added, less what they took |
| `QueueCalls.OwnStepsServe` | kernel/FreeRTOS/queue.c:1378-1520 | from anywhere in a call, while there is something for it and the task is on no event list, its own steps lead to its being served |
| `QueueCalls.OwnStepsBlock` | kernel/FreeRTOS/queue.c:989-1025 | while there is nothing for it and time is left, they lead to its being blocked on its event list |
| `QueueProtocol.StepKeepsInv` | kernel/FreeRTOS/queue.c:835-2396 | every step of every call, between any two places where it leaves a critical section, keeps the accounting invariant; how a call goes on and ends is in `QueueCalls` |
| `QueueRing.FirstInFirstOut` | kernel/FreeRTOS/queue.c:835-1518 | over any run of receives, peeks and sends to the back, what is received followed by what is left is what was there followed by what was accepted |
| `QueueRing.FillsUp` | kernel/FreeRTOS/queue.c:857-867 | sends to either end are accepted while there are fewer items than the length of the queue, and then refused |
| `QueueRing.NextIsReceived` | kernel/FreeRTOS/queue.c:2212-2252 | what is sent to the front is received next, and then all is as before; after an overwrite nothing else is left; a peek shows what is received next |
| `QueueRing.Perform` | kernel/FreeRTOS/queue.c:835-1879 | any sequence of sends, receives and peeks on the byte-level queue is answered, and leaves the items, as the sequence of items demands |
| `QueueRing.WrapIsRemainder` | kernel/FreeRTOS/queue.c:2220-2223 | one conditional subtraction keeps an offset at its remainder by the length of the storage |
| `QueueRing.ItemStored` | kernel/FreeRTOS/queue.c:2212-2252 | writing one slot's bytes appends, prepends or replaces one item of the sequence and leaves the bytes of the others alone |
| `QueueRing.SlotStored` | kernel/FreeRTOS/queue.c:2212-2252 | overwriting the bytes of slot k changes the item in slot k and no other |
| `QueueRing.RingGrowsAtFront` | kernel/FreeRTOS/queue.c:2225-2252 | an item put before the read slot becomes the first of the ring |
| `QueueRing.Queue.constructor` | kernel/FreeRTOS/queue.c:296-360 | a new queue is empty, with read slot last and write slot first |
| `QueueRing.Queue.CopyDataToQueue` | kernel/FreeRTOS/queue.c:2175-2255 | at byte level, sending to the back, to the front or overwriting appends, prepends or replaces the item, and the offsets still fit the count |
| `QueueRing.Queue.CopyDataFromQueue` | kernel/FreeRTOS/queue.c:2258-2276 | the bytes copied out are those of the first item, and the read slot moves on to it |
| `QueueRing.Queue.Send` | kernel/FreeRTOS/queue.c:835-867 | a full queue refuses all but an overwrite; the count exceeds the length only after overwriting a full queue of items of size 0 |
| `QueueRing.Queue.Receive` | kernel/FreeRTOS/queue.c:1405-1416 | receiving takes the first item off the sequence, or fails on an empty queue and changes nothing |
| `QueueRing.Queue.Peek` | kernel/FreeRTOS/queue.c:1760-1776 | peeking returns the first item and puts the read offset back where it was |
| `Timers.DecisionIsExact` | kernel/FreeRTOS/timers.c:716-757 | for unbounded times c <= n < c + 2^32 the comparison of the wrapped values says "process now" iff c + p <= n, "current list" iff c + p is later in n's epoch, "overflow list" iff it is in the next |
| `Timers.DecisionIsExactIff` | kernel/FreeRTOS/timers.c:728-751 | for delays of any length: exactly when the decision is right |
| `Timers.RunKeepsSettled` | kernel/FreeRTOS/timers.c:522-930 | in every run in which each sample comes less than 2^32 ticks after the last one or leaves no timer on a list, the current list holds the timers due in the epoch of the last sample, the overflow list those of the next, both sorted, and a timer is marked active exactly if it is on one of them |
| `Timers.SampleIsRightIff` | kernel/FreeRTOS/timers.c:693-713 | for a sample at any later time, the lists are right after it exactly if it comes less than 2^32 ticks after the last one or leaves no timer on a list |
| `Timers.CallbacksAreExact` | kernel/FreeRTOS/timers.c:541-566 | a pending timer that gets no command has, once nothing is expired, had one callback for each due time up to now (auto-reload) or one if it was due (one-shot), over any number of rollovers |
| `TimerCommands.StartedTimerIsExact` | kernel/FreeRTOS/timers.c:812-850 | in every run, after a start or reset given at time c that has waited less than 2^32 ticks, and no other command: an auto-reload timer has had exactly (n - c) / p callbacks when all expiries up to n are processed, and is next due at the first c + kp after n; another has had one exactly if c + p <= n and is then inactive; none ever comes early |
| `TimerCommands.ChangedTimerIsExact` | kernel/FreeRTOS/timers.c:858-872 | after a change of the period to v that the daemon sees at time c the period is v, and the same holds for c and v, also if the timer was inactive |
| `TimerCommands.StoppedTimerIsSilent` | kernel/FreeRTOS/timers.c:852-902 | after a stop, and after the deletion of a static timer, the timer is inactive and has no callback until it is started again, given a period or created anew; a deleted dynamic timer is gone |
| `TimerCommands.ConfiguredTimerIsExact` | kernel/FreeRTOS/timers.c:355-469 | a timer runs with the period and in the mode that it was created with, or in the mode that it was given last |
| `TimerCommands.PassesMakeIdle` | kernel/FreeRTOS/timers.c:604-663 | at any time some passes of the daemon process everything that has expired |
| `Timers.SwitchedKeepsValid` | kernel/FreeRTOS/timers.c:908-930 | emptying the current list as of the last tick of the epoch and swapping the lists gives lists that are right for the next epoch |
| `Timers.ExpiredKeepsValid` | kernel/FreeRTOS/timers.c:541-566 | an expiry processed as of the last tick of the epoch never goes back on the current list, so that the loop over that list ends |
| `Timers.HandledKeepsSettled` | kernel/FreeRTOS/timers.c:760-905 | a command keeps the lists right and does to the other timers only what the time passed demands |
| `Timers.WaitIsSafe` | kernel/FreeRTOS/timers.c:636-662 | the wrapped difference that the daemon waits reaches exactly to the first due time, or to the rollover if only the overflow list is occupied, and no timer on a list is due before |
| `Timers.Daemon.InsertTimerInActiveList` | kernel/FreeRTOS/timers.c:716-757 | the code on wrapped values puts the timer where its unbounded due time belongs, behind those due no later |
| `Timers.Daemon.ReloadTimer` | kernel/FreeRTOS/timers.c:522-538 | the loop makes the callbacks for all missed expiries, (n - e) / p of them, and schedules the first expiry after n |
| `Timers.Daemon.ProcessExpiredTimer` | kernel/FreeRTOS/timers.c:541-566 | the head of the current list is taken off, reloaded or made inactive, and called once for this expiry |
| `Timers.Daemon.SwitchTimerLists` | kernel/FreeRTOS/timers.c:908-930 | the loop ends, and the lists are swapped when the current one is empty |
| `Timers.Daemon.SampleTimeNow` | kernel/FreeRTOS/timers.c:693-713 | at any later time the lists are switched exactly if the counter shows less than at the last sample |
| `Timers.Daemon.StartTimer` | kernel/FreeRTOS/timers.c:812-850 | start and reset, with the case that the expiry has already passed |
| `Timers.Daemon.ProcessReceivedCommands` | kernel/FreeRTOS/timers.c:760-905 | the queue of commands is processed one after the other, each at the time sampled for it, with the effects that `TimerCommands` states for runs |
| `Timers.Daemon.ProcessTimerOrBlockTask` | kernel/FreeRTOS/timers.c:604-663 | when the daemon waits nothing has expired, it waits at most until the next due time or the rollover, and without limit only if both lists are empty |
| `Timers.Daemon.GetNextExpireTime` | kernel/FreeRTOS/timers.c:666-690 | the wrapped due time of the head of the current list, or 0 |
| `Timers.Daemon.InitialiseNewTimer` | kernel/FreeRTOS/timers.c:355-381 | a new timer is on no list and not active |
| `Timers.Daemon.SetReload` | kernel/FreeRTOS/timers.c:451-469 | the reload mode may change at any time without disturbing the lists |
| `StreamRuns.ReceivedIsPrefixOfSent` | kernel/FreeRTOS/stream_buffer.c:642-975 | from an empty stream buffer, in every interleaving of index reads, byte copies and index publications, the bytes received are the first bytes accepted, in order, and the storage holds the rest: exactly if the buffer has at most 2^31 bytes |
| `StreamRuns.MessagesStayWhole` | kernel/FreeRTOS/stream_buffer.c:824-1124 | from an empty message buffer, in every interleaving messages are delivered whole and in order, and the unread bytes are exactly the frames of the messages accepted and not delivered: exactly if the buffer has at most 2^31 + 2 bytes |
| `StreamRuns.LosingRun` | kernel/FreeRTOS/stream_buffer.c:1280-1288 | in every longer stream buffer there is a run after which the bytes delivered are not the first of those accepted |
| `StreamRuns.CuttingRun` | kernel/FreeRTOS/stream_buffer.c:1338-1356 | in every longer message buffer there is a run after which the messages delivered are not the first of those accepted |
| `StreamCalls.SendCallEnds` | kernel/FreeRTOS/stream_buffer.c:642-871 | in every interleaving a send call that has ended has accepted what the room that there was at some moment of the call allows: a message whole or not at all, of other data as much as there was room for; until then it has accepted nothing |
| `StreamCalls.SendCallFits` | kernel/FreeRTOS/stream_buffer.c:642-871 | what there is room for when the call begins is accepted whole |
| `StreamCalls.ReceiveCallEnds` | kernel/FreeRTOS/stream_buffer.c:874-1124 | a receive call that has ended has delivered what the bytes that were there at some moment of the call allow: the next message if it is no longer than the caller's buffer, or as many of the next bytes as the caller wants |
| `StreamCalls.RecheckIsExact` | kernel/FreeRTOS/stream_buffer.c:597-627 | the second look at the tail makes the space measured that of the moment, unless the reader has gone all the way round since the first; it asks for a third only if bytes have been read |
| `StreamProtocol.StepKeepsInv` | kernel/FreeRTOS/stream_buffer.c:642-1335 | in buffers up to these lengths every step keeps the unread bytes in place and what the writer and the reader believe true |
| `StreamProtocol.WriteByteKeepsInv` | kernel/FreeRTOS/stream_buffer.c:1248-1291 | a byte written touches no unread byte |
| `StreamProtocol.CountsAreLowerBounds` | kernel/FreeRTOS/stream_buffer.c:597-627 | from indices that were valid together neither count comes out too large, and that of the bytes is right or does not reach to a message |
| `StreamProtocol.MovedOnIsSlot` | kernel/FreeRTOS/stream_buffer.c:848-867 | moving an index past a length field and then past the data, modulo 2^32 each time, gives the remainder of the byte number |
| `StreamProtocol.MessageWaits` | kernel/FreeRTOS/stream_buffer.c:1075-1124 | if a byte of a message buffer is unread, a whole message is, and its length comes first |
| `StreamProtocol.PublishTailKeepsInv` | kernel/FreeRTOS/stream_buffer.c:1117-1121 | publishing the tail consumes exactly what has been copied out |
| `StreamBytes.CountsAreExactIff` | kernel/FreeRTOS/stream_buffer.c:1338-1356 | the two counts computed from the indices, modulo 2^32, are the unread bytes and the free space for all indices if and only if the buffer has at most 2^31 bytes |
| `StreamBytes.CountsFromIndices` | kernel/FreeRTOS/stream_buffer.c:597-627 | what they are for a buffer of any length, by how much too small, and when |
| `StreamBytes.AdvanceIsSlotIff` | kernel/FreeRTOS/stream_buffer.c:1280-1288 | moving an index on by a count, modulo 2^32, and subtracting the length once is the remainder of the byte number if and only if the sum does not wrap |
| `StreamBytes.LengthRoundTrip` | kernel/FreeRTOS/stream_buffer.c:839-852 | a length is read back from its four bytes |
| `StreamBytes.NextFrame` | kernel/FreeRTOS/stream_buffer.c:1088-1096 | behind the first d messages comes the next one, length first |
| `StreamBuffer.Buffer.WriteBytesToBuffer` | kernel/FreeRTOS/stream_buffer.c:1248-1291 | the two copies write the data around the end of the storage and nothing else |
| `StreamBuffer.Buffer.ReadBytesFromBuffer` | kernel/FreeRTOS/stream_buffer.c:1294-1335 | the two copies read the bytes from the index on, around the end of the storage |
| `StreamBuffer.Buffer.BytesInBuffer` | kernel/FreeRTOS/stream_buffer.c:1338-1356 | the number of unread bytes |
| `StreamBuffer.Buffer.SpacesAvailable` | kernel/FreeRTOS/stream_buffer.c:597-627 | one less than the length minus the unread bytes |
| `StreamBuffer.Buffer.WriteMessageToBuffer` | kernel/FreeRTOS/stream_buffer.c:824-871 | a message is appended whole, with its length, or not at all; other data as far as there is space; empty and refused data change neither index nor unread bytes |
| `StreamBuffer.Buffer.ReadMessageFromBuffer` | kernel/FreeRTOS/stream_buffer.c:1075-1124 | the first message is delivered and removed, or left in place if it is longer than the caller's buffer |
| `StreamBuffer.Buffer.Send` | kernel/FreeRTOS/stream_buffer.c:773-821 | the result of a send in terms of the free space |
| `StreamBuffer.Buffer.Receive` | kernel/FreeRTOS/stream_buffer.c:1018-1072 | the result of a receive in terms of the messages or bytes in the buffer |
| `StreamBuffer.Buffer.NextMessageLength` | kernel/FreeRTOS/stream_buffer.c:978-1015 | the length of the first message, or 0 |
| `EventGroups.SetBitsWakesExactly` | kernel/FreeRTOS/event_groups.c:533-626 | exactly the waiters satisfied by the old and new bits together are woken, with those bits; every bit that one of them asked to have cleared is clear, all bits that none did are as they were set; nobody left waiting is satisfied; who that is, `EventRuns.SetBitsWakesTheMet` says bit by bit |
| `EventRuns.WokenWhenMet` | kernel/FreeRTOS/event_groups.c:317-626 | in every run a blocked task whose time does not end is woken by the first step that sets bits so that its condition is met, with the bits of that moment, and by nothing else; the condition is that some bit, or every bit, that it waits for is an event bit |
| `EventRuns.SetBitsWakesTheMet` | kernel/FreeRTOS/event_groups.c:533-626 | a task that waits for any bit is woken exactly if one of its bits is there then, one that waits for all exactly if every one is; a bit is left exactly if it was or is being set and no woken task had asked to have it cleared |
| `EventRuns.BlocksUnlessMet` | kernel/FreeRTOS/event_groups.c:344-400 | a call blocks exactly if its condition, bit by bit, is not met; else the bits waited for are cleared if asked for, and no others |
| `EventRuns.SyncBlocksUnlessComplete` | kernel/FreeRTOS/event_groups.c:214-262 | a rendezvous returns at once exactly if every bit waited for was set or is being set, with all these bits, and leaves those waited for clear |
| `EventRuns.AnswerHasBits` | kernel/FreeRTOS/event_groups.c:411-470 | what a woken task returns has exactly the event bits that it was woken with |
| `EventGroups.TestIsMet` | kernel/FreeRTOS/event_groups.c:693-727 | the test on words is the condition bit by bit, for any bit and for all |
| `Words.CommonIsSomeBit` | kernel/FreeRTOS/event_groups.c:701-705 | two words have a non-zero conjunction exactly if some bit is in both |
| `Words.WithinIsEveryBit` | kernel/FreeRTOS/event_groups.c:713-717 | a word masked is the mask exactly if every bit of the mask is in it |
| `EventGroups.OrderDoesNotMatter` | kernel/FreeRTOS/event_groups.c:558-617 | the order of the wait list changes neither who is woken nor with what, nor the bits left |
| `EventGroups.ItemKeepsCondition` | kernel/FreeRTOS/event_groups.c:371-396 | a waiter judged by its list item is judged as `prvTestWaitCondition` would judge it |
| `EventGroups.ClearKeepsValid` | kernel/FreeRTOS/event_groups.c:473-498 | clearing bits satisfies nobody |
| `EventGroups.SyncKeepsValid` | kernel/FreeRTOS/event_groups.c:214-262 | a task that blocks in a rendezvous is not one whose bits are all there |
| `EventGroups.EventGroup.SetBits` | kernel/FreeRTOS/event_groups.c:533-626 | the loop over the list, with removal on the way, does what the specification says and keeps everybody who waits unsatisfied; the value returned is read in a step of its own, after the scheduler has been resumed |
| `EventGroups.EventGroup.WaitBits` | kernel/FreeRTOS/event_groups.c:317-410 | returns at once, or blocks with the condition stored, or gives up, exactly as its condition, bit by bit, says |
| `EventGroups.EventGroup.ResumeWaitBits` | kernel/FreeRTOS/event_groups.c:411-470 | a woken task returns the bits it was woken with; one that timed out looks again and clears its bits if they are there |
| `EventGroups.EventGroup.Sync` | kernel/FreeRTOS/event_groups.c:194-262 | sets the caller's bits and passes, blocks or gives up |
| `EventGroups.EventGroup.ResumeSync` | kernel/FreeRTOS/event_groups.c:263-314 | the rest of the call after blocking |
| `EventGroups.EventGroup.ClearBits` | kernel/FreeRTOS/event_groups.c:473-498 | returns the bits before clearing |
| `Barrier.IsBarrierIff` | kernel/FreeRTOS/event_groups.c:194-314 | of tasks that together set all bits waited for: in every run, over any number of rounds, none has returned from its n-th call before all have begun theirs, exactly if each sets a bit waited for that no other sets |
| `Barrier.NobodyReturnsEarly` | kernel/FreeRTOS/event_groups.c:194-314 | the half of it that says that such tasks never return early |
| `Barrier.SomebodyReturnsEarly` | kernel/FreeRTOS/event_groups.c:194-314 | if all that a task sets is set by others too, there is a run in which one of them returns without it, from any state before the barrier first opens |
| `Barrier.OpensOnlyForAllIff` | kernel/FreeRTOS/event_groups.c:223-234 | the barrier opens only after every task exactly if each sets a bit waited for that no other sets |
| `Barrier.OpensForAll` | kernel/FreeRTOS/event_groups.c:223-234 | it does open when all have come |
| `Barrier.ArriveAndOpen` | kernel/FreeRTOS/event_groups.c:219-234 | the last arrival leaves nobody waiting and the bits clear |
| `Barrier.StepKeepsInv` | kernel/FreeRTOS/event_groups.c:194-314 | every value returned contains all the bits waited for |
| `CoRoutines.DelayIsExact` | kernel/FreeRTOS/croutine.c:202-281 | a co-routine that delays itself by d ticks, 1 to 2^32 - 1, at tick t, and that no event readies, is not ready before tick t + d is processed, and is ready from then on until it delays itself again, wherever interrupts act in between |
| `CoRoutineEvents.EventReadies` | kernel/FreeRTOS/croutine.c:193-222 | a co-routine that waits for an event is ready after a signal and the check of the pending list that follows, with the tick count as it was |
| `CoRoutineEvents.SignalIsPossibleIff` | kernel/FreeRTOS/croutine.c:193-198 | whatever happens, until its delay ends a co-routine can be signalled exactly if it delayed itself on an event |
| `CoRoutineEvents.SignalledIsReadied` | kernel/FreeRTOS/croutine.c:202-361 | in every run after a signal, at whatever place it comes, the co-routine is ready whenever the scheduler is at rest with nothing pending |
| `CoRoutineEvents.SignalledInTurn` | kernel/FreeRTOS/croutine.c:202-222 | of two co-routines of the same priority the one signalled first is first in line |
| `CoRoutines.DelayWaits` | kernel/FreeRTOS/croutine.c:163-199 | delaying by d ticks, 1 to 2^32 - 1, at tick t is waiting for tick t + d |
| `CoRoutines.TickIsExact` | kernel/FreeRTOS/croutine.c:229-277 | a tick readies exactly the co-routines whose delay ends with it |
| `CoRoutines.TickIsARun` | kernel/FreeRTOS/croutine.c:229-277 | the steps between which interrupts can act lead, without interrupts, to where the tick as a whole leads |
| `CoRoutines.NextTickKeepsInv` | kernel/FreeRTOS/croutine.c:237-247 | the delay list is empty when the lists are swapped |
| `CoRoutines.StepKeepsInv` | kernel/FreeRTOS/croutine.c:163-361 | every step, an interrupt between finding a co-routine due and removing it included, keeps each generic item on exactly one of its ready list and the two delay lists |
| `CoRoutines.ZeroDelayIsMissedIff` | kernel/FreeRTOS/croutine.c:178-191 | when a delay of 0 would end up on the wrong list |
| `CoRoutines.Scheduler.AddToDelayedList` | kernel/FreeRTOS/croutine.c:163-199 | the wrapped comparison picks the list of the epoch that the unbounded due time is in; also for a delay of 0 ticks, which is then due at once |
| `CoRoutines.Scheduler.CheckPendingReadyList` | kernel/FreeRTOS/croutine.c:202-222 | all pending co-routines become ready |
| `CoRoutines.Scheduler.CheckDelayedList` | kernel/FreeRTOS/croutine.c:225-281 | all ticks passed are processed, one by one |
| `CoRoutines.Scheduler.Schedule` | kernel/FreeRTOS/croutine.c:284-316 | the co-routine chosen is the one whose turn it is among those of the highest priority that is ready; none only if none is |
| `Turns.EverybodyGetsATurn` | kernel/FreeRTOS/croutine.c:309-311 | whoever waits in a ready list has had its turn once there have been more turns than slots before it, and at most that many before its own, whoever joins and leaves meanwhile |
| `Turns.ChangedHas` | kernel/FreeRTOS/list.c:98-225 | only who has its turn leaves, and only who joins comes |
| `Turns.ComesNearer` | kernel/FreeRTOS/list.c:98-125 | a turn brings everybody else who waits nearer, and nobody who joins gets ahead of those who wait |
| `CoRoutines.Scheduler.RemoveFromEventList` | kernel/FreeRTOS/croutine.c:339-361 | an event moves the event item to the pending list and nothing else |
| `IntrusiveList.List.constructor` | kernel/FreeRTOS/list.c:50-83 | an empty ring of the end marker alone |
| `IntrusiveList.List.Insert` | kernel/FreeRTOS/list.c:128-196 | on a sorted list the item comes after all items not greater and before all others, the ring stays linked both ways, and the scan ends even for the greatest value |
| `IntrusiveList.List.InsertEnd` | kernel/FreeRTOS/list.c:98-125 | the item becomes the last of the walk from the index, up to the index itself; read from the index, a ring of items with different owners is the ready list of `Turns` that the owner has joined |
| `IntrusiveList.List.Remove` | kernel/FreeRTOS/list.c:199-225 | the ring and the walk lose that item only, also if the index was on it; as a ready list, its owner has left it |
| `IntrusiveList.List.GetNext` | kernel/FreeRTOS/include/list.h:285-296 | the walk goes round item by item, past the end marker; as a ready list, it has advanced, and the item's owner is the one whose turn it is |
| `IntrusiveList.WalkAfterCut` | kernel/FreeRTOS/list.c:211-218 | moving the index back when its item is removed keeps the order of the walk |
| `IntrusiveList.WalkAfterInsert` | kernel/FreeRTOS/list.c:98-125 | where an item inserted before the index comes in the walk |
| `Lists.InsertIsStable` | kernel/FreeRTOS/list.c:128-196 | insertion by value is stable |
| `Lists.InsertKeepsSorted` | kernel/FreeRTOS/list.c:128-196 | insertion keeps the order |
| `Lists.RemoveKeepsSorted` | kernel/FreeRTOS/list.c:199-225 | removal keeps the order |
| `KconfigCache.SweepKeepsCoherent` | scripts/kconfiglib.py:4903-4932 | changing user values at an item and invalidating it recursively, stopping at items without a cached visibility, leaves only cached values that their getters would compute again and that an evaluation without any cache gives, in every well-formed configuration |
| `KconfigEvaluation.FreshSatisfiesGetters` | scripts/kconfiglib.py:4324-4561 | evaluated without a cache, the fields whose evaluation ends have the values that their getters find among these, and no getter of another field finds a value there |
| `KconfigEvaluation.CoherentIsFresh` | scripts/kconfiglib.py:4324-4561 | where the possible reads are well founded, every cached visibility, value and selection of a coherent cache equals its evaluation without any cache |
| `KconfigEvaluation.RankedHasValue` | scripts/kconfiglib.py:4324-4561 | there every evaluation ends |
| `KconfigEvaluation.CachedTogetherIff` | scripts/kconfiglib.py:4324-4561 | a field is cached whenever another one is, whatever has been read and set, exactly if evaluating the other computes it |
| `KconfigGetters.VisibilityIsFlag` | scripts/kconfiglib.py:4913-4924 | a cached value that is not a constant comes with a cached visibility of its item |
| `KconfigGetters.GetterSteady` | scripts/kconfiglib.py:4324-4561 | what a getter finds, and what it misses first, depends only on the fields and user values that its item may read |
| `KconfigGetters.ReadsAreDependencies` | scripts/kconfiglib.py:3478-3551 | all of these belong to the item, to items it is in the `_dependents` of, or to MODULES |
| `KconfigCache.PromptlessKeepsCoherent` | scripts/kconfiglib.py:4934-4954 | a user value on a symbol without a prompt changes no value |
| `KconfigCache.StoreKeepsCoherent` | scripts/kconfiglib.py:4466-4544 | caching what a getter found keeps the cache coherent and its values those of an evaluation without a cache |
| `KconfigComment.CommentHoldsIff` | scripts/kconfiglib.py:4913-4931 | an item without a cached visibility has no cached values on a given dependent, in every cache that can arise, exactly if evaluating the visibility of the dependent computes that of the item |
| `KconfigComment.CommentHoldsIfAlwaysRead` | scripts/kconfiglib.py:4913-4931 | for all users it is so if a prompt condition of the dependent reads the item before any short-circuit |
| `KconfigComment.CommentMayFail` | scripts/kconfiglib.py:4913-4931 | a well-formed configuration in which the first read of a visibility leaves a cache of which the comment is false |
| `KconfigMeaning.ValueIsMeaning` | scripts/kconfiglib.py:6032-6102 | the value of an expression is at least m, or at least y, as a separate definition says: "and" and "or" as in classical logic, "not" by what its operand is not, comparisons by the order of the operands |
| `KconfigMeaning.ComparisonMeans` | scripts/kconfiglib.py:6062-6102 | all six comparisons, by one order of the operands: as numbers, or as texts if both are strings or one is no number |
| `KconfigMeaning.TextOrder` | scripts/kconfiglib.py:6405-6408 | texts are compared by the first place where they differ |
| `KconfigMeaning.BooleanMeaning` | scripts/kconfiglib.py:6032-6102 | where all operands are n or y, it is y exactly if the boolean expression is true |
| `KconfigMeaning.DeMorgan` | scripts/kconfiglib.py:6046-6058 | the laws of De Morgan and of double negation |
| `KconfigMeaning.NegatedConstants` | scripts/kconfiglib.py:6057-6058 | not n is y, not m is m, not y is n |
| `KconfigValues.ValueIsGreatestSource` | scripts/kconfiglib.py:4466-4544 | outside choices a bool or tristate symbol has the greatest of what its selects ask for and its user value cut to the visibility or, without that, its first active default and, if the direct dependencies allow it, what its implies ask for; m becomes y for a bool and for an imply of y |
| `KconfigValues.SelectsAndImpliesBind` | scripts/kconfiglib.py:4491-4534 | it is at least what its selects ask for, and what its implies ask for where the user decides nothing |
| `KconfigValues.UserValueCounts` | scripts/kconfiglib.py:4491-4531 | with a visible user value it is that, cut to the visibility, or more by a select or a promotion only |
| `KconfigValues.NothingSaidIsNo` | scripts/kconfiglib.py:4466-4544 | with none of these it is n, and a bool is never m |
| `KconfigValues.FreshIsCoherent` | scripts/kconfiglib.py:4324-4561 | the values that evaluation without a cache gives, and that a cached property returns, are such values |
| `KconfigValues.VisibilityOfPrompts` | scripts/kconfiglib.py:6330-6357 | outside choices an item is visible exactly if a prompt condition is not n, as much as the greatest of them says, with m promoted to y unless it is a tristate |
| `KconfigValues.VisibilityInChoice` | scripts/kconfiglib.py:6342-6357 | what a choice makes of the visibility of its symbols |
| `KconfigValues.ModeIsWanted` | scripts/kconfiglib.py:5228-5247 | the mode of a choice is what the user asks for, at least m unless it is optional, cut to the visibility |
| `KconfigValues.SelectionIs` | scripts/kconfiglib.py:5462-5493 | in y mode the selection is the user's if visible, else the first visible default whose condition holds, else the first visible symbol; else there is none |
| `KconfigValues.SelectionIsVisible` | scripts/kconfiglib.py:5462-5493 | it is a visible symbol of the choice |
| `KconfigValues.ChoiceSymbolIs` | scripts/kconfiglib.py:4536-4544 | in y mode exactly the selection is y and no symbol is m |
| `KconfigValues.TextIs` | scripts/kconfiglib.py:4325-4451 | the text of a string is the user's if visible, else its first active default, else empty; that of a bool or tristate is its value |
| `KconfigValues.NumberTextIs` | scripts/kconfiglib.py:4351-4440 | an int or hex has the user's number if visible and in the range in force, else its default moved into that range |
| `KconfigValues.NumberIsInRange` | scripts/kconfiglib.py:4351-4440 | it lies in the range in force exactly if the low bound is at most the high one |
| `KconfigAssignment.TypesTake` | scripts/kconfiglib.py:4636-4668 | which texts and values each type takes |
| `KconfigAssignment.TextsStandForValues` | scripts/kconfiglib.py:4636-4637 | setting "n", "m" or "y" is setting the value, and no other text is one |
| `KconfigAssignment.ValueIsReadBack` | scripts/kconfiglib.py:4596-4683 | a value set on a symbol outside choices that is visible enough is read back, unless a select asks for more or m is promoted |
| `KconfigAssignment.SelectionIsReadBack` | scripts/kconfiglib.py:4673-4681 | a visible symbol of a choice in y mode that was set to y last is y, and all the others are n |
| `KconfigAssignment.TextIsReadBack` | scripts/kconfiglib.py:4596-4683 | a text set on a visible string is read back, and on a visible int or hex if it is in the range in force |
| `KconfigCache.Kconfig.Read` | scripts/kconfiglib.py:4324-4561 | the recursion of a cached property ends whenever the evaluation without a cache does, returns its value whatever was cached before, and caches exactly the fields that the evaluation computes; what that value is, `KconfigValues` says |
| `KconfigCache.Kconfig.RecInvalidate` | scripts/kconfiglib.py:4903-4932 | the recursion ends on cyclic dependents too and throws away whole items, so that no dependent of one has a visibility left |
| `KconfigCache.Kconfig.SetValue` | scripts/kconfiglib.py:4596-4683 | which values are accepted and stored, when the choice's selection changes, and that the cache stays coherent |
| `KconfigCache.Kconfig.UnsetValue` | scripts/kconfiglib.py:4685-4692 | the same for removing a user value |
| `KconfigCache.Kconfig.SetMode` | scripts/kconfiglib.py:5282-5321 | the same for the mode of a choice |
| `KconfigCache.Kconfig.UnsetMode` | scripts/kconfiglib.py:5323-5330 | the same for removing mode and selection |
| `KconfigSearch.Checker.CheckAll` | scripts/kconfiglib.py:1116-1122 | with choices too: raises exactly if the steps that the search takes have a cycle, other than from a choice to one of its symbols and back; the loop shown is one, of distinct items; if nothing is raised, the search has come to every choice |
| `KconfigSearch.Checker.CheckDepLoopSym` | scripts/kconfiglib.py:6608-6680 | a returned tuple is a chain of dependencies back to an item being visited; without one, all that depends on the symbol is finished |
| `KconfigSearch.Checker.CheckDepLoopChoice` | scripts/kconfiglib.py:6683-6713 | the same for a choice, whose symbols are all visited but the one it was entered by; the loop is never that symbol and the choice alone |
| `KconfigSearch.OrderedHasNoCycle` | scripts/kconfiglib.py:6608-6713 | the order in which items are finished rules out cycles, although the symbol by which a choice is entered is finished after it |
| `KconfigSearch.DependencyLoopIsFound` | scripts/kconfiglib.py:6683-6713 | if nothing depends on a choice but its own symbols, every loop of recorded dependencies is a cycle of the search, whatever way it takes |
| `KconfigEscapes.LoopThroughChoiceEscapes` | scripts/kconfiglib.py:6683-6713 | a well-formed configuration with a choice in which no search finds a loop, but two items depend on each other and evaluation ends for no user |
| `KconfigEscapes.SearchOrderDecides` | scripts/kconfiglib.py:6683-6713 | one in which the search finds a loop if it comes to the choice from one symbol and none if it comes from another, and evaluation does not end |
| `KconfigLoops.EvaluationEndsIff` | scripts/kconfiglib.py:4312-4323 | after a check that raises nothing, and for any user values, the evaluation of every field ends exactly if that of MODULES does, and that exactly unless MODULES really asks, directly or through others, for the type of a tristate symbol, which asks for MODULES |
| `KconfigLoops.SafeEvaluationEnds` | scripts/kconfiglib.py:4312-4323 | evaluation ends for all users if MODULES depends on no tristate symbol |
| `KconfigLoops.PossibleReadsRankedIff` | scripts/kconfiglib.py:4312-4323 | the reads that getters may possibly make are well founded exactly in that case |
| `KconfigEscapes.UnsafeMayEnd` | scripts/kconfiglib.py:4312-4323 | a configuration in which MODULES depends on a tristate symbol and evaluation ends for all users |
| `KconfigEscapes.LoopThroughModulesEscapes` | scripts/kconfiglib.py:4312-4323 | an accepted configuration in which, for some user values, MODULES has no value |
| `KconfigExpr.RoundTrip` | scripts/kconfiglib.py:6104-6145 | what `expr_str` writes is parsed whole, into the same expression up to the nesting of chains of "and" and of "or" |
| `KconfigExpr.NestingKeepsValue` | scripts/kconfiglib.py:6046-6058 | that nesting changes neither the value in any situation, nor the cached field that the evaluation misses first; the value itself is in `KconfigMeaning` |
| `KconfigExpr.NestingKeepsText` | scripts/kconfiglib.py:6124-6140 | nor the text |
| `KconfigGrammar.ReadExactlyIfSpelled` | scripts/kconfiglib.py:3388-3472 | a line of tokens is read whole as an expression exactly if the grammar derives the expression from it; so at most one is, and && binds tighter than || |
| `KconfigGrammar.RewritingMatters` | scripts/kconfiglib.py:3441-3453 | rewriting m in a condition makes no difference while MODULES is not n; while it is, every m that stands alone counts as n |
| `KconfigExpr.ConditionIsRewritten` | scripts/kconfiglib.py:3441-3453 | parsing a condition is parsing the expression and then replacing every m that stands alone by m && MODULES |
| `KconfigExpr.Parser.ParseExpression` | scripts/kconfiglib.py:3388-3427 | the cursor-driven parser is the parsing function, errors included |
| `KconfigExpr.Parser.ParseConjunction` | scripts/kconfiglib.py:3429-3436 | the same for chains of && |
| `KconfigExpr.Parser.ParseOperand` | scripts/kconfiglib.py:3438-3472 | the same for operands |
| `KconfigMenu.LevelKeepsOrder` | scripts/kconfiglib.py:6525-6577 | the order of all nodes but `if` nodes is unchanged, no `if` node is left on the level, and no node is left whose children should have moved up |
| `KconfigMenu.LevelHas` | scripts/kconfiglib.py:6525-6577 | the level then has exactly the nodes, other than `if`, that were on it or below it with only promptless nodes above them, each with the children that are not moved up |
| `KconfigMenu.FlatteningKeepsOrder` | scripts/kconfiglib.py:6525-6551 | flattening alone changes the order of no node |
| `KconfigMenu.Menu.Flatten` | scripts/kconfiglib.py:6525-6551 | the pointer loops end and leave the flattened forest linked, with parents that match it |
| `KconfigMenu.Menu.RemoveIfs` | scripts/kconfiglib.py:6554-6577 | the pointer loops end and leave exactly the nodes that are no `if` |
| `KconfigMenu.Menu.FinishLevel` | scripts/kconfiglib.py:3649-3653 | the two together |

## Left out

- `QueueRuns.NoLostWakeUp`: does not cover deletion, suspension or `xQueueGenericReset` of a queue in use, queue sets (off in this configuration) and `vQueueWaitForMessageRestricted`; priorities only matter as the place at which a task joins a list, which is arbitrary here.
- `Timers.Daemon.ReloadTimer`: does not model callbacks that change timers directly; a callback may send commands, which come later.
- `Timers.Daemon.ProcessReceivedCommands`: does not model pended function calls, which are off in this configuration, or commands for a timer that has been freed.
- `StreamRuns.MessagesStayWhole`: does not model task notifications, timeouts and trigger levels, which decide only when a call measures again.
- `StreamCalls.SendCallEnds`, `StreamCalls.ReceiveCallEnds`: are for buffers of up to 2^31 bytes, in which the counts are exact; `StreamBytes.CountsFromIndices` says by how much they are too small in longer ones.
- `StreamBuffer.Buffer.constructor`: the code on an array is for buffers of up to 2^31 bytes; `StreamRuns` is about all lengths.
- `Barrier.IsBarrierIff`: does not cover time limits, or other users of the bits waited for.
- `CoRoutines.StepKeepsInv`: does not split the moment between taking an expired co-routine off its lists and putting it on its ready list, when an interrupt can only touch other co-routines.
- `KconfigLoops.EvaluationEndsIff`: does not cover configurations with choices; the search itself is modelled for all.
- `KconfigCache.Kconfig.Read`: does not model `_cached_assignable`, `_write_to_conf`, warnings and the values read only to word them; number formats are parameters; it leaves out configurations in which a choice has a default outside it, or a choice symbol has the constant n for its conditions.
- `KconfigExpr.RoundTrip`: does not model the tokenizer, quoting, or choices in expressions, which have no syntax of their own.
- `KconfigMenu.Menu.Flatten`: does not model menu nodes as objects; `next`, `list` and `parent` are maps over node numbers.
- Priority inheritance, context switches, task notifications and timeouts, which live in tasks.c: waking a task, placing one on a list and ending its wait are steps of their own.
- Event group deletion, and setting bits from an interrupt by way of the timer daemon.
- Kconfig parsing, the preprocessor, loading and writing of configuration files, implicit submenus.
- The drivers, board code, C library and command line.

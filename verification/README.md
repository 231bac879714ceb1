# v2lin in Dafny

v2lin puts the VxWorks kernel API on top of POSIX threads. This project models its four hard parts —
message queues, semaphores, the scheduler lock with its wait lists and priorities, and watchdog timers —
and proves what they keep over every run, or, where the code does not do what it is meant to do, exactly
when it does.

## How the model is built

* **Step machines.** One step is one stretch of code run while holding the object's mutex. A step ends when
  the mutex is released: by returning, by `pthread_cond_wait`, or by the unlock around `taskDelay(1)` in a
  polling loop. A broadcast wakes every sleeper, and a sleeper can also wake for no reason. Events say whose
  turn it is and whether a deadline has passed, so clock and scheduler are inputs. An event that is not
  possible in a state leaves the state alone; hence every sequence of events is a run, and the theorems
  quantify over all of them. A run also yields a trace of what the outside world can see.
* **Objects.** The control blocks are classes whose methods are the critical sections; each method is proved
  to do what the section function of the step machine says. The message ring is a flat byte array. The wait
  lists are chains through the one `nxt_susp` field of the task control blocks, and the watchdog list is a
  chain of its own. `Execute` methods carry out whole runs on these objects: of one queue down to its bytes
  (`QueueExecution`), of the scheduler lock (`SchedulerObject`), and of any number of semaphores and queues
  that share one heap of tasks (`System`).
* **References.** Wait lists are compared with a plain line (`Line`), the ring with a double-ended queue of
  messages, the two recursive locks with a map from tasks to depths, a shared heap with objects that are
  each alone.

| file | what it holds |
|---|---|
| `Sequences`, `Line`, `Selection`, `Traces`, `Counting` | wait lists as sequences, the plain waiting line, which waiter is selected, reading traces, counting around a ring |
| `WaitLists`, `TaskTable` | `link_susp_task`, `unlink_susp_task`, `signal_for_my_task` on the heap; the same for a table of numbered tasks |
| `MessageQueue`, `QueueSafety`, `QueueAnswers`, `QueueCalls`, `QueueCapacity`, `QueueDelivery`, `QueueOrder` | the queue's step machine; what its calls are answered; its theorems over whole runs |
| `SlotRing`, `MessageRing`, `QueueContents` | the ring of slots, also when it is over-full; its bytes; what it stores and delivers over a run |
| `QueueObject`, `QueueExecution` | the queue as an object over bytes and chains; whole runs on that object |
| `Semaphore`, `SemaphoreSafety`, `SemaphoreAnswers`, `SemaphoreOrder`, `MutexSemaphore`, `SemaphoreCalls`, `SemaphoreFlush`, `FlushWait` | the semaphores' step machine; what their calls are answered; theorems over whole runs |
| `SemaphoreObject`, `SemaphoreExecution` | the semaphore as an object over a chain; events on that object |
| `Sharing`, `System` | objects that share their tasks, as a step machine and on one heap |
| `SchedulerLock`, `SchedulerObject` | `taskLock`, `taskUnlock`, `taskPrioritySet`, as a step machine and as an object |
| `Priorities`, `Timeouts` | priority rescaling; deadlines |
| `Watchdogs`, `WatchdogTiming`, `WatchdogObject` | the timer list, when timers fire, the list on the heap |

## Where the code departs from its intent

Each of these is kept as it is in the code, with the exact condition under which the intended property holds
or, where there is none, what the code does instead.

* The reserved slot of a queue is meant to absorb every race. `QueueCapacity.FitsExactlyWhen`: all runs of a
  kind of traffic stay within the ring if and only if no sender waits, or the queue is FIFO, not of length
  zero, and carries no urgent messages. The other direction is three constructed runs, for every queue length.
* Nothing looks for room before it writes. `QueueContents.ConservedExactlyWhen`: all along a run the accepted
  messages are those delivered and those stored if and only if the queue is never over-full in it; and
  `SlotRing.AppendOverwrites` and `PrependOverwrites` say which message is lost when it is.
* `semTake(NO_WAIT)` is told OK whatever happens. `SemaphoreCalls.OkTakeOwns` and `OkTakeCounts`: a call that
  is willing to wait is told OK exactly if it gets the mutex or the token (or a flush ends it);
  `NoWaitOkForNothing`: a `NO_WAIT` call is told OK whenever there is no token.
* A waiter that is polling when `semFlush` broadcasts does not look at `send_type`. `SemaphoreFlush.FlushIsFor`:
  from the call on, a flush is for exactly the waiters that were not polling; `FlushCanMiss` is a run in which
  one waiter sleeps on.
* The flusher waits for an empty list, but is told only once that it is empty. `FlushWait.ReturnsExactlyWhen`: it
  returns if and only if nobody has begun to wait, and is still there, when it looks again; `FlusherCanStrand` is
  a run in which it sleeps on with nobody on the list.
* `semFlush` of a semaphore without waiters returns with the mutex locked. `SemaphoreFlush.FlushOfNobodyWedges`:
  the semaphore is dead from then on, and exactly from then on.
* `semGive` does not cap binary semaphores. `SemaphoreOrder.BinaryExactlyWhen`: one stays at one token or less,
  all along a run, if and only if no give is made while there is a token.
* Linking an entry that is already on the list cuts off what is behind it: `WaitLists.LinkKeepsPend`.
* `taskLock_level` sticks at its largest value. `SchedulerLock.RefinesExactlyWhen`: all along a run the lock is
  the map of nesting depths if and only if it is never taken at that value; `TwoInside` is what happens otherwise.
* The two most important VxWorks priorities become the least important ones under Linux:
  `Priorities.WrapsExactlyWhen`, `ReversesExactlyWhen`, `LinuxWraps`.
* A deadline whose microseconds add up to exactly one second has `tv_nsec` out of range, and a wait of more than
  214748 ticks overflows: `Timeouts.DeadlineIsExact`, `WaitsExactly`.
* A watchdog callback that deletes the timer noted as next ends the pass early. `WatchdogTiming.WholePass`: a
  pass visits everybody who stays on the list if and only if no such deletion happens in front of anybody who
  stays; `SkipsSurvivor` is a pass that passes over a timer that is due.

## Hypotheses

* Every caller is a registered task (`my_task()` is not null); a task is in one call at a time. How many tasks
  there are is arbitrary.
* A queue's space test (lib/lmsgQLib.c:632 and 636) is one step; a waiting sender's time-out can come at any
  moment before it is selected.
* `1 <= msg_len < 2^32` for the byte ring: with `msg_len == 0` the clearing write of `fetch_msg_from` leaves
  its slot. Message buffers are not null. `msgs_per_queue` is not negative.
* An int has 32 bits and wraps around when it overflows; a long has more.
* Watchdog callbacks create no timers. A new timer has no function; the code leaves that field as malloc returns
  it, and reads it only after wdStart has set it.

## Model

| member | source | states |
|---|---|---|
| WaitLists.Link | lib/ltaskLib.c:338-366 | an entry on no list is appended and gets PEND; one on this list cuts off what is behind it; every other list threaded through `nxt_susp` is unchanged; PEND stays truthful exactly if the entry was on no list or last on this one; a null entry changes nothing |
| WaitLists.LinkChain | lib/ltaskLib.c:344-363 | the list becomes the chain of what was ahead of the entry, then the entry |
| WaitLists.WalkToEnd | lib/ltaskLib.c:346-355 | the pointer-to-pointer walk ends behind what was ahead of the entry, having cut the chain at the entry if it was there |
| WaitLists.Unlink | lib/ltaskLib.c:372-393 | exactly the entry leaves this list and loses PEND; other lists unchanged; PEND stays truthful; an entry not on the list changes nothing |
| WaitLists.UnlinkChain | lib/ltaskLib.c:379-387 | the list becomes the chain of the others, in order |
| WaitLists.Search | lib/ltaskLib.c:379-380 | finds the entry if it is there, and what leads to it |
| WaitLists.LinkKeepsPend | lib/ltaskLib.c:344-363 | after a link, PEND holds exactly of the listed tasks if and only if nobody was cut off |
| WaitLists.UnlinkKeepsPend | lib/ltaskLib.c:379-387 | after an unlink, PEND holds exactly of the listed tasks |
| WaitLists.SignalForMyTask | lib/ltaskLib.c:404-447 | true exactly if the caller is the head (FIFO) or the earliest of the highest priority |
| Sequences.WithoutKeepsOrder | lib/ltaskLib.c:379-386 | unlinking keeps the order of all others |
| Sequences.LinkedLosesNobody | lib/ltaskLib.c:344-356 | linking loses nobody exactly if the entry was absent or last |
| Selection.ChosenIsUnique | lib/ltaskLib.c:419-431 | "highest priority, earliest among equals" determines the selected task |
| TaskTable.Tasks.LinkTask | lib/ltaskLib.c:338-366 | among all lists through the tasks, exactly this line gets the task appended; PEND stays truthful exactly if nobody was cut off |
| TaskTable.Tasks.UnlinkTask | lib/ltaskLib.c:372-393 | exactly the task leaves exactly this line; PEND stays truthful |
| TaskTable.Tasks.SignalFor | lib/ltaskLib.c:404-447 | true exactly if the caller is the selected task of the line |
| TaskTable.Tasks.PendIsListed | lib/ltaskLib.c:338-393 | PEND is set in a task exactly if it is on some list |
| MessageRing.Ring.constructor | lib/lmsgQLib.c:437-480 | a zeroed extent of `n + 1` slots is an empty ring |
| MessageRing.Ring.WriteSlot | lib/lmsgQLib.c:256-264 | the copy loop and the length store leave the message in the slot and nothing else touched |
| MessageRing.Ring.SendMsgTo | lib/lmsgQLib.c:275-318 | writes the message to the slot at the tail, free or not, and moves the tail around: the bytes follow `SlotRing.Append` |
| MessageRing.Ring.UrgentMsgTo | lib/lmsgQLib.c:227-270 | moves the head back around and writes the message there, free or not: the bytes follow `SlotRing.Prepend` |
| MessageRing.Ring.FetchMsgFrom | lib/lmsgQLib.c:348-399 | copies what the slot at the head stores into the caller's buffer, touches nothing behind it, empties the slot and moves on |
| MessageRing.Ring.ReadSlot | lib/lmsgQLib.c:359-367 | the copy out yields exactly the stored bytes, within the buffer |
| MessageRing.Ring.ClearSlot | lib/lmsgQLib.c:376-378 | clearing stays inside its slot |
| MessageRing.Ring.TailPosition | lib/lmsgQLib.c:301-312 | tail is head plus count slots modulo `n + 1`, also when the ring is over-full |
| Slots.LengthRoundTrip | lib/lmsgQLib.c:293 | the four length bytes read back as the length |
| Slots.AfterWrite | lib/lmsgQLib.c:285-293 | writing one slot changes what that slot stores and what no other slot stores |
| Slots.ZeroedExtent | lib/lmsgQLib.c:462-467 | a zeroed extent stores empty messages |
| SlotRing.AppendHolds | lib/lmsgQLib.c:285-315 | with room, a normal send appends to the messages held |
| SlotRing.PrependHolds | lib/lmsgQLib.c:241-267 | with room, an urgent send prepends |
| SlotRing.DropHolds | lib/lmsgQLib.c:359-399 | a fetch takes the first message |
| SlotRing.AppendOverwrites | lib/lmsgQLib.c:285-315 | without room, a normal send replaces the oldest message |
| SlotRing.PrependOverwrites | lib/lmsgQLib.c:241-267 | without room, an urgent send replaces the newest message |
| QueueSafety.RunKeepsInv | lib/lmsgQLib.c:832-911 | in every run each wait list holds exactly the tasks inside the matching call, each once, and no receiver sleeps for ever next to a message |
| QueueSafety.NoLostWakeup | lib/lmsgQLib.c:1019-1098 | a WAIT_FOREVER receiver sleeps only on an empty queue; when there is a message the selected receiver is up and its next turn fetches it |
| QueueAnswers.SendAnswer | lib/lmsgQLib.c:817-911 | msgQSend in every state, for every message, wait and priority: refused if too long; in at once, at the end asked for, if there is a place; else refused under NO_WAIT, or last in line with its message and priority |
| QueueAnswers.TestAnswer | lib/lmsgQLib.c:632-643 | a waiting sender gets through exactly if there is room, or a hand-over at length zero, and the signal is for it |
| QueueAnswers.PostAnswer | lib/lmsgQLib.c:758-813 | then its own message goes in at the end asked for, and exactly it leaves the line |
| QueueAnswers.SendExpireAnswer | lib/lmsgQLib.c:779-787 | only senders with a timeout can time out; one that does leaves the line and nothing else changes |
| QueueAnswers.HeadGetsThrough | lib/lmsgQLib.c:632-813 | the first in line of a FIFO queue with room gets its message in |
| QueueAnswers.ReceiveAnswer | lib/lmsgQLib.c:1122-1236 | msgQReceive in every state and for every wait: refused if the buffer is too small; the message at once if it is for the caller; else in line, polling or asleep |
| QueueAnswers.TurnAnswer | lib/lmsgQLib.c:1042-1094 | a receiver's next turn, for every wait: the message exactly if it is for it and it is not too late; giving up exactly if time is up and there is none, or it is too late |
| QueueAnswers.NobodyTurnedAway | lib/lmsgQLib.c:1156-1236 | in every run a receive of whatever wait that comes first by the order of the queue gets a message that is there |
| QueueAnswers.EmptyTimesOut | lib/lmsgQLib.c:1156-1236 | on an empty queue a call not waiting for ever is told when its time is up, and leaves everything as it was |
| QueueCalls.FindSend | lib/lmsgQLib.c:694-911 | every message accepted is that of a call of msgQSend, inside which its task has been since, with the priority asked for except for a hand-over at length zero |
| QueueCalls.AcceptedIsPosted | lib/lmsgQLib.c:694-911 | what a run shows as accepted is, in order, the messages of the calls that were told OK |
| QueueCalls.SendsAccounted | lib/lmsgQLib.c:694-911 | the messages of all calls of msgQSend are those accepted, those refused and those that callers still wait with, as multisets |
| QueueCapacity.ReservedSlot | lib/lmsgQLib.c:843-896 | without waiting senders any traffic keeps `msg_count <= n + 1`, and `n + 1` is entered only by an urgent send at `n` or on a queue of length zero |
| QueueCapacity.BlockedSendersFit | lib/lmsgQLib.c:605-813 | with waiting senders of normal messages on a FIFO queue with `n >= 1`: at most one sender is between test and post, it heads the writer list, `msg_count <= n` while it is there and `<= n + 1` always |
| QueueCapacity.ZeroLengthOverflows | lib/lmsgQLib.c:632-633 | a run that overfills a queue of length zero |
| QueueCapacity.UrgentOverflows | lib/lmsgQLib.c:866-870 | for every `n >= 1`, a run in which an urgent message takes the slot a selected sender counts on |
| QueueCapacity.PriorityOverflows | lib/lmsgQLib.c:632-643 | for every `n >= 1`, a run in which two senders are selected at once on a priority queue |
| QueueCapacity.FitsExactlyWhen | lib/lmsgQLib.c:694-911 | all runs of a kind of traffic fit the ring if and only if nobody waits, or FIFO, `n >= 1` and nothing urgent |
| QueueDelivery.FifoHandOff | lib/lmsgQLib.c:1019-1236 | the k-th fetch delivers the message of the k-th call of msgQSend to be accepted to the k-th task that pended, under every interleaving of direct and blocked senders |
| QueueOrder.MessagesConserved | lib/lmsgQLib.c:817-911 | in the step machine, whose queue has no bounds, accepted messages are fetched plus queued ones, as multisets |
| QueueContents.RingFollows | lib/lmsgQLib.c:227-399 | in every run the ring counts as many messages as the step machine; while it is never over-full it stores and has delivered the same ones |
| QueueContents.ConservedExactlyWhen | lib/lmsgQLib.c:694-911 | all along a run accepted messages are those delivered plus those stored in the ring, as multisets, if and only if the queue is never over-full in it |
| QueueContents.KindConservedExactlyWhen | lib/lmsgQLib.c:694-911 | all runs of a kind of traffic conserve messages in the ring if and only if nobody waits, or FIFO, `n >= 1` and nothing urgent |
| QueueOrder.FifoService | lib/lmsgQLib.c:1042-1054 | on a FIFO queue receivers get messages in the order in which they pended, with time-outs and urgent messages in the mix |
| QueueOrder.HighestFetches | lib/lmsgQLib.c:1042-1054 | on a priority queue whoever fetches has the highest priority of all pended and pended earliest among equals |
| QueueOrder.HighestIsServed | lib/lmsgQLib.c:1042-1054 | and whoever has, waiting for ever, gets the message at its next turn |
| QueueOrder.FetchIsSignalled | lib/lmsgQLib.c:1202-1238 | no receive path fetches from an empty queue, and only the selected task fetches, the first message |
| QueueObject.Queue.Send | lib/lmsgQLib.c:832-898 | the first section of msgQSend, on bytes and chains: what it does to lists and ring is what the step machine shows, and no other list changes |
| QueueObject.Queue.WaitForSpace | lib/lmsgQLib.c:704-715 | the first part of waitToSend |
| QueueObject.Queue.HasSpaceFor | lib/lmsgQLib.c:632-643 | the space test |
| QueueObject.Queue.Post | lib/lmsgQLib.c:758-813 | the late post of a selected sender, with room or without |
| QueueObject.Queue.Receive | lib/lmsgQLib.c:1122-1207 | the first section of msgQReceive; the buffer gets what the slot at the head stores exactly if a message is taken |
| QueueObject.Queue.Turn | lib/lmsgQLib.c:1042-1066 | one look around the loop of waiting_on_q_msg, and the fetch |
| QueueExecution.Execution.Perform | lib/lmsgQLib.c:694-1259 | every event on bytes and chains is the step of the machine; ring and deliveries follow what the step shows; no list of another object changes; PEND stays truthful |
| QueueExecution.Execute | lib/lmsgQLib.c:694-1259 | every run whatsoever goes through the machine's states with truthful PEND bits; while never over-full, bytes delivered plus bytes stored are the messages of the calls of msgQSend that were accepted, and for normal FIFO traffic in order |
| SemaphoreSafety.RunKeepsInv | lib/lsemLib.c:585-707 | in every run the wait list holds exactly the waiting tasks, nobody sleeps for ever next to a token, and the flush and mutex invariants hold |
| SemaphoreSafety.NoLostWakeup | lib/lsemLib.c:409-547 | a WAIT_FOREVER waiter sleeps only without tokens; with one, the first in line is up and its next turn takes it |
| SemaphoreAnswers.TakeAnswer | lib/lsemLib.c:713-748 | semTake in every state, for every kind and wait: the owner goes deeper; a flush in force sends the caller away; a token without a line is taken at once; else in line, polling or asleep |
| SemaphoreAnswers.TurnAnswer | lib/lsemLib.c:503-547 | a waiting task's next turn, for every wait: a token exactly if there is one, it is first and not too late; giving up exactly if time is up and there is none, or it is too late |
| SemaphoreAnswers.FlushedAnswer | lib/lsemLib.c:507-512 | with a flush in force a woken task leaves with nothing, and the last one out ends the flush |
| SemaphoreAnswers.PollingFlushAnswer | lib/lsemLib.c:521-544 | a polling one looks at deadline and tokens as ever; a mutex is not involved |
| SemaphoreAnswers.TokenIsTaken | lib/lsemLib.c:503-606 | in every run, whatever the wait, a token nobody waits for is taken by the first take, and one somebody waits for by the first in line |
| SemaphoreAnswers.GiveAnswer | lib/lsemLib.c:409-467 | semGive in every state: always accepted if not a mutex, with a token more; from the owner of a mutex one level less and, coming out, the token and no owner; else refused |
| SemaphoreAnswers.OwnerComesAndGoes | lib/lsemLib.c:434-439 | in every run of a mutex the owner's give is accepted and brings its depth down by one, freeing the mutex and waking everybody at the last; its take goes one deeper |
| SemaphoreAnswers.AnybodyGives | lib/lsemLib.c:457-465 | in every run of a semaphore that is not a mutex a give by anybody adds a token and wakes everybody |
| SemaphoreAnswers.FlushAnswer | lib/lsemLib.c:360-378 | semFlush: refused for a mutex; in force with everybody up if anybody waits |
| SemaphoreAnswers.StartsWith | lib/lsemLib.c:217-292 | what each kind starts with, for every argument, and has after every run |
| SemaphoreOrder.RunIsFair | lib/lsemLib.c:503-547 | every run is a run of a plain line that serves only its front, and the wait list is that line |
| SemaphoreOrder.NoBarging | lib/lsemLib.c:503-547 | of two grants the earlier went to the task that pended earlier, also when a newcomer finds a token free |
| SemaphoreOrder.TokensConserved | lib/lsemLib.c:434-460 | the token count is the initial count plus gives minus grants, and never negative from a non-negative start |
| SemaphoreOrder.BinaryExactlyWhen | lib/lsemLib.c:457-460 | a binary semaphore stays at one token or less all along a run if and only if no give is made while there is a token |
| SemaphoreOrder.BinaryIsNotCapped | lib/lsemLib.c:457-460 | `n` gives leave a binary semaphore with `n` tokens |
| MutexSemaphore.MutexInvariant | lib/lsemLib.c:271-292 | no owner, level zero and one token go together; otherwise there is no token |
| MutexSemaphore.NestingCounts | lib/lsemLib.c:434-439 | the nesting level of the owner is its takes minus its gives; for everybody else they balance |
| MutexSemaphore.MutualExclusion | lib/lsemLib.c:727-742 | no two tasks are inside at once |
| MutexSemaphore.ForeignGive | lib/lsemLib.c:421-426 | a give by a non-owner is refused and changes nothing |
| SemaphoreCalls.FindCall | lib/lsemLib.c:713-748 | every end of a semTake answers a call made earlier in the run, inside which the task has been since, and a time-out is one of the wait asked for |
| SemaphoreCalls.OkTakeOwns | lib/lsemLib.c:596-707 | a call willing to wait is told OK if and only if it leaves the caller owning the mutex; a NO_WAIT call is told OK in any case |
| SemaphoreCalls.OkTakeCounts | lib/lsemLib.c:596-707 | on counting and binary semaphores a call willing to wait, not ended by a flush, is told OK if and only if it takes a token; a NO_WAIT call in any case |
| SemaphoreCalls.NoWaitOkForNothing | lib/lsemLib.c:597-610 | for every kind of semaphore: whenever there is no token, an undisturbed NO_WAIT take is told OK with tokens and owner unchanged |
| SemaphoreFlush.FlushEndsWithTheList | lib/lsemLib.c:672-689 | with an empty list no flush is in force |
| SemaphoreFlush.FlushContainment | lib/lsemLib.c:370-390 | whoever a flush sends away was sent away by a semFlush since which the list has never been empty |
| SemaphoreFlush.FlushIsFor | lib/lsemLib.c:372-547 | of the tasks waiting when semFlush is called, exactly those not polling at that moment are sent away by it at their next turn, whatever happens before that turn |
| SemaphoreFlush.FlushCanMiss | lib/lsemLib.c:521-544 | a run in which a waiter sleeps with the flush in force |
| FlushWait.ReturnsExactlyWhen | lib/lsemLib.c:380-388 | once the last waiter is out, semFlush returns at its next look if and only if nobody is inside semTake then, so surely if nobody has called it since; otherwise the flusher is stranded |
| FlushWait.StrandedForGood | lib/lsemLib.c:667-689 | nothing done to the semaphore wakes a stranded flusher |
| FlushWait.FlusherCanStrand | lib/lsemLib.c:380-388 | a run after which the flusher sleeps though nobody is waiting any more |
| SemaphoreFlush.ListDrains | lib/lsemLib.c:667-671 | without arrivals the list shrinks by one at every exit and otherwise stays as it is |
| SemaphoreFlush.LockedExactlyWhen | lib/lsemLib.c:371-392 | `sem_lock` is left locked if and only if some semFlush of a non-mutex found nobody waiting |
| SemaphoreFlush.FlushOfNobodyWedges | lib/lsemLib.c:371-392 | after that no take, give or flush gets anywhere in any continuation; before it every give is answered |
| SemaphoreExecution.Execution.Perform | lib/lsemLib.c:352-755 | every event on the control block and the chain of waiters is the step of the machine; no list of another object changes; PEND stays truthful |
| Sharing.SemAlone | lib/lsemLib.c:352-755 | a semaphore among any number of objects used by the same tasks goes through a run of its own |
| Sharing.QueueAlone | lib/lmsgQLib.c:694-1259 | and so does a message queue |
| System.System.Perform | lib/ltaskLib.c:338-447 | one action on one object of a shared heap leaves every other object as it was |
| System.Execute | lib/ltaskLib.c:338-447 | any run of any number of semaphores and queues on one heap leaves each in the state, and each ring with the contents, of a run of its own; PEND is set in exactly the tasks inside a call |
| SchedulerLock.LockIsHonest | lib/ltaskLib.c:192-219 | no locker exactly at level zero; a sleeper means somebody else holds the lock; a free lock goes to the first that looks |
| SchedulerLock.RefinesExactlyWhen | lib/ltaskLib.c:194-331 | all along a run (locker, level) is the map of locks minus unlocks per thread, if and only if the lock is never taken at the counter's largest value |
| SchedulerLock.LockRefinesDepths | lib/ltaskLib.c:194-331 | so it is that map after every run, however long, that does not saturate |
| SchedulerLock.AtMostOneInside | lib/ltaskLib.c:194-331 | in every run that does not saturate at most one thread has a depth other than zero |
| SchedulerLock.TwoInside | lib/ltaskLib.c:198-200 | for every range of the counter, a run with saturation after which two threads are inside |
| SchedulerLock.LockAnswer | lib/ltaskLib.c:192-214 | a look at the lock gets it exactly if nobody else is inside, one deeper unless at the largest value, and wakes everybody; otherwise the thread sleeps |
| SchedulerLock.UnlockAnswer | lib/ltaskLib.c:290-328 | the holder is one less deep; coming out it frees the lock, runs at its own priority and wakes everybody; anybody else changes nothing |
| SchedulerLock.SetAnswer | lib/ltaskLib.c:1149-1181 | the holder sets the target's translated priority, at once unless it is its own |
| SchedulerLock.HolderOutranks | lib/ltaskLib.c:226-320 | every task but the holder runs at the priority it should have; once taskLock has returned the holder outranks every task not created at the top |
| SchedulerObject.Scheduler.TryLock | lib/ltaskLib.c:194-214 | succeeds exactly if nobody else is inside; the caller is then one deeper, or at the largest value; everybody else stays |
| SchedulerObject.Scheduler.RaiseToTop | lib/ltaskLib.c:226-265 | afterwards the holder outranks exactly the tasks that should be below the top |
| SchedulerObject.Scheduler.TaskUnlock | lib/ltaskLib.c:287-330 | the caller is one less deep, if inside; getting out it runs as it should again and wakes everybody; nobody else changes |
| SchedulerObject.Scheduler.PrioritySet | lib/ltaskLib.c:1149-1181 | the target should run at the translated priority, below the two top levels, and does so at once unless it is the caller; nobody else is affected; an illegal priority is reported and set all the same |
| SchedulerObject.Execute | lib/ltaskLib.c:168-331 | every run on the globals goes through the machine's states; unless saturated each thread is as deep as it locked more than unlocked; a holder back from taskLock outranks every task below the top |
| Priorities.InRange | lib/ltaskLib.c:506-522 | every result is in `min..max-2`, whatever the argument |
| Priorities.OutOfRange | lib/ltaskLib.c:506-522 | numbers above 255 end at the bottom |
| Priorities.WrapsExactlyWhen | lib/ltaskLib.c:506-522 | inputs with `(v + 1) * max <= 256`, and only they, wrap to the bottom of the range |
| Priorities.BottomExactlyWhen | lib/ltaskLib.c:506-522 | an input ends at the bottom if and only if it wraps or `(255 - w) * max < (min + 1) * 256` |
| Priorities.ReversesExactlyWhen | lib/ltaskLib.c:489-522 | the map reverses the order of `v < w` if and only if `v` does not wrap or `w` ends at the bottom, both said of the inputs |
| Priorities.LinuxWraps | lib/ltaskLib.c:506-522 | with 99 levels exactly the priorities 0 and 1 wrap, below priority 2 |
| Timeouts.DeadlineIsExact | lib/lmsgQLib.c:1176-1186 | the split deadline is start plus 10000 microseconds per tick if and only if the wait is of 214748 ticks at most; `tv_nsec` is then out of range exactly when the sum is one second |
| Timeouts.DeadlineOf | lib/lsemLib.c:631-640 | for any argument, the deadline is start plus what the 32-bit product has become |
| Timeouts.ProductFits | lib/lmsgQLib.c:1177 | the 32-bit product is exact if and only if the wait is of 214748 ticks at most |
| Timeouts.RemainingIsTimeLeft | lib/lmsgQLib.c:1072-1092 | the two-branch formula is the time left, or zero |
| Timeouts.ExpiredIffNothingLeft | lib/lsemLib.c:481-492 | time_expired agrees with the queue's formula |
| Timeouts.WaitsExactly | lib/lsemLib.c:631-640 | a wait is over, for queues and semaphores alike and whenever one looks, exactly from start plus 10000 microseconds per tick, if and only if it is of 214748 ticks at most |
| Watchdogs.WalkAdvances | lib/lwdLib.c:216-244 | after a visit, what is ahead of the walk is what was ahead less the visited timer and the deleted ones |
| Watchdogs.Pass | lib/lwdLib.c:251-259 | a pass terminates whatever the callbacks delete, and keeps the list well formed |
| WatchdogTiming.VisitsEachOnce | lib/lwdLib.c:251-259 | a pass visits nobody twice; it visits everybody still listed if and only if no timer noted as next is deleted in front of anybody who stays |
| WatchdogTiming.WholePass | lib/lwdLib.c:251-259 | the same for the pass of one tick; never deleting the noted timer is enough |
| WatchdogTiming.SkipsSurvivor | lib/lwdLib.c:216-241 | of three due timers, the first deletes the second in its callback and the third is passed over |
| WatchdogTiming.PassOn | lib/lwdLib.c:211-245 | a pass ages a timer by exactly one visit and fires it exactly when its last tick goes |
| WatchdogTiming.StartLeaves | lib/lwdLib.c:342-348 | wdStart leaves max(1, d/2) ticks, the function and the argument, and touches no other timer |
| WatchdogTiming.FiresOnce | lib/lwdLib.c:331-348 | after wdStart with delay d an undisturbed timer fires exactly once, in its max(1, d/2)-th pass, with its function and argument |
| WatchdogTiming.FiresPeriodically | lib/lwdLib.c:224-232 | one whose callback starts it again in the same way fires in every max(1, d/2)-th pass for ever |
| WatchdogTiming.CancelledNeverFires | lib/lwdLib.c:266-302 | a cancelled timer, and one just created, fires in no pass until it is started again |
| WatchdogTiming.DeletedNeverFires | lib/lwdLib.c:308-326 | a deleted timer never fires |
| WatchdogObject.WatchdogList.WdogValid | lib/lwdLib.c:49-84 | the search finds exactly the listed control blocks |
| WatchdogObject.WatchdogList.LinkWdog | lib/lwdLib.c:89-99 | the walk to the tail appends the control block to the chain |
| WatchdogObject.WatchdogList.UnlinkWdog | lib/lwdLib.c:129-142 | the pointer-to-pointer walk takes exactly the control block out of the chain |
| WatchdogObject.WatchdogList.WdStart | lib/lwdLib.c:331-355 | wdStart on the heap: max(1, d/2) ticks, function and argument are stored; fails and changes nothing for an unlisted timer |
| WatchdogObject.WatchdogList.WdCancel | lib/lwdLib.c:266-284 | wdCancel on the heap |
| WatchdogObject.WatchdogList.WdDelete | lib/lwdLib.c:308-326 | wdDelete on the heap |
| WatchdogObject.WatchdogList.WdCreate | lib/lwdLib.c:289-302 | wdCreate allocates an inactive timer and links it last |
| WatchdogObject.WatchdogList.ProcessTickFor | lib/lwdLib.c:211-245 | one visit, with the `next` pointer noted before the callback |
| WatchdogObject.WatchdogList.ProcessTimerList | lib/lwdLib.c:251-259 | the loop makes exactly the pass |

## Left out

- Task deletion, deletion safety and restart: they rest on pthread cancellation and joining.
- `msgQDelete` and `semDelete`: freeing races with waiters that still use the control block.
- Wake-ups of blocked senders on `queue_space`: that wait is entered without its mutex, so senders are modelled for safety only.
- A second semFlush during one: it waits in taskLock while holding `sem_lock`.
- `SEM_INVERSION_SAFE`, `SEM_DELETE_SAFE` and `SEM_Q_PRIORITY` semaphores: every create function rejects these options.
- `pthread_cond_timedwait` with `tv_nsec` out of range (EINVAL): the deadline arithmetic shows when it happens, the step machines do not follow it.
- The global lists of queues and semaphores, their lookup, and mutex order. A task stuck on a dead semaphore also keeps `sem_list_lock`, which stops calls on all others (lib/lsemLib.c:121-137); `System` has every object use its own mutex only.
- Task creation, naming, `my_task` and `task_for`: simple lookups.
- Null message buffers: they store or fetch no bytes.
- Clock calls, tracing, kernel start-up, load and task-variable stubs, and everything that only prints.

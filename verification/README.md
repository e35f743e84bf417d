# RT-Thread 4.0 kernel: models and proofs

The kernel of RT-Thread in its uniprocessor build, modelled in Dafny 4.11: the scheduler and its
threads, the five IPC objects, the hard timers, three heap allocators and the ROMFS image writer.

Each component has two layers. A `...Model` module gives the component on values: its operations as
functions, its invariant, and theorems about every step and every run. A module with a class gives
it in the form of the source, with fields and links changed in place and with the loops of the
source. Each method of a class is proved to do what the function of the model does, so the
theorems about the model hold of it.

- `Rings`, `Bits`, `Words`: the intrusive list, the ready bitmap with `__rt_ffs`, machine words.
- `Kernel`, `Scheduler`, `Ipc`: ready lists, wait lists and thread records. Each region between
  disabling and enabling interrupts is one atomic step; a blocking call is split at the rescheduling.
- `Semaphore`, `Mutex`, `Event`, `Mailbox`, `MessageQueue` on top of them, and `BoundedBuffer`, a
  client with two threads and three semaphores.
- `Timer` (one sorted list) and `TimerRows` (the skip list that refines it); `TimedWait` runs threads and
  timers together.
- `MemHeap` (`memheap.c`), `SmallMem` (`mem.c`), `Pages` and `Slab` (`slab.c`), `KService`.
- `Romfs`: the writer, and a reader that follows the addresses it wrote.

`dafny verify dfyconfig.toml` checks the project.

Where a promise does not hold of the code, a lemma gives the input that breaks it and another the
exact condition under which it holds:

- the semaphore counter overflows at 65535 (`SemaphoreModel.StepConserves`, `OverflowLoses`);
- the nesting count of a mutex overflows at 255 (`MutexModel.HoldOverflows`);
- the owner of a mutex can be less urgent than a waiter, because a mutex that is handed over does not
  inherit: exactly when a last release passes over a waiter more urgent than the first
  (`MutexModel.FifoInverts`, `StepUrgent`, `UrgentRuns`);
- `rt_memheap_init` does not refuse a pool smaller than its two headers (`MemHeapModel.InitOk`), and
  `rt_memheap_realloc` with a size close to 4 GB wraps in its test (`ReallocKeeps`, `ReallocWraps`);
- `rt_realloc` of `mem.c` does not lower `lfree` when it shrinks a block (`SmallMemModel.ShrinkLow`,
  `ShrinkHidesBlock`), and in a heap of less than twelve bytes the search of `rt_malloc` does not end
  for a request that the heap could hold (`MallocEnds`, `TinyHeapSpins`);
- requests in the last bytes of the range are rounded to nothing (`MemHeapModel.RequestCovers`,
  `SmallMemModel.MallocCovers`), and `rt_realloc` of `mem.c` then releases the block; it also fails for
  want of room when a block is to shrink a little (`SmallMemModel.ReallocReturns`);
- `slab.c` says that all powers of two are aligned to themselves: above a page this depends on the page
  that the block or its zone is given (`SlabModel.ReturnsAligned`, `ReturnsUnaligned`). It also says that
  `malloc(0)` does not return null, which it does (`SlabModel.MallocFails`);
- a check of the timers has a bound exactly when no timer has period 0 (`TimerModel.CheckBounded`,
  `ZeroPeriodSpins`, `PeriodicZeroSpins`); a one-shot timer of period 0 is one tick late (`FiresOnTime`);
- a start that ticks interrupt is on time exactly when fewer ticks than the period came in between
  (`TimerModel.InterruptedStart`), and how late it is depends on the first timer of the list
  (`LateInTime`, `LateCall`);
- a one-shot timer that its own function restarts is linked but inactive (`TimerModel.FireKeepsFlags`,
  `FlaggedRuns`, `RestartedCannotStop`).

## Model

| member | source | states |
|---|---|---|
| `Rings.ListNodes.Init` | rt-thread/include/rtservice.h:47-50 | a node becomes a ring of its own; every other link is as it was |
| `Rings.ListNodes.InsertAfter` | rt-thread/include/rtservice.h:58-65 | the ring with the node put in behind `l`; links outside the ring are as they were |
| `Rings.ListNodes.InsertBefore` | rt-thread/include/rtservice.h:73-80 | the ring with the node put in before `l`; before the head means at the end |
| `Rings.ListNodes.Remove` | rt-thread/include/rtservice.h:86-92 | the ring without the node, and the node left as a ring of its own; a node that was alone is not changed |
| `Rings.ListNodes.IsEmpty` | rt-thread/include/rtservice.h:98-101 | true exactly when the ring has no node but its head |
| `Bits.TableIsLowest` | rt-thread/src/kservice.c:1248-1266 | every entry of the table is the position of the lowest one bit of its index |
| `Bits.FfsIsLowest` | rt-thread/src/kservice.c:1278-1292 | `__rt_ffs` is 0 for 0, else one more than the position of the lowest one bit |
| `Bits.ReadyBitmap.Mark` | rt-thread/src/scheduler.c:674-682 | exactly the one level is marked in addition, in the 32-level and in the two-level form |
| `Bits.ReadyBitmap.Unmark` | rt-thread/src/scheduler.c:765-775 | exactly the one level is unmarked; the group bit goes with the last level of its byte |
| `Bits.ReadyBitmap.First` | rt-thread/src/scheduler.c:170-192 | the lookup through `__rt_ffs` is the least marked level, what a linear scan would find |
| `KernelModel.OnePlace` | rt-thread/src/thread.c:80-770 | the place of a thread and its `stat` agree: running and in no list, in the ready list of its own priority only, in at most one wait list, or closed |
| `KernelModel.StepKeeps` | rt-thread/src/thread.c:80-770 | startup, suspend, resume, time-out, sleep, priority change, exit, blocking, waking, the clock and the scheduler keep every thread in that one place |
| `KernelModel.AlwaysPlaced` | rt-thread/src/thread.c:748-770 | from boot on, in every interleaving, threads are in one place, and a thread timer that fires finds its thread suspended |
| `KernelModel.ScheduleIsBest` | rt-thread/src/scheduler.c:399-499 | after a scheduling decision with the scheduler unlocked and something runnable, the current thread runs and no ready thread is more urgent; a runner gives way within its own level |
| `KernelModel.StaysWhen` | rt-thread/src/scheduler.c:399-499 | a scheduling decision changes nothing if and only if the scheduler is locked, or every ready thread is less urgent than a current thread that runs |
| `KernelModel.SwitchMoves` | rt-thread/src/scheduler.c:399-499 | otherwise the first thread of the most urgent ready list runs, the one before waits behind all others of its priority if it still ran, and no other thread changes |
| `KernelModel.LockedRun` | rt-thread/src/scheduler.c:813-890 | however the scheduler is locked and unlocked, nothing switches while the depth is above 0, and the depth is the number of locks less that of unlocks |
| `KernelModel.CreatedStarts` | rt-thread/src/thread.c:117-318 | a thread that is created and started is the last of the ready list of the priority it was created with, with a full slice; no other thread changes |
| `KernelModel.StartupMoves` | rt-thread/src/thread.c:286-318 | a started thread gets its initial priority and waits behind all others of it |
| `KernelModel.ResumeMoves` | rt-thread/src/thread.c:705-770 | a suspended thread that is resumed or times out waits behind all others of its priority, or runs on if it is the current one, with its timer stopped; others are not resumed |
| `KernelModel.WakeMoves` | rt-thread/src/ipc.c:133-146 | the first waiter is the one made runnable, and the others stay in order |
| `KernelModel.SuspendMoves` | rt-thread/src/thread.c:486-695 | suspending takes a ready or running thread out of its list and refuses others; sleeping also starts its timer; nothing else changes |
| `KernelModel.BlockMoves` | rt-thread/src/ipc.c:79-122 | the caller is suspended without an error, at the end of the wait list, or by priority behind all as urgent and before the first less urgent |
| `KernelModel.CloseMoves` | rt-thread/src/thread.c:80-115 | the thread is closed and in no list, or first in the defunct list; nothing else changes |
| `KernelModel.ChangePriorityMoves` | rt-thread/src/thread.c:561-643 | a ready thread waits behind all others of its new priority; any other thread just has it |
| `KernelModel.RoundRobinStep` | rt-thread/src/clock.c:74-100 | no step that leaves `t` alone and brings nothing above its level, a priority change of another thread included, adds to the ticks ahead of it, and each tick takes one away |
| `KernelModel.RoundRobinBound` | rt-thread/src/clock.c:74-100 | a top-priority ready thread that is left alone runs within the remaining ticks of the current thread and of those ahead of it in its list, whatever else happens at its level or below |
| `KernelModel.SliceKept` | rt-thread/src/clock.c:74-95 | over every run of fewer ticks than it has left in which it does not block, sleep, stop or change priority, and the scheduler is called only while no ready thread is as urgent, a thread keeps the processor and has as many ticks less |
| `KernelModel.SliceEnds` | rt-thread/src/clock.c:88-95 | in the tick that uses up its slice it gives way if and only if the scheduler is unlocked and a thread at least as urgent is ready, to the end of its ready list; its slice is full again either way |
| `KernelModel.WholeSlice` | rt-thread/src/clock.c:74-95 | both together: a whole slice, and the tick that ends it |
| `KernelModel.StepForeign` | rt-thread/src/ipc.c:79-146 | steps elsewhere leave a wait list, and the errors, priorities and suspension of its threads, alone |
| `Scheduling.Scheduler.constructor` | rt-thread/src/scheduler.c:199-278 | the state in which one thread, the first, runs, all lists empty, no level marked |
| `Scheduling.Scheduler.InsertThread` | rt-thread/src/scheduler.c:652-686 | refines the model: at the end of its ready list, or running if it is the current thread; rings and bitmap agree with the lists |
| `Scheduling.Scheduler.RemoveThread` | rt-thread/src/scheduler.c:749-779 | refines the model: out of whichever list it is in, the level unmarked when its list gets empty |
| `Scheduling.Scheduler.Schedule` | rt-thread/src/scheduler.c:399-499 | refines the scheduling decision of the model |
| `Scheduling.Scheduler.EnterCritical` | rt-thread/src/scheduler.c:813-828 | the lock depth goes up by one, nothing else changes |
| `Scheduling.Scheduler.ExitCritical` | rt-thread/src/scheduler.c:868-890 | the lock depth goes down; at 0 the scheduler decides |
| `Scheduling.Scheduler.Suspend` | rt-thread/src/thread.c:656-695 | refines the model; reports whether the thread was ready or running |
| `Scheduling.Scheduler.Resume` | rt-thread/src/thread.c:705-739 | refines the model; a thread that is not suspended is left alone |
| `Scheduling.Scheduler.TimeoutThread` | rt-thread/src/thread.c:748-770 | refines the model: error set, out of its list, ready, scheduler called |
| `Scheduling.Scheduler.CreateThread` | rt-thread/src/thread.c:117-218 | a thread in the initial state, in no list |
| `Scheduling.Scheduler.Startup` | rt-thread/src/thread.c:286-318 | refines the model up to the call of the scheduler |
| `Scheduling.Scheduler.ChangePriority` | rt-thread/src/thread.c:561-643 | refines the model: a ready thread changes to the list of its new priority |
| `Scheduling.Scheduler.Close` | rt-thread/src/thread.c:80-115 | refines the model: out of its list, closed, and at the front of the defunct list if it is to be cleaned up |
| `Scheduling.Scheduler.Sleep` | rt-thread/src/thread.c:486-516 | refines the model: suspended with its timer running |
| `Scheduling.Scheduler.Block` | rt-thread/src/ipc.c:79-122 | refines the model: error cleared, into the wait list at the place its order gives, timer started |
| `Scheduling.Scheduler.FindPlace` | rt-thread/src/ipc.c:96-116 | the search finds the first waiter with a greater priority number |
| `Scheduling.Scheduler.Wake` | rt-thread/src/ipc.c:133-146 | refines the model: the first waiter becomes ready |
| `Scheduling.Scheduler.TickSlice` | rt-thread/src/clock.c:74-95 | refines the time-slice half of the tick |
| `IpcModel.WakeAttends` | rt-thread/src/ipc.c:133-146 | one wake-up for one more unit on offer keeps the account of offers and resumed waiters |
| `IpcModel.TimeRunsDown` | rt-thread/src/ipc.c:1505-1520 | measured from tick to tick the waiting time left only runs down, across the wrap of the clock |
| `Ipc.IpcObject.Suspend` | rt-thread/src/ipc.c:79-122 | the caller joins the waiters at the place its order gives |
| `Ipc.IpcObject.ResumeFirst` | rt-thread/src/ipc.c:133-146 | the first waiter leaves the list with success |
| `Ipc.IpcObject.ResumeAll` | rt-thread/src/ipc.c:156-184 | every waiter leaves the list with an error, in order |
| `Ipc.IpcObject.Timeout` | rt-thread/src/thread.c:748-770 | a waiter whose timer fires leaves the list with a time-out |
| `Ipc.SuspendBeside` | rt-thread/src/ipc.c:1439-1558 | blocking on one of two wait lists leaves the other alone |
| `Ipc.ResumeFirstBeside` | rt-thread/src/ipc.c:1439-1558 | waking from one of two wait lists leaves the other alone |
| `SemaphoreModel.StepConserves` | rt-thread/src/ipc.c:321-468 | a step conserves units if and only if it is not a release without waiters at 65535 |
| `SemaphoreModel.Conservation` | rt-thread/src/ipc.c:321-468 | in every run without such a release: initial value plus releases is value plus the takes answered with success and the blocked ones handed a unit, and value and waiters exclude each other |
| `SemaphoreModel.CallersConserve` | rt-thread/src/ipc.c:321-468 | the same counted by what callers are told: initial value plus releases is value plus the takes that returned with success plus the resumed threads that have not run on |
| `SemaphoreModel.TakeAnswers` | rt-thread/src/ipc.c:321-393 | a take succeeds if and only if there is a unit, times out if and only if there is none and it does not wait, and otherwise joins the waiters |
| `SemaphoreModel.HandOver` | rt-thread/src/ipc.c:430-468 | a waiter leaves the list with success only by a release, and only the first one |
| `SemaphoreModel.ReleaseAnswers` | rt-thread/src/ipc.c:430-512 | a release resumes the first waiter or else counts, except in a full counter; a reset fails exactly all waiters and sets the value |
| `SemaphoreModel.OverflowLoses` | rt-thread/src/ipc.c:430-468 | the 16-bit counter goes from 65535 to 0 |
| `SemaphoreModel.TakesEndOnce` | rt-thread/src/ipc.c:321-406 | every blocked take still waits or ended by exactly one of hand-off and time-out, and returns what ended it |
| `Semaphores.Semaphore.constructor` | rt-thread/src/ipc.c:198-218 | value as given, nobody waiting |
| `Semaphores.Semaphore.Take` | rt-thread/src/ipc.c:321-393 | refines the model take up to the rescheduling |
| `Semaphores.Semaphore.TakeReturns` | rt-thread/src/ipc.c:394-406 | the caller gets the error its waiting ended with |
| `Semaphores.Semaphore.Release` | rt-thread/src/ipc.c:430-468 | refines the model release; asks for rescheduling exactly when a thread was resumed |
| `Semaphores.Semaphore.Timeout` | rt-thread/src/thread.c:748-770 | refines the time-out of a waiter |
| `Semaphores.Semaphore.Reset` | rt-thread/src/ipc.c:480-512 | all waiters get an error and the value is set |
| `MutexModel.StepKeeps` | rt-thread/src/ipc.c:651-878 | value is 1 exactly when there is no owner and hold is 0, and waiters exist only while the mutex is owned, kept by take, release, hand-off and time-out |
| `MutexModel.HoldOverflows` | rt-thread/src/ipc.c:651-706 | a take keeps this if and only if it is not the owner's at hold 255 |
| `MutexModel.TakeAnswers` | rt-thread/src/ipc.c:651-748 | a take succeeds if and only if the mutex is free or its own, times out if and only if it is another's and it does not wait, and otherwise joins the waiters |
| `MutexModel.ReleaseAnswers` | rt-thread/src/ipc.c:787-878 | a release succeeds if and only if it is the owner's; the last one hands over to the first waiter, or frees the mutex |
| `MutexModel.StepPriority` | rt-thread/src/ipc.c:718-860 | a priority changes only by the last release, to what the mutex has remembered, and when a thread begins to wait: then the owner gets the more urgent of its own and the waiter's |
| `MutexModel.InheritsExactly` | rt-thread/src/ipc.c:718-860 | over every run the owner's priority is exactly the most urgent of its own and those of the threads that have begun to wait since it got the mutex, and every other thread has its own |
| `MutexModel.HoldsBalance` | rt-thread/src/ipc.c:651-878 | the hold count of a thread is its granted takes less its releases, in every run |
| `MutexModel.MutualExclusion` | rt-thread/src/ipc.c:651-878 | at no point of a run do two threads have takes they have not released |
| `MutexModel.PriorityInheritance` | rt-thread/src/ipc.c:718-860 | with waiting by priority and one mutex: the owner is never less urgent than a waiter, and every thread that does not own the mutex has the priority it had |
| `MutexModel.StepUrgent` | rt-thread/src/ipc.c:718-860 | whatever the order of waiting, a step leaves the owner at least as urgent as every waiter if and only if it is not the last release of an owner whose first waiter is less urgent than another |
| `MutexModel.UrgentRuns` | rt-thread/src/ipc.c:718-860 | the same over whole runs: the owner is ahead of its waiters throughout if and only if no such release happens |
| `MutexModel.PriorityRestored` | rt-thread/src/ipc.c:718-860 | whatever the order of waiting, a thread that does not own the mutex has the priority it had, and inheriting only made an owner more urgent |
| `MutexModel.FifoInverts` | rt-thread/src/ipc.c:841-852 | with waiting first in, first out the hand-off can leave a less urgent owner: a concrete run |
| `Mutexes.ForeignRun` | rt-thread/src/ipc.c:651-878 | a run of kernel steps elsewhere leaves waiters, their errors and all priorities as the mutex left them |
| `Mutexes.Mutex.constructor` | rt-thread/src/ipc.c:527-547 | free, nobody waiting |
| `Mutexes.Mutex.Take` | rt-thread/src/ipc.c:651-748 | refines the model take up to the rescheduling; the mutex stays consistent if and only if it is not the take of the owner at hold 255 |
| `Mutexes.Mutex.BoostAndWait` | rt-thread/src/ipc.c:718-745 | the owner gets the priority of a more urgent taker, which joins the waiters |
| `Mutexes.Mutex.TakeReturns` | rt-thread/src/ipc.c:749-776 | the caller gets the error its waiting ended with |
| `Mutexes.Mutex.Release` | rt-thread/src/ipc.c:787-878 | refines the model release; asks for rescheduling exactly when the hold reached 0 with threads waiting |
| `Mutexes.Mutex.LastRelease` | rt-thread/src/ipc.c:827-870 | the owner gets its priority back, and the mutex is handed over or freed |
| `Mutexes.Mutex.HandOff` | rt-thread/src/ipc.c:841-870 | the first waiter owns the mutex with hold 1 and its own priority remembered, or the mutex is free |
| `Mutexes.Mutex.TimeoutWaiter` | rt-thread/src/thread.c:748-770 | refines the time-out of a waiter |
| `EventModel.NobodyWaitsInVain` | rt-thread/src/ipc.c:1026-1234 | after every run no thread in the wait list has its AND or OR condition satisfied by the remaining flags |
| `EventModel.RecvAnswers` | rt-thread/src/ipc.c:1124-1212 | a receive succeeds at once if and only if all wanted flags are set, or with OR one of them; it gets exactly the wanted flags that are set, and clears the wanted ones if asked to; else it times out or joins the waiters with its condition |
| `EventModel.SendServes` | rt-thread/src/ipc.c:1026-1108 | waiter by waiter: it is served if and only if the flags left by those before it hold all, or with OR one, of what it wants; it then has got exactly those, and the others wait on in order with their condition |
| `EventModel.SendReplaysReceives` | rt-thread/src/ipc.c:1026-1108 | a send with waiters gives every thread, and leaves as flags, what the waiters would have got by receiving in queue order |
| `EventModel.ConsumedOnce` | rt-thread/src/ipc.c:1058-1092 | a flag that a clearing receiver got goes to no later receiver and does not remain set |
| `Events.Event.constructor` | rt-thread/src/ipc.c:912-930 | no flags, nobody waiting |
| `Events.Event.Recv` | rt-thread/src/ipc.c:1124-1212 | refines the model receive up to the rescheduling |
| `Events.Event.RecvReturns` | rt-thread/src/ipc.c:1213-1234 | the caller gets its error and, on success, the flags it received |
| `Events.Event.Send` | rt-thread/src/ipc.c:1026-1108 | refines the model send; asks for rescheduling exactly when a thread was resumed |
| `Events.Event.ServeWaiters` | rt-thread/src/ipc.c:1047-1098 | the walk along the wait list refines the recursive service of the model |
| `Events.Event.TimeoutWaiter` | rt-thread/src/thread.c:748-770 | refines the time-out of a waiter |
| `Events.Event.Reset` | rt-thread/src/ipc.c:1246-1274 | all waiters get an error and the flags are cleared |
| `MailboxModel.NoLostWakeup` | rt-thread/src/ipc.c:1439-1711 | in every reachable state suspended receivers mean no more values than receivers resumed and not yet run, suspended senders no more free slots than senders resumed; in_offset is (out_offset + entry) mod size |
| `MailboxModel.FirstInFirstOut` | rt-thread/src/ipc.c:1439-1711 | what was in the box and was stored since, in order, is what was taken out followed by what is in the box |
| `MailboxModel.StepKeeps` | rt-thread/src/ipc.c:1439-1755 | the ring offsets, the entry count and both wake-up accounts are kept by every step |
| `MailboxModel.SendAnswers` | rt-thread/src/ipc.c:1439-1558 | a value is stored if and only if there is room, behind the others, and the first waiting receiver is resumed; a full box answers that or makes the sender wait |
| `MailboxModel.RecvAnswers` | rt-thread/src/ipc.c:1583-1711 | the oldest value is taken if and only if there is one, and the first waiting sender is resumed; an empty box answers with a time-out or makes the receiver wait |
| `MailboxModel.GoesOn` | rt-thread/src/ipc.c:1495-1520 | a thread that goes on gives up with the error it was resumed with, or tries again |
| `MailboxModel.ResetAnswers` | rt-thread/src/ipc.c:1723-1755 | a reset empties the box and fails exactly all who wait, on both sides |
| `Mailboxes.Mailbox.constructor` | rt-thread/src/ipc.c:1291-1319 | empty, nobody waiting |
| `Mailboxes.Mailbox.SendRound` | rt-thread/src/ipc.c:1459-1545 | one round of the send loop refines the model |
| `Mailboxes.Mailbox.RecvRound` | rt-thread/src/ipc.c:1607-1700 | one round of the receive loop refines the model |
| `Mailboxes.Mailbox.Send` | rt-thread/src/ipc.c:1439-1558 | refines the model send up to a rescheduling |
| `Mailboxes.Mailbox.SendGoesOn` | rt-thread/src/ipc.c:1495-1558 | the loop after a rescheduling, with the waiting time used up subtracted |
| `Mailboxes.Mailbox.Recv` | rt-thread/src/ipc.c:1587-1711 | refines the model receive up to a rescheduling |
| `Mailboxes.Mailbox.RecvGoesOn` | rt-thread/src/ipc.c:1645-1711 | the loop after a rescheduling, with the waiting time used up subtracted |
| `Mailboxes.Mailbox.SenderTimeout` | rt-thread/src/thread.c:748-770 | refines the time-out of a waiting sender |
| `Mailboxes.Mailbox.ReceiverTimeout` | rt-thread/src/thread.c:748-770 | refines the time-out of a waiting receiver |
| `Mailboxes.Mailbox.Reset` | rt-thread/src/ipc.c:1723-1755 | both kinds of waiters get an error and the box is empty |
| `MessageQueueModel.FreshInv` | rt-thread/src/ipc.c:1778-1825 | a queue whose slots are all free satisfies the invariant of the runs |
| `MessageQueueModel.OneOwner` | rt-thread/src/ipc.c:1961-2323 | in every interleaving of the separately locked sections each slot is in exactly one of the free list, the queue and the hands of one call; no receiver sleeps while messages are unattended |
| `MessageQueueModel.Delivers` | rt-thread/src/ipc.c:1961-2264 | the queue of messages follows the links: ordinary ones at the end, urgent ones in front, taken from the front |
| `MessageQueueModel.OthersLeaveAlone` | rt-thread/src/ipc.c:1990-2010 | no step of another call touches a slot that is held, nor its bytes |
| `MessageQueueModel.ReadsWhatWasSent` | rt-thread/src/ipc.c:2241-2258 | what a receiver copies starts with the message that was sent, as far as both sizes go |
| `MessageQueueModel.ReserveAnswers` | rt-thread/src/ipc.c:1961-1996 | a message is accepted if and only if it is not longer than the message size and some slot is neither queued nor held; the call then holds such a slot |
| `MessageQueueModel.LinkAnswers` | rt-thread/src/ipc.c:2007-2036 | the message goes behind the others, an urgent one in front, and exactly the first waiting receiver is resumed |
| `MessageQueueModel.FetchAnswers` | rt-thread/src/ipc.c:2136-2240 | the first message is taken if and only if there is one; else the call answers that or its thread joins the waiters |
| `MessageQueueModel.SlotsFreed` | rt-thread/src/ipc.c:2248-2323 | a receive frees exactly its slot at its end, and a reset exactly the queued ones, failing all who wait |
| `MessageQueues.MessageQueue.constructor` | rt-thread/src/ipc.c:1778-1825 | every slot free, sizes in 16 bits |
| `MessageQueues.MessageQueue.Reserve` | rt-thread/src/ipc.c:1961-1996 | refines the first locked region of send and urgent, with both error returns |
| `MessageQueues.MessageQueue.Fill` | rt-thread/src/ipc.c:1997-2006 | the copy between the regions changes only the slot held |
| `MessageQueues.MessageQueue.Link` | rt-thread/src/ipc.c:2007-2036 | refines the second region of send; an empty queue gets head and tail |
| `MessageQueues.MessageQueue.FetchRound` | rt-thread/src/ipc.c:2160-2240 | one round of the receive loop refines the model |
| `MessageQueues.MessageQueue.Fetch` | rt-thread/src/ipc.c:2136-2240 | refines the model receive up to a rescheduling |
| `MessageQueues.MessageQueue.FetchGoesOn` | rt-thread/src/ipc.c:2190-2240 | the loop after a rescheduling |
| `MessageQueues.MessageQueue.Read` | rt-thread/src/ipc.c:2241-2247 | the copy out of the slot held |
| `MessageQueues.MessageQueue.GiveBack` | rt-thread/src/ipc.c:2248-2264 | refines the last region: the slot is free again |
| `MessageQueues.MessageQueue.TimeoutReceiver` | rt-thread/src/thread.c:748-770 | refines the time-out of a waiter |
| `MessageQueues.MessageQueue.Reset` | rt-thread/src/ipc.c:2277-2323 | waiters get an error, all queued slots are free again |
| `BoundedBuffer.StartOk` | examples/04_thread_sync_sem/applications/main.c:127-140 | the state main sets up satisfies the invariant of the runs |
| `BoundedBuffer.Delivers` | examples/04_thread_sync_sem/applications/main.c:68-124 | in every interleaving the i-th value read is the i-th written, no unread slot is overwritten, no empty one read, and the accesses exclude each other |
| `BoundedBuffer.NoDeadlock` | examples/04_thread_sync_sem/applications/main.c:68-124 | some thread can move until both have stopped and all items are read |
| `BoundedBuffer.EveryRunDeliversAll` | examples/04_thread_sync_sem/applications/main.c:68-124 | every run ends within 18 moves an item, and a run that cannot go on has delivered all items in order |
| `TimerModel.StartKeeps` | rt-thread/src/timer.c:296-412 | the list stays sorted by distance from the clock, and the timer goes behind all that fire no later: equal timeouts keep start order |
| `TimerModel.LaterIs` | rt-thread/src/timer.c:352-380 | the wrapping comparison is the comparison of true times if these are at most half of the range apart |
| `TimerModel.CheckTerminates` | rt-thread/src/timer.c:494-553 | with positive periods a check runs at most as many functions as timers were due, and ends, whatever the functions do |
| `TimerModel.CheckBounded` | rt-thread/src/timer.c:494-553 | when a timer is due, a check has a bound on the functions it runs, whatever these do short of setting a period to 0, if and only if no timer of the table has period 0 |
| `TimerModel.ZeroPeriodSpins` | rt-thread/src/timer.c:494-553 | from any table with a timer of period 0 and one that is due: functions that start the former are run any number of times in one check |
| `TimerModel.PeriodicZeroSpins` | rt-thread/src/timer.c:532-543 | a periodic timer of period 0 that is due keeps the loop from ending, however often the check goes round, whatever functions do to other timers |
| `TimerModel.PositiveRunsEnd` | rt-thread/src/clock.c:74-100 | with positive periods every check of every run ends |
| `TimerModel.FireKeepsFlags` | rt-thread/src/timer.c:532-543 | the active flag says who is linked after a firing, if and only if the function of a one-shot timer has not left it started |
| `TimerModel.FlaggedRuns` | rt-thread/src/timer.c:494-553 | over whole runs the flags always say who is linked, if and only if no function ever leaves its one-shot timer started |
| `TimerModel.RestartedCannotStop` | rt-thread/src/timer.c:422-447 | such a timer is linked, and rt_timer_stop refuses to stop it |
| `TimerModel.FiresOnTime` | rt-thread/src/clock.c:74-100 | started at s and left alone a timer fires exactly at s + p, a periodic one at every multiple, never early or twice, in every run and across the wrap; the log of the run has one entry a tick; a one-shot timer of period 0 is one tick late |
| `TimerModel.RunRests` | rt-thread/src/clock.c:74-100 | after every run, one log entry for each tick, and no linked timer is late |
| `TimerModel.StoppedNeverFires` | rt-thread/src/timer.c:422-447 | stopping succeeds if and only if the timer is active; it then is neither active nor linked and never fires while left alone, and no other timer is touched |
| `TimerModel.SetThenFires` | rt-thread/src/timer.c:459-485 | a period and a way of firing that are set before a start are those that the timer then fires with |
| `TimerModel.InterruptedStart` | rt-thread/src/timer.c:311-328 | a start interrupted by any number of ticks between its two locked regions, for one-shot and periodic timers: it fires on time if and only if fewer ticks than the period came in between, else in the tick after the second region, a periodic one every period from then on |
| `TimerModel.StartLinks` | rt-thread/src/timer.c:296-412 | the two regions without a tick in between are the whole start |
| `TimerModel.LateInTime` | rt-thread/src/timer.c:333-380 | a timer linked late fires in the next tick if and only if the first timer of the list is due less than half of the range behind its timeout |
| `TimerModel.LateCall` | rt-thread/src/timer.c:333-380 | a call about another timer keeps the late one first if and only if it does not start one in front of it |
| `TimerModel.FiresInOrder` | rt-thread/src/timer.c:494-553 | the due timers fire in the order of the list |
| `TimerModel.CheckRests` | rt-thread/src/timer.c:494-553 | after a check no timer is due |
| `Timers.TimerLists.constructor` | rt-thread/src/timer.c:679-687 | all rows empty |
| `Timers.TimerLists.InitTimer` | rt-thread/src/timer.c:80-105 | a timer that is inactive and in no row |
| `Timers.TimerLists.Remove` | rt-thread/src/timer.c:121-129 | every row is what it was, without the timer |
| `Timers.TimerLists.FindPlaces` | rt-thread/src/timer.c:333-380 | in every row the place between the timers that fire no later and those that fire later |
| `Timers.TimerLists.InsertRows` | rt-thread/src/timer.c:382-400 | the timer is in the lowest rows, as many as the counter says |
| `Timers.TimerLists.Prepare` | rt-thread/src/timer.c:309-328 | the first locked region and the timeout: the timer is in no row, inactive, and has its timeout |
| `Timers.TimerLists.LinkIn` | rt-thread/src/timer.c:330-400 | the second locked region: in the bottom row behind all that fire no later, and in as many rows as the counter says |
| `Timers.TimerLists.Start` | rt-thread/src/timer.c:296-412 | both regions in one step refine stable insertion into one sorted list; each row stays a subsequence of the one below |
| `Timers.TimerLists.Stop` | rt-thread/src/timer.c:422-447 | refines the model, with its error |
| `Timers.TimerLists.SetEntry` | rt-thread/src/timer.c:459-485 | the entry is changed, the rows are not |
| `Timers.TimerLists.Check` | rt-thread/src/timer.c:494-553 | refines the model check, and returns what fires, for every behaviour of the functions |
| `Timers.TimerLists.TickIncrease` | rt-thread/src/clock.c:74-100 | refines the model tick; no timer is left due |
| `Timers.PutInKeepsRows` | rt-thread/src/timer.c:382-400 | for any number of rows and any height the rows stay subsequences of each other |
| `TimerRows.RowSorted` | rt-thread/src/timer.c:296-412 | every row is sorted, because the bottom row is |
| `TimedWaits.StepKeeps` | rt-thread/src/ipc.c:79-122 | thread steps, timer calls and whole ticks keep every thread's timer linked exactly while the thread's record says so |
| `TimedWaits.ActionsRun` | rt-thread/src/thread.c:748-770 | when thread timers fire, rt_thread_timeout always finds its thread suspended, and exactly those threads become ready with a time-out |
| `TimedWaits.AlwaysCoupled` | rt-thread/src/thread.c:748-770 | the same at every point of every run from boot |
| `TimedWaits.TimesOutInItsTick` | rt-thread/src/thread.c:486-516 | a sleep or a blocking call with waiting time n, not ended before, is suspended up to tick n - 1 and made ready with a time-out in tick n, in every interleaving and across the wrap; a sleep of 0 ends in the next tick |
| `MemHeapModel.InitOk` | rt-thread/src/memheap.c:50-121 | the heap that is set up satisfies the invariant if and only if the pool is at least as large as its two headers |
| `MemHeapModel.AllocKeeps` | rt-thread/src/memheap.c:138-281 | the blocks tile the pool, the free list is the unused blocks, no two of them adjacent, available is their sum; exactly one block is gained |
| `MemHeapModel.AllocFails` | rt-thread/src/memheap.c:138-281 | fails if and only if no free block is large enough, or all that is free is asked for |
| `MemHeapModel.FreeKeeps` | rt-thread/src/memheap.c:495-595 | all of this after a release, in all four cases of merging |
| `MemHeapModel.FreeReturns` | rt-thread/src/memheap.c:495-595 | exactly the released block is gone from the live ones |
| `MemHeapModel.ReallocKeeps` | rt-thread/src/memheap.c:284-492 | kept by all paths of realloc if and only if the size does not wrap or no free block follows |
| `MemHeapModel.WrapsWhen` | rt-thread/src/memheap.c:350 | a size wraps in the test if and only if it is from 0xFFFFFFF1 to 0xFFFFFFFC |
| `MemHeapModel.ReallocReturns` | rt-thread/src/memheap.c:284-492 | the block moved or resized, to the size asked for or at most a smallest block and its header more, and all others as they were, or nothing changed |
| `MemHeapModel.ReallocFails` | rt-thread/src/memheap.c:284-492 | it returns null if and only if the block has to grow, a free block after it does not suffice, and no free block is large enough or all that is free would be taken; a block that need not grow stays in place |
| `MemHeapModel.PeakIs` | rt-thread/src/memheap.c:138-595 | max_used_size is the most that has been in use, with both blocks counted while one is moved |
| `MemHeapModel.ReallocWraps` | rt-thread/src/memheap.c:330-400 | a concrete heap that a wrapping size destroys |
| `MemHeapModel.GrowKeeps` | rt-thread/src/memheap.c:330-400 | growing in place keeps the heap if and only if the sum in the test does not wrap |
| `MemHeapModel.RequestCovers` | rt-thread/src/memheap.c:138-160 | a block is as long as asked for if and only if the request is not in the last three bytes of the range |
| `MemHeapModel.LiveDisjoint` | rt-thread/src/memheap.c:50-595 | two blocks, their headers included, share no byte, lie in the pool and are aligned |
| `MemHeapModel.Conservation` | rt-thread/src/memheap.c:50-595 | free bytes, live bytes and headers make up the pool |
| `MemHeapModel.HeapStaysSound` | rt-thread/src/memheap.c:50-595 | after every history: no two free blocks adjacent, the sums add up, and a live block shares no byte with another block, its header or the tail |
| `MemHeaps.MemHeap.constructor` | rt-thread/src/memheap.c:50-121 | one free block between the two headers; sound if and only if the pool is as large as these |
| `MemHeaps.MemHeap.Alloc` | rt-thread/src/memheap.c:138-281 | the pointer-level search, split and unlinking refine the model |
| `MemHeaps.MemHeap.Free` | rt-thread/src/memheap.c:495-595 | the pointer-level merging and linking refine the model |
| `MemHeaps.MemHeap.Realloc` | rt-thread/src/memheap.c:284-492 | the pointer-level paths refine the model; the first min(old, new) bytes are kept and no other live byte is written |
| `SmallMemModel.InitOk` | rt-thread/src/mem.c:204-257 | the heap that is set up, of whatever size, satisfies the invariant, with nothing free below the hint |
| `SmallMemModel.MallocKeeps` | rt-thread/src/mem.c:272-410 | the chain tiles the heap, no two free blocks adjacent, used_mem the sum of the used blocks, the hint a free block or the end, and nothing below the hint is free |
| `SmallMemModel.MallocEnds` | rt-thread/src/mem.c:286-307 | a call returns if and only if it is not for something that a heap of less than twelve bytes could hold: there the bound of the search wraps and the end block leads to itself |
| `SmallMemModel.TinyHeapSpins` | rt-thread/src/mem.c:286-307 | a heap of eight bytes and a request for four, for which no number of rounds is enough |
| `SmallMemModel.MallocSearches` | rt-thread/src/mem.c:305-307 | in all other cases the loop finds what the model says |
| `SmallMemModel.BlocksApart` | rt-thread/src/mem.c:204-609 | after every history the bytes of a block lie in the heap, aligned, and contain no header and no byte of another block |
| `SmallMemModel.MallocFails` | rt-thread/src/mem.c:272-410 | with nothing free below the hint, fails if and only if nothing or too much is asked for or no block that starts strictly below the limit is large enough |
| `SmallMemModel.MallocCovers` | rt-thread/src/mem.c:290-300 | a block is as long as asked for if and only if rounding up does not wrap |
| `SmallMemModel.MallocGives` | rt-thread/src/mem.c:272-410 | exactly one block comes into use, the lowest that is large enough, with less than a smallest block and its header more than asked for; all others as they were |
| `SmallMemModel.FreeKeeps` | rt-thread/src/mem.c:546-609 | the same invariant after a release |
| `SmallMemModel.FreeUndoesMalloc` | rt-thread/src/mem.c:546-609 | releasing what was just allocated restores chain, hint and used_mem |
| `SmallMemModel.FreeTakes` | rt-thread/src/mem.c:546-609 | exactly the released block goes out of use |
| `SmallMemModel.PlugKeeps` | rt-thread/src/mem.c:156-194 | merging around a free block restores the invariant |
| `SmallMemModel.ReallocKeeps` | rt-thread/src/mem.c:421-510 | the invariant after every path of realloc, and the hint unless the block shrinks in place |
| `SmallMemModel.ReallocReturns` | rt-thread/src/mem.c:421-510 | the block has the bytes asked for, where it was or in a new place where none was, the old one then being gone, and all others are as they were; null with nothing changed if and only if more than the heap is asked for, or the block has to move and nothing large enough is free; a size rounded to 0 releases it |
| `SmallMemModel.PeakIs` | rt-thread/src/mem.c:272-609 | max_mem is the most that has been in use, with both blocks counted while one is moved |
| `SmallMemModel.ShrinkLow` | rt-thread/src/mem.c:471-493 | after shrinking in place nothing below the hint is free, if and only if the block lies above the hint or a free block follows |
| `SmallMemModel.ShrinkHidesBlock` | rt-thread/src/mem.c:471-493 | a concrete heap in which sixteen bytes cut off this way are not found |
| `SmallMemModel.RunKeeps` | rt-thread/src/mem.c:204-609 | the invariant after every history; without realloc the hint too |
| `SmallMemModel.HistoryFindsBlocks` | rt-thread/src/mem.c:272-410 | after every history of malloc and free, null means that no free block below the limit was large enough |
| `SmallMems.SmallMem.constructor` | rt-thread/src/mem.c:204-257 | one free block and the end block |
| `SmallMems.SmallMem.Malloc` | rt-thread/src/mem.c:272-410 | when the call returns, the first-fit loop and the split refine the model |
| `SmallMems.SmallMem.PlugHoles` | rt-thread/src/mem.c:156-194 | the pointer-level merging refines the model; prev inverts next except at the end block |
| `SmallMems.SmallMem.Free` | rt-thread/src/mem.c:546-609 | refines the model |
| `SmallMems.SmallMem.Realloc` | rt-thread/src/mem.c:421-510 | refines the model, and hands back a pointer outside the heap; the first min(old, new) bytes are kept and no other live byte is written |
| `PagesModel.Unique` | rt-thread/src/slab.c:236-322 | the list of runs is determined by the set of free pages |
| `PagesModel.AllocTakes` | rt-thread/src/slab.c:236-270 | the list stays sorted, disjoint and merged, and exactly the pages returned, which were free, are taken |
| `PagesModel.AllocFails` | rt-thread/src/slab.c:236-270 | fails if and only if no n consecutive pages are free |
| `PagesModel.FreeAdds` | rt-thread/src/slab.c:272-322 | the list stays canonical and exactly the pages freed are added |
| `PagesModel.FreeUndoesAlloc` | rt-thread/src/slab.c:272-322 | freeing what was just allocated restores the same list |
| `Pages.PageList.constructor` | rt-thread/src/slab.c:327-334 | one run of all pages |
| `Pages.PageList.Alloc` | rt-thread/src/slab.c:236-270 | the loop over link fields refines the model |
| `Pages.PageList.Free` | rt-thread/src/slab.c:272-322 | the loop over link fields refines the model |
| `SlabModel.ClassFits` | rt-thread/src/slab.c:401-459 | a request is rounded up to a class size, by less than eight bytes or an eighth, and gets the index of that size |
| `SlabModel.ClassesDiffer` | rt-thread/src/slab.c:401-459 | two requests have the same index if and only if they have the same size |
| `SlabModel.TakeOk` | rt-thread/src/slab.c:545-575 | handing out makes exactly one chunk live that was not; the free count is the unused chunks plus the free list |
| `SlabModel.GiveOk` | rt-thread/src/slab.c:839-848 | giving back makes exactly that chunk free |
| `SlabModel.PopNotEmpty` | rt-thread/src/slab.c:561-569 | the free list popped when all chunks have been used is not empty |
| `SlabModel.FullWhenNoneLive` | rt-thread/src/slab.c:862-866 | the free count is the number of chunks if and only if none is live |
| `SlabModel.NewZoneOk` | rt-thread/src/slab.c:628-650 | the zone set up is sound with its first chunk live, the first chunk of a power of two aligned within the zone |
| `SlabModel.ChunkAligned` | rt-thread/src/slab.c:628-635 | every chunk of a power of two is aligned to it if and only if its zone is |
| `SlabModel.ReturnsAligned` | rt-thread/src/slab.c:152-153 | what malloc returns for a power of two is aligned to it if and only if that is at most a page or the page at which the block or its zone begins is aligned |
| `SlabModel.ReturnsUnaligned` | rt-thread/src/slab.c:152-153 | a heap of 17000 pages, in which the first block of 8192 bytes is not aligned to 8192 |
| `SlabModel.LookupFindsZone` | rt-thread/src/slab.c:829-833 | the page table leads from a chunk to its zone, the only one it is in |
| `SlabModel.LookupKind` | rt-thread/src/slab.c:801-833 | the page table tells chunks from whole pages |
| `SlabModel.InitialOk` | rt-thread/src/slab.c:344-395 | the allocator that is set up satisfies the invariant |
| `SlabModel.MallocKeeps` | rt-thread/src/slab.c:478-667 | a zone is in the list of its index if and only if it has free chunks and is not idle; zones, page table and free pages agree; no page is lost |
| `SlabModel.MallocGives` | rt-thread/src/slab.c:478-667 | a new block, of the size of the class of the request or of as few whole pages as hold it, all other blocks as they were |
| `SlabModel.MallocFails` | rt-thread/src/slab.c:478-667 | fails if and only if nothing is asked for or neither a zone with free chunks, nor an idle one, nor enough consecutive pages are there |
| `SlabModel.FreeKeeps` | rt-thread/src/slab.c:771-904 | the same invariant after a release, with retiring a zone and giving its pages back |
| `SlabModel.FreeTakes` | rt-thread/src/slab.c:771-904 | exactly the block released is gone |
| `SlabModel.GivesUp` | rt-thread/src/slab.c:854-904 | a zone is given up if and only if its last live chunk comes back and another zone of its index has free chunks; it is kept idle, or its pages are freed if two are idle already |
| `SlabModel.FewIdle` | rt-thread/src/slab.c:873-895 | in every run no more than two zones are idle |
| `SlabModel.BlocksApart` | rt-thread/src/slab.c:478-904 | two blocks share no byte, chunks and whole pages alike |
| `SlabModel.RunsAreSafe` | rt-thread/src/slab.c:344-904 | after every history blocks are apart, free pages are not handed out, and free and handed-out pages are all pages behind the page table |
| `SlabModel.PowerTest` | rt-thread/src/slab.c:628-632 | the bit test holds exactly for powers of two |
| `Slabs.SlabHeap.constructor` | rt-thread/src/slab.c:344-395 | the bounds are rounded to pages, the zone size doubles up to a 2048th of the heap, and the page table takes the first pages |
| `Slabs.SlabHeap.Malloc` | rt-thread/src/slab.c:478-667 | refines the model |
| `Slabs.SlabHeap.TakeChunk` | rt-thread/src/slab.c:533-580 | refines handing out |
| `Slabs.SlabHeap.SetUpZone` | rt-thread/src/slab.c:620-658 | refines setting up a zone |
| `Slabs.SlabHeap.Free` | rt-thread/src/slab.c:771-904 | refines the model |
| `Slabs.SlabHeap.FreeChunk` | rt-thread/src/slab.c:829-904 | refines giving back, retiring and releasing |
| `Slabs.SlabHeap.RemoveZone` | rt-thread/src/slab.c:873-876 | the search in the zone list takes out exactly that zone |
| `KService.MemMove` | rt-thread/src/kservice.c:293-312 | the bytes at the destination are those that were at the source, however the areas overlap; no other byte changes |
| `RomfsModel.ImageReadsBack` | rt-thread/tools/mkromfs.py:162-241 | at every base, reading the image by its addresses gives the tree back: every name and data address leads to the padded name and the bytes of that child, with the right size; and a reader that also wants all these addresses aligned to two or four gets it if and only if the base is |
| `RomfsModel.ImagesDiffer` | rt-thread/tools/mkromfs.py:230-241 | different trees have different images |
| `RomfsModel.ReadsBack` | rt-thread/tools/mkromfs.py:162-211 | the same for any table of entries anywhere in memory |
| `RomfsModel.ImageFits` | rt-thread/tools/mkromfs.py:203-207 | no image that ends below 4 GB makes packing fail |
| `RomfsModel.PayloadAligned` | rt-thread/tools/mkromfs.py:191-209 | names and data of a folder are a multiple of four long |
| `Romfs.WriteNode` | rt-thread/tools/mkromfs.py:162-211 | the loop writes the recursive image, or fails exactly when a value to be packed is not a word |
| `Romfs.WriteImage` | rt-thread/tools/mkromfs.py:230-241 | the image with its root entry, or the same failure |

## Left out

- SMP: the code under `RT_USING_SMP`, `cpu.c`, spin locks and inter-processor interrupts.
- Signals (`signal.c`) and the EINTR retry in `rt_mutex_take`, which only they can reach.
- Memory pools (`mempool.c`): a timed-out waiter is not counted down there, and the free list adds nothing to the slots of the message queue.
- The soft-timer thread and `rt_soft_timer_check`.
- `rt_vsnprintf` and the other formatting and string functions, `rt_malloc_align`, `rt_free_align`, `rt_calloc`.
- `rt_realloc` of `slab.c`, which allocates, copies and frees by the calls that are modelled, and the `rt_malloc` of `memheap.c`, which tries several heaps in turn.
- Context switching, stacks, hooks, object names, logging, devices, idle cleanup, drivers, libraries and the other examples.
- What the functions assert of their callers (valid pointers, blocks in use, AND or OR given) is a precondition here.
- A thread is a row of a table, with an `armed` bit for its timer; `TimedWaits` ties the bit to the timer lists of the model, the classes do not. `event_set` and `event_info` of a thread are kept with the event it waits on.
- User code that resumes, suspends or deletes a thread blocked inside an IPC call is not part of the runs.
- A blocking call with the scheduler locked, or with no other thread to run, is not part of the runs: there is an idle thread and the scheduler is unlocked.
- The check of the state of a thread that `rt_thread_suspend` and `rt_thread_resume` make before disabling interrupts belongs to the same step here.
- Resets of a semaphore are modelled as a method, but are not actions of the runs of `SemaphoreModel`.
- Detaching and deleting IPC objects: they resume all waiters as a reset does and then unregister the object.
- MutexModel.PriorityInheritance: one mutex per thread and no change of priority from outside, because the priority to restore is remembered per mutex.
- BoundedBuffer.Delivers: the counters `set` and `get` stay below 2^32, and the delays between rounds are left out; each shared access is one step.
- TimerModel.InterruptedStart: a timer linked late has to be and to stay the first of the list, which `LateInTime` and `LateCall` make exact; the method `TimerLists.Start` and the runs take a start as one step. `rt_tick_set` is left out.
- The tick of `TimerLists.TickIncrease` leaves out the time slice, which `Scheduling.Scheduler.TickSlice` has.
- TimerModel.FiresOnTime: runs whose checks all end, as `PositiveRunsEnd` says of positive periods; starting a timer with a period of half the range or more, which the source asserts against, does nothing in a run.
- The counter mask of the skip list is its default 3; the number of rows is arbitrary.
- Header bytes and payload bytes of the heaps are kept apart: headers are fields by address, payload bytes an array; `SmallMemModel.BlocksApart` and `MemHeapModel.HeapStaysSound` say that no header lies in the bytes of a block.
- The separately locked sections of `rt_realloc` and of moving a block run one after the other, as for one caller.
- MemHeaps.MemHeap.Realloc: sizes that wrap are a precondition where a free block follows; `MemHeapModel.ReallocKeeps` says what happens then.
- SmallMems.SmallMem.Malloc: requests whose search does not end are a precondition; `SmallMemModel.MallocEnds` says which these are.
- Zone lists and the free lists of chunks in `slab.c` are sequences instead of chained words; the page list is chained.
- The gap in `rt_malloc` of `slab.c` between unlocking the heap and locking it again around the page allocator is not a point of interleaving.
- Statistics (`used_mem`, `max_mem`) of `slab.c`.
- Reading the tree from the file system, sorting it and the C source form of the image; non-ASCII names; the root folder's own name, which the image replaces by `/`.
- Names with a zero byte, which no file system has, are excluded from `RomfsModel.ImageReadsBack`.
- Scheduling.Scheduler.constructor: the kernel starts with one thread; choosing among several that were started before the scheduler is left out.
- Timers.TimerLists.Check: called when its loop ends, as `TimerModel.CheckBounded` and `CheckTerminates` say; so is `TickIncrease`.
- TimedWaits.TimesOutInItsTick: timeout functions do not wake or suspend threads inside the tick, and the gap between the two halves of a start is not interrupted, as the calls that wait start their timer with interrupts disabled.
- Slabs.SlabHeap.constructor: bounds with no whole page between them, with which the source prints a message and sets nothing up, are a precondition.

# Verified models of the RT-Thread kernel core

RT-Thread is a real-time operating system. This project models the parts of its kernel whose
correctness rests on invariants over every interleaving of operations, and two of its build tools,
and proves what their code and comments promise.

| file | subject |
|---|---|
| `MutexInheritance.dfy` | mutexes with ceilings and transitive priority inheritance: take, recursive take, block, release with hand-off, timeout, drop, ceiling change |
| `CpusLock.dfy` | the global CPU lock of the multiprocessor kernel as a protocol of steps on any number of CPUs, with interrupts and both kinds of context switch |
| `ReadyQueue.dfy`, `Bits.dfy`, `ReadyLists.dfy` | the uniprocessor scheduler with its two-level bitmap, and both find-first-set routines |
| `SmpScheduler.dfy` | the multiprocessor scheduler: shared and per-CPU ready tables, binding, yielding, switches on interrupt exit |
| `SmallMem.dfy` | the small-memory heap: first fit, splitting, joining, reallocation, bytes included |
| `MemHeap.dfy` | the memory heap: all blocks on one ring, free blocks on another, running counts, bytes included |
| `Slab.dfy`, `SlabPages.dfy`, `SizeClasses.dfy` | the slab allocator: page runs, zones, chunks, size classes, page table, bytes included |
| `TimerList.dfy` | the skip list of timers on a wrapping 32-bit tick, against a sorted list on an unbounded clock |
| `WaitList.dfy`, `Crowds.dfy`, `Mailbox.dfy`, `MessageQueue.dfy`, `Semaphore.dfy` | waiting protocols: wait lists, no lost wake-up, ring buffer and node lists, timeouts |
| `Romfs.dfy` | the builder of read-only file system images, with a reader for the round trip |
| `StackAnalysis.dfy` | the worst-case stack analyser over call graphs that may be cyclic |
| `Basics.dfy` | optional values and bytes |

Code that works in place is a class whose methods are proved against functions of the state; values
such as trees, lists of blocks and protocol states are datatypes. A method's `View()` or ghost fields
give the abstract state, and lemmas about that state carry the main results. Intrusive lists are
sequences where only their order matters, and linked fields where the linking is the point
(`SmallMem`, `MemHeap`, `MessageQueue`).

The whole project is verified with `dafny verify dfyconfig.toml`.

## Where the code falls short of what it promises

Each of these is proved. Where the outcome depends on the input, the condition under which the code
does what is expected is proved with it, as an if-and-only-if.

- A mutex handed to its first waiter does not raise that thread to the ceiling (`HandOff`, `Release`,
  `CeilingSkipped`).
- The clean-up of a timed-out waiter compares live priorities; run late, it can leave the owner with a
  priority nothing justifies (`CleanUp`, `LateCleanUp`).
- On one processor a yield swaps only the two threads at the front (`RoundRobin`, `ThirdStarves`).
- On several, two threads bound to a CPU that yield to each other shut out unbound equals there;
  otherwise yielding is fair (`FairTurns`, `CrowdedOut`).
- A request within an alignment of the largest size wraps to a least block in the small heap and the
  memory heap (`AllocCovers`, `RequestWrapped`; `RequestCovered`, `RequestShort`). Reallocating a block
  to such a size frees it (`ReallocFrees`, `ReallocWrapped`), and reallocation to no more than a block
  holds can fail (`ShrinkFails`, `ShrinkRefused`).
- The memory heap refuses a request for all the bytes it has although a block fits (`FittingRefused`,
  `AllRefused`).
- Its test for growing in place wraps near the largest sizes, and reads the size of the next block
  through a signed 32-bit integer (`GrowthExact`, `AgreesIs`, `RoomExact`). It can agree without room
  (`OverrunExact`): on 32 bits `GrowsWithoutRoom`, on 64 bits `GrowsIntoNothing`. On 64 bits it can also
  overlook room (`RoomOverlooked`).
- Chunks of a power-of-two size lie at multiples of it in memory only if their zone does, which is
  certain only up to the page size (`LiveAligned`, `MisalignedChunk`).
- A periodic timer with period zero that is due keeps the timer check busy for ever (`EndsExactly`,
  `ZeroPeriodNeverEnds`).
- An urgent message keeps whatever priority its node last had, and in priority mode can leave the queue
  out of order (`UrgentOrder`, `UrgentEnd`, `OutOfOrder`).
- Image names are padded by characters, not bytes, so names beyond ASCII can misalign what follows
  (`AlignedTree`, `MisalignedName`).

## Model

| member | source | states |
|---|---|---|
| `MutexInheritance.TransitiveInheritance` | rt-thread/src/ipc.c:792-845 | with all ceilings 0xFF and no deadlock, a thread runs at exactly the most urgent `init_priority` among itself and all threads blocked behind it through chains of any length, and some such thread is the source |
| `MutexInheritance.OwnerDominates` | rt-thread/src/ipc.c:792-845 | the thread at the end of a wait chain of any length, cyclic graphs included, is at least as urgent as every thread on the chain |
| `MutexInheritance.ExactPriority` | rt-thread/src/ipc.c:769-789 | while no hand-off has skipped a ceiling, `current_priority` is exactly the minimum of `init_priority` and of every held mutex's waiters and ceiling |
| `MutexInheritance.Source` | rt-thread/src/ipc.c:792-845 | following the waiters that justify a boosted priority always ends, and ends in a thread whose own priority it is |
| `MutexInheritance.Lender` | rt-thread/src/ipc.c:751-789 | a thread more urgent than it was made has a waiter on one of its mutexes that is exactly as urgent |
| `MutexInheritance.BehindTransitive` | rt-thread/src/ipc.c:792-845 | being blocked behind a thread, at any distance, is transitive |
| `MutexInheritance.FitsTake` | rt-thread/src/ipc.c:1227-1235 | a thread that fits its mutexes still fits with one more if it adopts the ceiling; without the ceiling only the upper bound survives, exactly when the ceiling is more urgent |
| `MutexInheritance.FitsDrop` | rt-thread/src/ipc.c:1468-1484 | giving up a mutex without a ceiling whose waiters do not determine the priority needs no change of priority |
| `MutexInheritance.TotalMoves` | rt-thread/src/ipc.c:819-842 | changing one priority changes the sum of all priorities by the difference: the measure by which a boosting walk ends even on a cycle |
| `MutexInheritance.Kernel.constructor` | rt-thread/src/ipc.c:875-915 | initialised threads and free mutexes satisfy the whole invariant exactly |
| `MutexInheritance.Kernel.GetMutexPriority` | rt-thread/src/ipc.c:769-789 | the loop over the taken list returns the most urgent claim on the thread and no more than some claim justifies |
| `MutexInheritance.Kernel.MutexUpdatePriority` | rt-thread/src/ipc.c:751-766 | the cached priority becomes the first waiter's, or 0xFF for no waiter |
| `MutexInheritance.Kernel.ListInsert` | rt-thread/src/ipc.c:131-187 | the new waiter goes behind all at least as urgent and before all less urgent, the others in their order; order is kept and the head is the minimum |
| `MutexInheritance.Kernel.LineUp` | rt-thread/src/ipc.c:131-187 | a thread joins a wait list in its place, behind its equals |
| `MutexInheritance.StaysAhead` | rt-thread/src/ipc.c:131-187 | whoever waits and is no less urgent stays ahead of a thread that joins |
| `MutexInheritance.OrderKept` | rt-thread/src/ipc.c:131-187 | no two waiters change places when another joins |
| `MutexInheritance.EqualsInTurn` | rt-thread/src/ipc.c:1175-1543 | a run: two threads of one priority wait for a mutex and get it in the order in which they came |
| `MutexInheritance.Kernel.Requeue` | rt-thread/src/ipc.c:806-818 | a waiter whose priority changed is filed again: the others keep their order, it goes behind its equals, the cache is right and moves in the same direction as the priority |
| `MutexInheritance.Kernel.Resettle` | rt-thread/src/ipc.c:806-822 | after re-filing, at most the owner of that mutex is off its bounds |
| `MutexInheritance.Kernel.WalkStep` | rt-thread/src/ipc.c:803-843 | one turn of the inheritance walk: either everything is valid, or the owner alone is displaced, the sum of priorities moved by its change, and when boosting it fell |
| `MutexInheritance.Kernel.UpdatePriority` | rt-thread/src/ipc.c:792-845 | the walk terminates on every wait graph and restores the whole invariant; it changes only the start thread and threads it waits for, disturbs only wait lists on the way, and a boost makes nobody less urgent |
| `MutexInheritance.Kernel.Control` | rt-thread/src/thread.c:843-893 | the priority change, with its effect on the sum of all priorities |
| `MutexInheritance.Kernel.ChangePriority` | rt-thread/src/thread.c:843-893 | a fitting new priority leaves only this thread's place in its wait list to be repaired |
| `MutexInheritance.Kernel.TakeFree` | rt-thread/src/ipc.c:1219-1236 | taking a free mutex keeps the invariant; only the taker changes, to the ceiling if that is more urgent |
| `MutexInheritance.Kernel.Block` | rt-thread/src/ipc.c:1250-1292 | blocking keeps the invariant, makes nobody less urgent and touches only threads the wait depends on; unless the owner waits behind the thread or behind itself, the thread stands behind its equals in the list and the others as before |
| `MutexInheritance.Kernel.PassOn` | rt-thread/src/ipc.c:1271-1280 | after queueing, the owner's chain is boosted until the invariant holds again, and unless the owner is behind itself the new waiter keeps its place |
| `MutexInheritance.Kernel.Take` | rt-thread/src/ipc.c:1175-1294 | each outcome (again, first, full, timeout, blocked) happens exactly under its condition, with its error code, and changes exactly what it should; a blocked thread stands behind its equals unless the owner waits behind it or behind itself; failures change nothing; the invariant is kept |
| `MutexInheritance.Kernel.GiveUp` | rt-thread/src/ipc.c:1463-1484 | the last hold given back: the thread falls back to what it still holds exactly when this mutex or its ceiling was what made it urgent |
| `MutexInheritance.Kernel.HandOff` | rt-thread/src/ipc.c:1486-1526 | the first waiter becomes owner with one hold and is not raised to the ceiling: it has all it is entitled to afterwards if and only if it had before and is at least as urgent as the ceiling |
| `MutexInheritance.CeilingSkipped` | rt-thread/src/ipc.c:1486-1526 | a run of the model: a mutex with ceiling 5 is handed to a waiter of priority 20, which runs on at 20 although it is entitled to 5 |
| `MutexInheritance.Kernel.Clear` | rt-thread/src/ipc.c:1527-1532 | a release without waiters leaves a free mutex with cache 0xFF and the invariant |
| `MutexInheritance.Kernel.Release` | rt-thread/src/ipc.c:1426-1543 | not owner, inner release, free and hand-off cases, what each changes, the ceiling gap as an if-and-only-if, and that nobody else is touched; the invariant is kept |
| `MutexInheritance.Kernel.ReleaseLast` | rt-thread/src/ipc.c:1463-1532 | the same for the last hold: free or handed on |
| `MutexInheritance.Kernel.Leave` | rt-thread/src/thread.c:131-160 | a timed-out waiter leaves the list; only the cache and the owner are stale |
| `MutexInheritance.Kernel.CleanUp` | rt-thread/src/ipc.c:1307-1349 | the clean-up of a timed-out waiter restores the invariant unless its guard on live priorities overlooks the owner; then nothing but the cache changes, and the state is valid if and only if, before the call, the owner's own priority, the first remaining waiter, this mutex's ceiling or another mutex it holds made it as urgent; only wait lists on the way from the owner are disturbed |
| `MutexInheritance.ReasonIs` | rt-thread/src/ipc.c:769-789 | what justifies the owner once the cache is refreshed, in terms of the remaining waiters, the ceiling and its other mutexes |
| `MutexInheritance.Kernel.DropThread` | rt-thread/src/ipc.c:952-997 | taking a waiter out at once restores the whole invariant; the others keep their places and priorities but on the way from the owner |
| `MutexInheritance.Kernel.Expire` | rt-thread/src/thread.c:131-160 | timeout and its clean-up as one step keep the invariant and report the timeout |
| `MutexInheritance.Kernel.Delete` | rt-thread/src/thread.c:532-570 | deleting a thread that waits for a mutex keeps the invariant and takes it out of the wait list |
| `MutexInheritance.Kernel.SetPrioCeiling` | rt-thread/src/ipc.c:1008-1032 | setting a ceiling keeps the invariant, returns the old one, refuses values out of range and touches only the owner and threads it waits for |
| `MutexInheritance.LateCleanUp` | rt-thread/src/ipc.c:1307-1349 | a state, with one more boost between a timeout and its clean-up, from which the clean-up leaves the owner with a priority nothing justifies, so exactness cannot be claimed for late clean-ups |
| `CpusLock.StepInv` | rt-thread/src/cpu.c:24-262 | every step of every CPU, interrupts and both context switches included, keeps the invariant of lock holder and nest counters; the interrupt-saving spin wrappers take a step for the preempt count and one for the interrupt level, as they do |
| `CpusLock.RunInv` | rt-thread/src/cpu.c:195-262 | the invariant holds after every run from boot |
| `CpusLock.LockIsCounted` | rt-thread/src/cpu.c:195-240 | in every reachable state a CPU holds `_cpus_lock` if and only if its current thread counts it, and then no other does |
| `CpusLock.SchedulerLockAddsUp` | rt-thread/src/scheduler_mp.c:660-744 | in every reachable state `scheduler_lock_nest` is one if the thread counts the CPU lock, plus its critical nest, plus its open spin sections; a thread that does not run has none of the last two |
| `CpusLock.CountersCount` | rt-thread/src/cpu.c:24-262 | counted from the steps of any run: the open spin sections of a thread are the spin locks it took less those it gave back, its critical nest the entries that got the lock less the exits, and `cpus_lock_nest` all sections it began and did not end |
| `CpusLock.NeverInside` | rt-thread/src/scheduler_mp.c:309-330 | in no run is a thread switched out that has taken a spin lock or entered a critical section more often than it has left one |
| `CpusLock.LevelGivenBack` | rt-thread/src/cpu.c:24-262 | in every reachable state interrupts are off on a CPU exactly while its thread has a section open, waits for the lock, or a handler runs: each section gives back the level it found |
| `CpusLock.SwitchAsked` | rt-thread/src/scheduler_mp.c:403-440 | in every run the switch on the way out of a handler is made only if one was asked for since the last |
| `CpusLock.HandlerGivesBack` | rt-thread/src/scheduler_mp.c:403-502 | a handler that ends leaves the counters and sections of the thread as it found them |
| `CpusLock.SwitchPassesLock` | rt-thread/src/cpu.c:250-262 | at every context switch of every run the lock passes to the next thread exactly if that one is parked inside `rt_schedule`, with the interrupt state to match, and its counters are untouched |
| `CpusLock.HandedOver` | rt-thread/src/cpu.c:195-262 | such runs exist: one CPU spins while the other holds the lock, switches away from its holder, which stays parked with its count, and then gets it |
| `CpusLock.SwitchOutside` | rt-thread/src/scheduler_mp.c:309-330 | no thread is switched out inside a critical or spin section, and the switching CPU holds the lock |
| `CpusLock.SwitchInv` | rt-thread/src/scheduler_mp.c:330-390 | the switch of `rt_schedule` keeps the invariant |
| `CpusLock.IrqSwitchInv` | rt-thread/src/scheduler_mp.c:439-497 | the switch on return from an interrupt keeps the invariant |
| `CpusLock.AssertionsHold` | rt-thread/src/cpu.c:224-240 | what the code asserts before unlocking can never fail |
| `CpusLock.ClampIdle` | rt-thread/src/scheduler_mp.c:704-735 | the clamp against a negative nest count at the end of `rt_exit_critical` never acts |
| `CpusLock.EndCriticalInv` | rt-thread/src/scheduler_mp.c:704-744 | leaving a critical section keeps the invariant |
| `CpusLock.HolderMoves` | rt-thread/src/cpu.c:195-216 | a CPU never waits for a CPU that waits itself |
| `CpusLock.HolderIsCpu` | rt-thread/src/cpu.c:195-240 | only CPUs that exist ever hold the lock |
| `CpusLock.ParkedKept` | rt-thread/src/scheduler_mp.c:270-502 | counters of a thread that does not run are not touched by any step |
| `CpusLock.RestoreResult` | rt-thread/src/cpu.c:250-262 | restoring the lock state for the next thread keeps or drops the spin lock by that thread's own counter |
| `Bits.Ffs` | rt-thread/src/kservice.c:1993-2016 | for every 32-bit word the byte-wise search returns one more than the index of the least set bit, and zero only for zero |
| `Bits.TinyFfs` | rt-thread/src/kservice.c:1956-1959 | the table look-up modulo 37 agrees with the byte-wise form on every 32-bit word |
| `Bits.TableLookup` | rt-thread/src/kservice.c:1965-1985 | each of the 255 table entries is the least set bit of its index |
| `Bits.WordBytes` | rt-thread/src/kservice.c:1993-2016 | the least bit of a word is found in its first nonzero byte |
| `Bits.TinyTable` | rt-thread/src/kservice.c:1940-1959 | powers of two below 2^32 index distinct entries modulo 37, each with the right number |
| `Bits.TinyDoubles` | rt-thread/src/kservice.c:1940-1952 | entries follow one another along doubling modulo 37 |
| `Bits.LowestIsolated` | rt-thread/src/kservice.c:1956-1959 | `(v & (v - 1)) ^ v` is the least set bit alone |
| `Bits.LeastBitIsLeast` | rt-thread/src/kservice.c:1993-2016 | the reference definition: the bit is set and none below is |
| `Bits.SetBit` | rt-thread/src/scheduler_up.c:385-392 | setting a bit changes that bit only and stays in the word |
| `Bits.ClearBit` | rt-thread/src/scheduler_up.c:425-436 | clearing a bit with a 32-bit complement changes that bit only |
| `ReadyQueue.NothingReady` | rt-thread/src/scheduler_up.c:145-167 | the group word is zero exactly when all lists are empty |
| `ReadyQueue.FirstList` | rt-thread/src/scheduler_up.c:145-167 | two find-first-set steps lead to the most urgent nonempty list |
| `ReadyQueue.MarkNonempty` | rt-thread/src/scheduler_up.c:385-392 | marking a list keeps both bitmap levels in step with the lists |
| `ReadyQueue.MarkEmpty` | rt-thread/src/scheduler_up.c:425-436 | emptying a list clears its bit, and the group bit exactly when its byte becomes zero |
| `ReadyQueue.Unmark` | rt-thread/src/scheduler_up.c:411-441 | the same in terms of the masks kept in the thread |
| `ReadyQueue.ScheduledConsistent` | rt-thread/src/scheduler_up.c:228-349 | a scheduling decision keeps every ready thread in exactly its list, one running thread, and masks right |
| `ReadyQueue.MostUrgentRuns` | rt-thread/src/scheduler_up.c:238-342 | after an unlocked decision the current thread runs and no ready thread is more urgent |
| `ReadyQueue.Decision` | rt-thread/src/scheduler_up.c:228-349 | one decision in full: the running thread goes on exactly if nothing is more urgent and, if it yields, nothing as urgent; else the head of the most urgent list takes over, and the thread displaced stands first in its list; the yield mark is used up if anything is ready; nothing else changes |
| `ReadyQueue.PreemptedReturns` | rt-thread/src/scheduler_up.c:255-342 | a thread preempted without having yielded runs before any of its waiting equals once what preempted it sleeps |
| `ReadyQueue.YieldSwaps` | rt-thread/src/scheduler_up.c:255-280 | a yield swaps the running thread with the first of its equals only, since the mark is cleared before the insertion tests it |
| `ReadyQueue.OnlyTwoRun` | rt-thread/src/scheduler_up.c:255-280 | n yields in a row, each a decision of the scheduler: the thread that runs is one of the two at the front, by the parity of n |
| `ReadyQueue.RoundRobin` | rt-thread/src/scheduler_up.c:255-280 | while nothing more urgent is ready, repeated yields give every waiting equal its turn if and only if there is at most one of them |
| `ReadyQueue.ThirdStarves` | rt-thread/src/scheduler_up.c:255-280 | with two equals waiting or more, all but the first never run, however often the running thread yields |
| `ReadyQueue.YieldRunIs` | rt-thread/src/scheduler_up.c:228-349 | n yields of the scheduler leave at the top exactly what n swaps of the running thread with the first of its equals do |
| `ReadyQueue.CrowdedOut` | rt-thread/src/scheduler_up.c:255-280 | three ready threads of one priority, of which the third never runs |
| `ReadyQueue.RepriorizedFiled` | rt-thread/src/thread.c:843-893 | a ready thread whose priority changes moves to the new list with its masks rederived |
| `ReadyQueue.StartedFiled` | rt-thread/src/thread.c:378-407 | a thread that is started stands before its equals, ready, without a yield mark and with its masks set; nothing else changes |
| `ReadyQueue.Scheduler.constructor` | rt-thread/src/scheduler_up.c:172-190 | empty lists and bitmaps that agree, no thread started or marked as yielding |
| `ReadyQueue.Scheduler.GetHighest` | rt-thread/src/scheduler_up.c:145-167 | the thread found is the first of the least nonempty priority, by a search through all lists |
| `ReadyQueue.Scheduler.Insert` | rt-thread/src/scheduler_up.c:359-402 | state, list end by yield mark, and both bitmap levels |
| `ReadyQueue.Scheduler.Remove` | rt-thread/src/scheduler_up.c:411-441 | the thread leaves its list, present or not, and the bitmaps agree |
| `ReadyQueue.Scheduler.Schedule` | rt-thread/src/scheduler_up.c:228-349 | equals the specified decision when unlocked and does nothing when locked; the invariant is kept |
| `ReadyQueue.Scheduler.Decide` | rt-thread/src/scheduler_up.c:238-342 | the comparison and switch equal the specified decision |
| `ReadyQueue.Scheduler.Start` | rt-thread/src/scheduler_up.c:198-215 | the head of the most urgent list leaves it and runs, without a yield mark; nothing else changes |
| `ReadyQueue.Scheduler.Yield` | rt-thread/src/thread.c:588-601 | the yield mark is set and a decision follows |
| `ReadyQueue.Scheduler.SuspendSelf` | rt-thread/src/thread.c:982-1029 | only a running current thread suspends, and the lists are untouched |
| `ReadyQueue.Scheduler.Resume` | rt-thread/src/thread.c:1046-1084 | exactly suspended threads are inserted again |
| `ReadyQueue.Scheduler.Startup` | rt-thread/src/thread.c:378-407 | masks are derived, the thread is queued, and a decision follows once threads run |
| `ReadyQueue.Scheduler.Detach` | rt-thread/src/thread.c:419-470 | a ready thread leaves its list, any other only its state |
| `ReadyQueue.Scheduler.ChangePriority` | rt-thread/src/thread.c:843-893 | a ready thread moves between lists, any other only its masks |
| `ReadyQueue.Scheduler.EnterCritical` | rt-thread/src/scheduler_up.c:446-461 | one level deeper, nothing else |
| `ReadyQueue.Scheduler.ExitCritical` | rt-thread/src/scheduler_up.c:467-492 | the last level schedules, one too many is forgiven |
| `SmpScheduler.HighestIsFirst` | rt-thread/src/scheduler_mp.c:143-177 | the word search agrees with the first nonempty list, and an empty word compares as less urgent than all |
| `SmpScheduler.OnePlace` | rt-thread/src/scheduler_mp.c:512-655 | every started, unsuspended thread is current on one CPU, or in the shared table, or in its own CPU's table, and in one of these only |
| `SmpScheduler.ScheduledConsistent` | rt-thread/src/scheduler_mp.c:309-368 | a decision on one CPU keeps lists, thread states and all CPUs in step |
| `SmpScheduler.SwitchSeated` | rt-thread/src/scheduler_mp.c:330-368 | the thread switched to was current nowhere and now is on exactly this CPU |
| `SmpScheduler.MostUrgentRuns` | rt-thread/src/scheduler_mp.c:309-368 | after a decision nothing in the shared table or the CPU's own is more urgent than its current thread |
| `SmpScheduler.Decision` | rt-thread/src/scheduler_mp.c:309-368 | one decision in full: the running thread goes on exactly if it may run there, nothing is more urgent and, if it yields, nothing as urgent; else the head of the list served takes over, and the thread displaced is queued where it is bound, last if it has yielded, first if it was preempted; nothing else changes |
| `SmpScheduler.NobodyElse` | rt-thread/src/scheduler_mp.c:309-368 | with nothing ready that the CPU may run a decision changes nothing, not even the yield mark |
| `SmpScheduler.HeadRuns` | rt-thread/src/scheduler_mp.c:143-177 | with the current thread asleep the head of the list served runs next, the own list before the shared one among equals |
| `SmpScheduler.PreemptedReturns` | rt-thread/src/scheduler_mp.c:309-368 | a thread preempted without having yielded runs before any of its waiting equals of the same table once what preempted it sleeps |
| `SmpScheduler.RefiledAt` | rt-thread/src/scheduler_mp.c:512-655 | a ready thread with a new priority or binding leaves its list and stands first in the new one, or last if it has yielded; all others keep their order |
| `SmpScheduler.StartedFiled` | rt-thread/src/thread.c:378-407 | a thread that is started stands before its equals where it is bound, ready, without a yield mark and with its mask set; nothing else changes |
| `SmpScheduler.YieldBehind` | rt-thread/src/scheduler_mp.c:309-368 | a yielding thread goes behind all its equals in its place, the one that takes over was at the head, and no other list changes |
| `SmpScheduler.TakesTurns` | rt-thread/src/scheduler_mp.c:309-368 | with all equals in one table, after n yields of the scheduler the n-th in the circle runs, and the others wait in circular order |
| `SmpScheduler.FairTurns` | rt-thread/src/scheduler_mp.c:309-368 | while nothing more urgent is ready, repeated yields on a CPU run every equal waiting for it, in its own table or the shared one, if and only if no unbound one waits or at most one, the running one counted, is bound to the CPU; and then within twice as many yields as there are equals |
| `SmpScheduler.BoundShutOutUnbound` | rt-thread/src/scheduler_mp.c:143-177 | while two equals bound to a CPU yield to each other, no number of yields moves the shared list there |
| `SmpScheduler.YieldRunIs` | rt-thread/src/scheduler_mp.c:309-368 | n yields of the scheduler: who runs and who waits at this priority, in both tables, is what n steps of the abstract circle give, and nothing more urgent appears |
| `SmpScheduler.ShutOut` | rt-thread/src/scheduler_mp.c:143-177 | with two equals bound to the CPU, no unbound one that waits ever runs there by yielding |
| `SmpScheduler.CrowdedOut` | rt-thread/src/scheduler_mp.c:143-177 | such a world: two bound threads yield to each other on a CPU while an unbound equal waits in the shared table and never runs |
| `SmpScheduler.Scheduler.EnterInterrupt` | rt-thread/src/irq.c:84-97 | one level deeper on this CPU, nothing else |
| `SmpScheduler.Scheduler.LeaveInterrupt` | rt-thread/src/irq.c:105-118 | one level back, nothing else |
| `SmpScheduler.Scheduler.constructor` | rt-thread/src/scheduler_mp.c:182-220 | no thread queued or marked as yielding, no CPU started |
| `SmpScheduler.Scheduler.GetHighest` | rt-thread/src/scheduler_mp.c:143-177 | the first thread of the most urgent list of the two tables, the shared one first among equals |
| `SmpScheduler.Scheduler.Insert` | rt-thread/src/scheduler_mp.c:512-596 | a thread still on a CPU goes on running; else it is queued where it is bound and the word agrees |
| `SmpScheduler.Scheduler.Remove` | rt-thread/src/scheduler_mp.c:605-655 | the thread leaves its list, present or not, and the word agrees |
| `SmpScheduler.Scheduler.Schedule` | rt-thread/src/scheduler_mp.c:270-396 | inside a handler only a switch is requested; else the decision of `Decision` when unlocked |
| `SmpScheduler.Scheduler.DoIrqSwitch` | rt-thread/src/scheduler_mp.c:403-502 | a requested switch is made exactly when unlocked and out of all handlers, and the request is then cleared |
| `SmpScheduler.Scheduler.SwitchIfNeeded` | rt-thread/src/scheduler_mp.c:309-368 | the common part equals the decision characterised by `Decision` |
| `SmpScheduler.Scheduler.Decide` | rt-thread/src/scheduler_mp.c:320-368 | comparison and switch equal the decision characterised by `Decision` |
| `SmpScheduler.Scheduler.Requeue` | rt-thread/src/scheduler_mp.c:335-350 | a displaced thread is inserted before its yield mark is cleared |
| `SmpScheduler.Scheduler.TakeOver` | rt-thread/src/scheduler_mp.c:350-368 | the next thread leaves its list and becomes current |
| `SmpScheduler.Scheduler.Yield` | rt-thread/src/thread.c:588-601 | mark and decision |
| `SmpScheduler.Scheduler.SuspendSelf` | rt-thread/src/thread.c:982-1029 | only a running thread suspends; it stays current until the next decision |
| `SmpScheduler.Scheduler.Resume` | rt-thread/src/thread.c:1046-1084 | exactly suspended threads come back, to their CPU if they have not left it |
| `SmpScheduler.Scheduler.Startup` | rt-thread/src/thread.c:378-407 | the thread is queued where it is bound; a decision follows on a started CPU |
| `SmpScheduler.Scheduler.BindCpu` | rt-thread/src/thread.c:764-820 | a ready thread moves to the table of its CPU; a decision follows when its place may have become wrong |
| `SmpScheduler.Scheduler.ChangePriority` | rt-thread/src/thread.c:843-893 | a ready thread moves between lists of its place |
| `SmpScheduler.Scheduler.Start` | rt-thread/src/scheduler_mp.c:226-242 | the head of the list that is served first leaves it and runs on the CPU, without a yield mark; nothing else changes |
| `SmallMem.AlignIs` | rt-thread/src/mem.c:310-316 | `RT_ALIGN` rounds up to a multiple unless its addition wraps, and then gives zero |
| `SmallMem.RoundCovers` | rt-thread/src/mem.c:310-322 | a request is rounded to at least its own size if and only if the addition does not wrap, and by less than an alignment beyond it or the least size |
| `SmallMem.TakenSize` | rt-thread/src/mem.c:328-375 | a block is cut exactly if a header and a least payload fit behind; so no block taken has room for another one, and everything before and behind is as it was |
| `SmallMem.AllocCovers` | rt-thread/src/mem.c:310-400 | a successful allocation holds the bytes asked for if and only if rounding does not wrap: a request within an alignment of the largest size gets a least block |
| `SmallMem.RequestWrapped` | rt-thread/src/mem.c:310-400 | a heap of 40 bytes in which a request of 0xFFFFFFFE bytes is granted 12 |
| `SmallMem.RunOrdered` | rt-thread/src/mem.c:128-166 | blocks lie end to end over the whole heap, in order, none overlapping |
| `SmallMem.SpliceRun` | rt-thread/src/mem.c:128-166 | replacing blocks by others over the same bytes keeps the heap tiled |
| `SmallMem.TakenRow` | rt-thread/src/mem.c:337-389 | an allocation keeps the heap tiled and aligned |
| `SmallMem.TakenSeparated` | rt-thread/src/mem.c:337-389 | an allocation leaves no two free neighbours |
| `SmallMem.TakenUsed` | rt-thread/src/mem.c:350-372 | the used count grows by the block taken |
| `SmallMem.PluggedRow` | rt-thread/src/mem.c:128-166 | joining keeps the heap tiled and the used bytes |
| `SmallMem.PluggedSeparated` | rt-thread/src/mem.c:128-166 | after joining around a freed block no two free blocks are neighbours |
| `SmallMem.ReleasedRow` | rt-thread/src/mem.c:543-557 | a release keeps the heap tiled, separated, and the used bytes fall by the block |
| `SmallMem.ShrunkRow` | rt-thread/src/mem.c:457-485 | shrinking keeps the heap tiled, separated, and the used bytes exact |
| `SmallMem.FreeUndoesAlloc` | rt-thread/src/mem.c:280-558 | freeing right after an allocation restores the heap exactly |
| `SmallMem.SpliceThreaded` | rt-thread/src/mem.c:128-166 | headers stay right around any replaced stretch of blocks |
| `SmallMem.PayloadsKept` | rt-thread/src/mem.c:128-166 | writes under headers change no payload byte |
| `SmallMem.ShrinkFails` | rt-thread/src/mem.c:457-505 | asking for no more than the block has fails if and only if the rest is too small to give back and no free block fits |
| `SmallMem.ShrinkRefused` | rt-thread/src/mem.c:457-505 | a full heap of one block of 40 bytes: asking to cut it down to 24 fails |
| `SmallMem.ReallocFrees` | rt-thread/src/mem.c:431-448 | reallocating a block in use frees it and returns null if and only if the size is zero or within an alignment of the largest |
| `SmallMem.ReallocWrapped` | rt-thread/src/mem.c:431-448 | a full heap of 40 bytes: reallocating its block to 0xFFFFFFFE bytes frees it |
| `SmallMem.Heap.constructor` | rt-thread/src/mem.c:179-262 | one free block, the used stub, and counts of zero |
| `SmallMem.Heap.PlugHoles` | rt-thread/src/mem.c:128-166 | both neighbours are joined if free, links and `lfree` stay right, only header bytes change |
| `SmallMem.Heap.PlugBehind` | rt-thread/src/mem.c:128-150 | the forward half |
| `SmallMem.Heap.PlugBefore` | rt-thread/src/mem.c:152-165 | the backward half |
| `SmallMem.Heap.Find` | rt-thread/src/mem.c:328-345 | the search from `lfree` finds the lowest free block that fits, by a search through all blocks, or there is none |
| `SmallMem.Heap.Alloc` | rt-thread/src/mem.c:280-408 | null exactly when no free block fits, with nothing changed; else the lowest fit, of the size asked for and without room for another block, counts and peak exact, every payload byte untouched |
| `SmallMem.Heap.Split` | rt-thread/src/mem.c:346-375 | a block is cut in two by three header writes: the links are right again, and no byte outside headers changes |
| `SmallMem.Heap.Join` | rt-thread/src/mem.c:128-165 | two free neighbours become one, likewise |
| `SmallMem.Heap.Carve` | rt-thread/src/mem.c:346-400 | the block is cut or taken, marked, counted, and `lfree` is again the lowest free block |
| `SmallMem.Heap.CutOrKeep` | rt-thread/src/mem.c:346-375 | cut exactly when a header and a least payload fit behind |
| `SmallMem.Heap.Advance` | rt-thread/src/mem.c:383-393 | `lfree` moves to the lowest free block |
| `SmallMem.Heap.Free` | rt-thread/src/mem.c:516-558 | the block is released and joined; no payload byte of any block changes |
| `SmallMem.Heap.Realloc` | rt-thread/src/mem.c:422-507 | each case (too large, zero, null, same, shrink, move, no room) exactly, the first min(old, new) bytes kept, no other used block's bytes changed, and the peak of used bytes exact: a move counts both blocks |
| `SmallMem.Heap.Resize` | rt-thread/src/mem.c:450-507 | the live cases |
| `SmallMem.Heap.Move` | rt-thread/src/mem.c:488-505 | allocate, copy, free: contents kept, others untouched, or nothing changed |
| `SmallMem.Heap.Shrink` | rt-thread/src/mem.c:457-486 | the end of the block is given back and joined |
| `MemHeap.RingInsert` | rt-thread/src/memheap.c:248-275 | inserting into a doubly linked ring puts the node behind the given one and keeps both directions right |
| `MemHeap.RingRemove` | rt-thread/src/memheap.c:46-54 | unlinking keeps both directions right for all others |
| `MemHeap.FreeSplice` | rt-thread/src/memheap.c:204-309 | the set of free blocks after any replacement is exactly the old one without the blocks replaced and with the new ones |
| `MemHeap.SpareSplice` | rt-thread/src/memheap.c:204-309 | and so is the sum of free payload bytes |
| `MemHeap.HeaderSays` | rt-thread/src/memheap.c:91-144 | each header's links and mark say what the sequence of blocks says, the tail closing the ring |
| `MemHeap.FittingRefused` | rt-thread/src/memheap.c:204-232 | a request for all the bytes available is refused although a block fits, if and only if that block is exactly as large and holds everything available |
| `MemHeap.GrowthExact` | rt-thread/src/memheap.c:417-432 | the in-place test, with the next size read through a signed 32-bit integer and a right side that wraps, agrees with the real room if and only if its right side wraps and it says no, or does not wrap and what it sees is on the same side of it as the true sum |
| `MemHeap.AgreesIs` | rt-thread/src/memheap.c:417-432 | the same condition on the sizes: right for a next block under 2^31 bytes unless the right side wraps and the test says yes; for a larger one, which sizes asked for are judged wrongly |
| `MemHeap.SeenIs` | rt-thread/src/memheap.c:417-432 | the test adds up the true sizes if and only if the next one is below 2^31 or within 2^31 of the largest, hence always where sizes have 32 bits; what it sees otherwise |
| `MemHeap.RoomExact` | rt-thread/src/memheap.c:417-432 | in any heap of any size type, a block is let grow in place just where a free block behind it has room for the rest and a least block if and only if no free block follows or the test is not led astray |
| `MemHeap.OverrunExact` | rt-thread/src/memheap.c:417-432 | when exactly the test agrees although there is no room: the right side wraps and the test sees more than is left of it, or the next size is so negative in 32 bits that the sum wraps and passes for room |
| `MemHeap.GrowsWithoutRoom` | rt-thread/src/memheap.c:431-484 | with 32-bit sizes, a pool of 200 bytes in which a block of 40 bytes is let grow to 0xFFFFFFFC bytes, the new header falling into its own |
| `MemHeap.GrowsIntoNothing` | rt-thread/src/memheap.c:417-484 | with 64-bit sizes, a block of 40 bytes before 2^31 free bytes is let grow to 2^33 bytes |
| `MemHeap.RoomOverlooked` | rt-thread/src/memheap.c:417-432 | with 64-bit sizes, the same block before 2^32 + 104 free bytes is not let grow to 1000 bytes |
| `MemHeap.AllRefused` | rt-thread/src/memheap.c:204-232 | a pool with one free block of 100 bytes refuses 100 bytes |
| `MemHeap.RequestCovered` | rt-thread/src/memheap.c:192-240 | a successful allocation holds the bytes asked for if and only if rounding does not wrap |
| `MemHeap.RequestShort` | rt-thread/src/memheap.c:192-240 | a pool with 100 free bytes in which a request of 0xFFFFFFFE bytes is granted a least block of 12 |
| `MemHeap.FreedIs` | rt-thread/src/memheap.c:642-690 | joining left first and then right gives the same blocks as right first and then left |
| `MemHeap.ResizedSize` | rt-thread/src/memheap.c:505-580 | a block asked to be no larger stays as it is or is cut to size, and has no room for another block behind what was asked for |
| `MemHeap.RoundTwice` | rt-thread/src/memheap.c:374-383 | rounding a rounded size again changes nothing |
| `MemHeap.Pool.constructor` | rt-thread/src/memheap.c:79-157 | one free block and the used tail on their rings |
| `MemHeap.Pool.Cut` | rt-thread/src/memheap.c:246-272 | a new free header inside a block: the address ring stays right |
| `MemHeap.Pool.Absorb` | rt-thread/src/memheap.c:658-690 | a block takes over the next one: the address ring stays right, free bytes and free set exact |
| `MemHeap.Pool.Unlink` | rt-thread/src/memheap.c:274-281 | exactly this block leaves the free ring |
| `MemHeap.Pool.Push` | rt-thread/src/memheap.c:283-288 | exactly this block joins the free ring at the front |
| `MemHeap.Pool.Find` | rt-thread/src/memheap.c:226-237 | the first block on the free list with room, all before it without; none only if no free block anywhere has room |
| `MemHeap.Pool.Alloc` | rt-thread/src/memheap.c:187-347 | null exactly if the size is not below the bytes available or no free block has room; else the first fit of the free list, of the size asked for and without room for another block, what is cut off first on the list, byte count and running peak exact; both rings stay right and no payload byte changes |
| `MemHeap.Pool.Free` | rt-thread/src/memheap.c:594-719 | released with both-side joining: the same blocks as the reference release, the free order exact, no two free neighbours, byte count right, no payload byte changed |
| `MemHeap.Pool.Grow` | rt-thread/src/memheap.c:424-484 | in-place growth into the free neighbour: blocks, free order, count and peak exact, the contents and all other blocks' bytes kept |
| `MemHeap.Pool.Shrink` | rt-thread/src/memheap.c:509-580 | the end is given back and joined to a free neighbour; count exact, peak unchanged, contents and all other blocks' bytes kept |
| `MemHeap.Pool.Realloc` | rt-thread/src/memheap.c:362-585 | for every size, each case exactly: null, zero, grow in place, move, refuse with nothing changed, keep, shrink, with the peak, the first min(old, new) bytes kept and no other used block's byte changed; where the growth test agrees without room (`OverrunExact`), the pointer comes back and the first of the free list is a header at pointer plus size, wrapped |
| `MemHeap.Pool.Move` | rt-thread/src/memheap.c:495-503 | allocate, copy, free: the first min(old, new) bytes are at the new place and no other used block's byte changes; or nothing |
| `MemHeap.Pool.CopyAndFree` | rt-thread/src/memheap.c:496-503 | the copy and the release: the bytes arrive, and no block but the target changes |
| `SizeClasses.ClassHolds` | rt-thread/src/slab.c:411-469 | every request below 16384 gets one of 72 classes whose chunks hold it |
| `SizeClasses.ClassLeast` | rt-thread/src/slab.c:411-469 | and no class with smaller chunks would hold it |
| `SizeClasses.ClassWaste` | rt-thread/src/slab.c:411-469 | the rounding wastes less than an eighth or less than eight bytes |
| `SizeClasses.SizesRise` | rt-thread/src/slab.c:411-469 | chunk sizes rise strictly with the class, so class and chunk size determine each other |
| `SlabPages.Canonical` | rt-thread/src/slab.c:216-299 | the list of free runs is determined by the set of free pages: sorted, disjoint, no two runs adjacent |
| `SlabPages.CutTakes` | rt-thread/src/slab.c:224-244 | an allocation takes exactly the pages it hands out |
| `SlabPages.NoneBig` | rt-thread/src/slab.c:224-246 | it fails if and only if no such number of free pages lie side by side |
| `SlabPages.FreeUndoesAlloc` | rt-thread/src/slab.c:216-299 | freeing what was just allocated restores the list exactly |
| `SlabPages.PatchedTidy` | rt-thread/src/slab.c:268-298 | every way a release ends leaves the list sorted, disjoint and without adjacent runs |
| `SlabPages.PatchedAdds` | rt-thread/src/slab.c:268-298 | and adds exactly the pages released |
| `Slab.NoOverlap` | rt-thread/src/slab.c:506-652 | no two live allocations share a byte |
| `Slab.PointerFound` | rt-thread/src/slab.c:760-784 | the page table leads from any live pointer to its run or to the start of its zone |
| `Slab.Repaged` | rt-thread/src/slab.c:506-590 | when a range of pages changes hands, each page still belongs to exactly one of free list, table, zone or run, and the page table agrees |
| `Slab.WholeFree` | rt-thread/src/slab.c:790-800 | free chunks never outnumber those handed out, and a zone whose count is full has no chunk in use |
| `Slab.TakeOk` | rt-thread/src/slab.c:543-571 | a chunk taken lies at base plus a multiple of the chunk size and was not in use; `z_nfree` stays the never-used chunks plus the free list |
| `Slab.PutOk` | rt-thread/src/slab.c:784-803 | a chunk given back keeps the zone's count and list right |
| `Slab.BuiltOk` | rt-thread/src/slab.c:623-645 | a new zone fits its pages, its chunks begin at the first aligned place behind the header, there are at least two, and not one more would fit |
| `Slab.PowerTest` | rt-thread/src/slab.c:630 | the bit test finds exactly the powers of two |
| `Slab.ChunkAligned` | rt-thread/src/slab.c:626-633 | chunks of a power-of-two size lie at addresses that are multiples of it if and only if their zone begins at one, wherever the heap begins; others at multiples of eight if and only if their zone does |
| `Slab.LiveAligned` | rt-thread/src/slab.c:626-645 | the address of a live chunk of power-of-two size is a multiple of it if and only if its zone's is, and always if that size divides the page |
| `Slab.MisalignedChunk` | rt-thread/src/slab.c:626-645 | 8192-byte chunks with pages of 4096, in a heap that begins at 0x20001000: in a zone at its page 2 none is aligned to its size |
| `Slab.ZoneApart` | rt-thread/src/slab.c:623-652 | a live allocation outside a zone shares no byte with it, header included |
| `Slab.PageClear` | rt-thread/src/slab.c:257-299 | a free page, where the page list keeps its links, holds no byte of a live allocation |
| `Slab.HeaderClear` | rt-thread/src/slab.c:623-652 | nor does the header of a zone |
| `Slab.ChunkClear` | rt-thread/src/slab.c:784-800 | nor does a chunk on its free list, which keeps the link |
| `Slab.ListedTake` | rt-thread/src/slab.c:543-552 | a zone leaves its class exactly when it has no chunk left |
| `Slab.ListedPut` | rt-thread/src/slab.c:792-800 | a zone joins its class again exactly when it had none |
| `Slab.ListedAside` | rt-thread/src/slab.c:803-828 | a wholly free zone beside another of its class is set aside |
| `Slab.WholeDeserted` | rt-thread/src/slab.c:803-850 | a zone that is set aside or given up has no live chunk |
| `Slab.Slab.constructor` | rt-thread/src/slab.c:324-390 | all pages but the table's are free, nothing is live |
| `Slab.ZoneSizeFor` | rt-thread/src/slab.c:361-369 | zone size by heap size, and a limit with at least four largest chunks to a zone |
| `Slab.Slab.PageAlloc` | rt-thread/src/slab.c:216-246 | the first run long enough gives its first pages |
| `Slab.Slab.PageFree` | rt-thread/src/slab.c:257-299 | the list stays sorted and without adjacent runs, and gains exactly the pages |
| `Slab.Slab.AllocLarge` | rt-thread/src/slab.c:498-527 | the least number of whole pages that hold the request, from the first run that has them, counted exactly; or nothing changes |
| `Slab.PagesLeast` | rt-thread/src/slab.c:506-512 | the pages of a request are the least number that holds it, and none exactly if rounding wraps |
| `Slab.StarvedIs` | rt-thread/src/slab.c:490-606 | when an allocation fails: a large one if rounding its size wraps or no run of free pages holds that many bytes; a small one if its class and the zones set aside are empty and no run is as long as a zone |
| `Slab.Slab.TakeChunk` | rt-thread/src/slab.c:543-579 | a chunk of the right size not in use, never used before or else the one freed last; used bytes and peak exact |
| `Slab.Slab.FetchZone` | rt-thread/src/slab.c:589-620 | a zone set aside goes before fresh pages; none only if both are missing |
| `Slab.Slab.NewZone` | rt-thread/src/slab.c:581-652 | a zone built anew gives its first chunk |
| `Slab.Slab.Alloc` | rt-thread/src/slab.c:490-655 | null exactly for zero, when rounding wraps, or when no run, class or zone set aside can serve it, with nothing changed; else one more live allocation of the least size that holds the request, no live pointer moves and no byte of a live allocation changes; used bytes stay the sum of live sizes and the peak is exact |
| `Slab.Slab.Free` | rt-thread/src/slab.c:738-853 | exactly the given allocation ends and no byte of another changes; page list, zones, classes and counts stay right; at rest at most two zones are set aside and at most one wholly free zone stays in a class |
| `Slab.Slab.FreeLarge` | rt-thread/src/slab.c:762-779 | a run goes back to the page list |
| `Slab.Slab.FreeChunk` | rt-thread/src/slab.c:781-800 | the chunk is first on the list of its zone, a zone that had none free first in its class; a wholly free zone not alone there is set aside, or given up if two are already |
| `Slab.Slab.SetAside` | rt-thread/src/slab.c:803-852 | kept, set aside or given up, each with its exact effect on the class, the zones set aside and the pages |
| `Slab.Slab.ReleaseZone` | rt-thread/src/slab.c:830-851 | the pages of the zone are free again and the table forgets them |
| `Slab.Slab.Realloc` | rt-thread/src/slab.c:669-727 | same chunk size: unchanged; else a new allocation holding the first min(old, new rounded) bytes of the old one, which ends, with all others' bytes as before and both counted in the peak; or nothing changed |
| `Slab.SameClassIs` | rt-thread/src/slab.c:702-712 | reallocation leaves a chunk where it is exactly if its class is the one with the least chunks that hold the new size |
| `TimerList.WindowIsExact` | rt-thread/src/timer.c:667-671 | for times less than a turn apart the wrapped comparison agrees with the unbounded one if and only if they are within the half-range window |
| `TimerList.StopsRight` | rt-thread/src/timer.c:468-475 | the insertion test is the strict comparison on the unbounded clock |
| `TimerList.InsertedSorted` | rt-thread/src/timer.c:451-500 | inserting behind all that expire no later keeps order by expiry, first started first |
| `TimerList.RowsAreParts` | rt-thread/src/timer.c:485-500 | each upper row is the row below restricted to its own timers, in the same order |
| `TimerList.SortedPart` | rt-thread/src/timer.c:485-500 | a sorted row of a sorted row is its restriction |
| `TimerList.EnteredRight` | rt-thread/src/timer.c:485-500 | entering a timer into the lowest rows, however many, keeps all rows right |
| `TimerList.HeightIs` | rt-thread/src/timer.c:485-500 | a timer enters as many rows above the bottom one as fours divide the counter |
| `TimerList.DueNext` | rt-thread/src/timer.c:660-712 | after one timer fires, wherever it is started again, the next ones due come first |
| `TimerList.Timers.constructor` | rt-thread/src/timer.c:855-870 | empty rows |
| `TimerList.Timers.RemoveFromRows` | rt-thread/src/timer.c:192-200 | the timer leaves every row, others keep their order |
| `TimerList.Timers.Search` | rt-thread/src/timer.c:451-483 | the multi-row search ends in each row where a linear scan of that row would |
| `TimerList.Timers.Scan` | rt-thread/src/timer.c:456-480 | one row, from where the row above has led |
| `TimerList.Timers.Descend` | rt-thread/src/timer.c:451-483 | from a row to the same timer in the row below loses nothing |
| `TimerList.Timers.Enter` | rt-thread/src/timer.c:485-500 | as many rows as the counter says, for any counter |
| `TimerList.Timers.Start` | rt-thread/src/timer.c:411-527 | every row afterwards, in terms of a plain sorted list on the unbounded clock |
| `TimerList.Timers.Stop` | rt-thread/src/timer.c:537-564 | out of every row exactly if it was active |
| `TimerList.Timers.NextTimeout` | rt-thread/src/timer.c:161-185 | the least expiry of all active timers, or none exactly if none is active |
| `TimerList.Timers.FireHead` | rt-thread/src/timer.c:667-712 | on the wrapping tick the head fires exactly if it is due on the unbounded clock, and the state afterwards is one turn of the specified loop; one-shot stopped, periodic started again |
| `TimerList.Timers.Check` | rt-thread/src/timer.c:651-718 | watched for any number of turns, the loop is the specified one turn by turn, over exactly when its head is not due; if no active periodic timer of period zero is due and there are turns for all due ones, it is over, has fired exactly those in order of expiry, and all others are as before |
| `TimerList.Timers.Loop` | rt-thread/src/timer.c:660-712 | the loop alone, on the wrapping tick: the timers fired and the state after each number of turns |
| `TimerList.CalmTurns` | rt-thread/src/timer.c:660-712 | without a stuck timer, after k turns the first k due ones have fired, one-shot ones stopped, periodic ones started again, and the remaining due ones are next |
| `TimerList.TurnsOver` | rt-thread/src/timer.c:660-712 | once nothing is due, more turns change nothing |
| `TimerList.Timers.SetTime` | rt-thread/src/timer.c:576-640 | a new period leaves a running timer's expiry alone |
| `TimerList.EndsExactly` | rt-thread/src/timer.c:660-712 | the loop ends if and only if no active periodic timer with period zero is due, and then after as many turns as timers are due |
| `TimerList.StuckForEver` | rt-thread/src/timer.c:660-712 | while such a timer exists it stays active and due through any number of turns |
| `TimerList.RunsOut` | rt-thread/src/timer.c:660-712 | without one, each turn leaves one due timer fewer and none is stuck afterwards |
| `TimerList.ZeroPeriodNeverEnds` | rt-thread/src/timer.c:660-712 | one periodic timer of period zero that is due now, at any time: the loop does not end |
| `WaitList.UrgentPlace` | rt-thread/src/ipc.c:131-187 | behind all at least as urgent, before all less urgent |
| `WaitList.UrgentSorted` | rt-thread/src/ipc.c:131-187 | a priority list stays in order |
| `WaitList.EnqueueMembers` | rt-thread/src/ipc.c:131-187 | exactly the new thread joins, in either mode |
| `WaitList.EnqueueStands` | rt-thread/src/ipc.c:131-187 | first in first out the thread stands last; by priority behind all at least as urgent and before all less urgent |
| `WaitList.EnqueueRanked` | rt-thread/src/ipc.c:131-187 | a list in the order of waking stays so when a thread joins: by the time of going to sleep, or by priority and then by that time |
| `WaitList.WithoutRanked` | rt-thread/src/thread.c:131-160 | and when one leaves |
| `Crowds.PutKeeps` | rt-thread/src/ipc.c:2482-2511 | storing and waking a receiver loses no wake-up |
| `Crowds.FetchKeeps` | rt-thread/src/ipc.c:2776-2803 | fetching and waking a sender loses no wake-up |
| `Crowds.WokenInTurn` | rt-thread/src/ipc.c:200-230 | the receiver woken went to sleep before all that sleep on, or is more urgent, or as urgent and earlier |
| `Crowds.SenderInTurn` | rt-thread/src/ipc.c:200-230 | the sender woken likewise |
| `Crowds.RunsToSend` | rt-thread/src/ipc.c:2407-2480 | a sender that runs either finds room or sleeps again, and no wake-up is lost in between |
| `Crowds.RunsToReceive` | rt-thread/src/ipc.c:2699-2774 | a receiver likewise |
| `Mailbox.RingBack` | rt-thread/src/ipc.c:2482-2492 | storing at `in_offset` is appending to the deque the ring stands for |
| `Mailbox.RingFront` | rt-thread/src/ipc.c:2612-2626 | stepping `out_offset` back is prepending |
| `Mailbox.RingRest` | rt-thread/src/ipc.c:2776-2788 | fetching at `out_offset` is taking the front |
| `Mailbox.SentFine` | rt-thread/src/ipc.c:2379-2517 | each outcome of a send, waits included, keeps: stored mails are at most receivers woken while one sleeps, free places at most senders woken, and the mails accepted are those delivered and those stored, urgent or not |
| `Mailbox.ReceivedFine` | rt-thread/src/ipc.c:2674-2811 | each outcome of a receive keeps the same |
| `Mailbox.UrgentFine` | rt-thread/src/ipc.c:2593-2645 | an urgent send keeps the same |
| `Mailbox.Quiescent` | rt-thread/src/ipc.c:2379-2811 | when no woken thread is left to run, nobody sleeps beside a mail or a free place |
| `Mailbox.InOrder` | rt-thread/src/ipc.c:2379-2811 | without urgent mails, deliveries are the accepted mails in order |
| `Mailbox.Mailbox.constructor` | rt-thread/src/ipc.c:2168-2200 | an empty deque of 16-bit size |
| `Mailbox.Mailbox.Send` | rt-thread/src/ipc.c:2379-2517 | done, full or asleep exactly by room and waiting time; the mail goes last; a thread that sleeps stands last first in first out; else the code refines the specified send |
| `Mailbox.Mailbox.Urgent` | rt-thread/src/ipc.c:2593-2645 | to the front if there is room, else full with nothing changed |
| `Mailbox.Mailbox.Recv` | rt-thread/src/ipc.c:2674-2811 | done, timeout or asleep exactly by mail and waiting time; returns the front mail; a thread that sleeps stands last first in first out; else the code refines the specified receive |
| `Mailbox.Mailbox.Expire` | rt-thread/src/thread.c:131-160 | a timed-out thread leaves its list and no wake-up is lost |
| `MessageQueue.LinkedDescending` | rt-thread/src/ipc.c:3337-3362 | in priority mode a send keeps the queue in descending priority |
| `MessageQueue.LinkedInTurn` | rt-thread/src/ipc.c:3337-3362 | and first in first out among equals: for every priority, what was accepted is what was delivered followed by what is queued |
| `MessageQueue.LeavesInTurn` | rt-thread/src/ipc.c:3715-3728 | taking the first message keeps that too |
| `MessageQueue.NextDelivered` | rt-thread/src/ipc.c:3604-3772 | in priority mode a receive takes the oldest message not delivered yet of the most urgent priority that has any |
| `MessageQueue.LinkedHolds` | rt-thread/src/ipc.c:3321-3381 | no message is lost or doubled, and without priorities it goes last |
| `MessageQueue.UrgentOrder` | rt-thread/src/ipc.c:3527-3541 | an urgent message, whose node keeps an old priority, leaves the queue in order of priority if and only if it was and that priority is no less than the first one's |
| `MessageQueue.OutOfOrder` | rt-thread/src/ipc.c:3491-3541 | a run of a new queue in priority mode: two messages sent at priority 0 and received, one sent at 5, then an urgent one, whose node still says 0 and which goes before the 5 |
| `MessageQueue.SendBegunFine` | rt-thread/src/ipc.c:3206-3325 | free, queued and in-flight nodes always add up to `max_msgs`; no wake-up is lost |
| `MessageQueue.RecvBegunFine` | rt-thread/src/ipc.c:3604-3731 | the same for a receive |
| `MessageQueue.JoinsFine` | rt-thread/src/ipc.c:3335-3400 | the same when a filled node joins the queue |
| `MessageQueue.FreedFine` | rt-thread/src/ipc.c:3745-3764 | the same when an emptied node comes back |
| `MessageQueue.Quiescent` | rt-thread/src/ipc.c:3206-3772 | when no woken thread is left to run, nobody sleeps beside a message or a free node |
| `MessageQueue.Delivery` | rt-thread/src/ipc.c:3206-3772 | without urgent messages: deliveries are the accepted messages in order, or, in priority mode, those of each priority are in order |
| `MessageQueue.LinkChained` | rt-thread/src/ipc.c:3321-3381 | linking at any place keeps the chain of nodes |
| `MessageQueue.LinkShape` | rt-thread/src/ipc.c:3321-3381 | head, tail, count and the messages along the chain after linking |
| `MessageQueue.UnlinkShape` | rt-thread/src/ipc.c:3715-3728 | the same after taking the first node |
| `MessageQueue.ReleaseShape` | rt-thread/src/ipc.c:3744-3749 | the same for the free list |
| `MessageQueue.Queue.constructor` | rt-thread/src/ipc.c:2931-2985 | all nodes free |
| `MessageQueue.Queue.Scan` | rt-thread/src/ipc.c:3342-3362 | the loop stops at the first less urgent node, or the last |
| `MessageQueue.Queue.LinkByPrio` | rt-thread/src/ipc.c:3337-3362 | links before the first less urgent node, head and tail included |
| `MessageQueue.Queue.LinkLast` | rt-thread/src/ipc.c:3364-3375 | links behind the tail |
| `MessageQueue.Queue.SendBegin` | rt-thread/src/ipc.c:3206-3325 | too large, full, asleep or a free node in hand, each exactly by size, free nodes and waiting time; a thread that sleeps stands last first in first out |
| `MessageQueue.Queue.SendEnd` | rt-thread/src/ipc.c:3327-3406 | the message joins in its place and a receiver is woken |
| `MessageQueue.Queue.UrgentBegin` | rt-thread/src/ipc.c:3491-3525 | never waits |
| `MessageQueue.Queue.UrgentEnd` | rt-thread/src/ipc.c:3527-3571 | joins in front with whatever priority the node had; the queue is in order afterwards if and only if it was and that priority fits |
| `MessageQueue.Queue.RecvBegin` | rt-thread/src/ipc.c:3604-3731 | the first message in hand, or asleep, or timeout, each exactly; a thread that sleeps stands last first in first out |
| `MessageQueue.Queue.RecvEnd` | rt-thread/src/ipc.c:3733-3772 | as many bytes as fit are delivered, and the node is free again |
| `MessageQueue.Queue.Expire` | rt-thread/src/thread.c:131-160 | a timed-out thread leaves its list and no wake-up is lost |
| `Semaphore.Semaphore.Take` | rt-thread/src/ipc.c:502-592 | each outcome exactly; units conserved; a waiter sleeps with its timer set exactly for a positive timeout, last in the list first in first out, else behind all at least as urgent and before all less urgent |
| `Semaphore.Semaphore.Release` | rt-thread/src/ipc.c:645-693 | the first waiter gets the unit, and in every run no waiter was to be woken before it, by the time of going to sleep or by priority and then by that time; or the count grows unless at its limit; each sleep ends in one wake-up |
| `Semaphore.Semaphore.Expire` | rt-thread/src/thread.c:131-160 | the timer wakes exactly its sleeping thread, with an error and without a unit |
| `Semaphore.Semaphore.Return` | rt-thread/src/ipc.c:578-586 | a woken thread has a unit exactly if it was handed one |
| `Semaphore.Semaphore.Suspend` | rt-thread/src/thread.c:982-1029 | a thread that goes to sleep stops its timer and joins the list in its place |
| `Semaphore.Semaphore.Resume` | rt-thread/src/thread.c:1046-1084 | a resumed thread's timer is off |
| `Semaphore.Semaphore.TimerMeansAsleep` | rt-thread/src/thread.c:131-140 | a running thread timer implies a sleeping thread in the list, so the assertion of the timeout handler cannot fail |
| `Romfs.RoundTrip` | rt-thread/tools/mkromfs.py:165-244 | for any tree and base address whose words fit in 32 bits, following the image from its root gives exactly the names, kinds, sizes and bytes of the tree |
| `Romfs.ReadsBack` | rt-thread/tools/mkromfs.py:165-214 | the same for every directory inside, at its own address |
| `Romfs.ImageParts` | rt-thread/tools/mkromfs.py:233-244 | the root entry points at the root name and the root data |
| `Romfs.WordRead` | rt-thread/tools/mkromfs.py:200-205 | a packed word reads back |
| `Romfs.NameRead` | rt-thread/tools/mkromfs.py:185-190 | a padded name read up to its first zero is the name |
| `Romfs.AlignedTree` | rt-thread/tools/mkromfs.py:165-214 | all recorded addresses are multiples of four if and only if every name in the tree has as many bytes as characters modulo four |
| `Romfs.NameAligned` | rt-thread/tools/mkromfs.py:60-90 | a padded name ends on a multiple of four if and only if its bytes and characters agree modulo four |
| `Romfs.AsciiAligned` | rt-thread/tools/mkromfs.py:60-90 | names in ASCII always do |
| `Romfs.PaddedAligned` | rt-thread/tools/mkromfs.py:165-214 | contents get as few zero bytes as make their length a multiple of four |
| `Romfs.FolderSize` | rt-thread/tools/mkromfs.py:165-214 | with names in ASCII a directory takes an entry, a padded name and padded contents for each child, and not a byte more |
| `Romfs.MisalignedName` | rt-thread/tools/mkromfs.py:60-90 | a one-letter name of two bytes: padding by characters leaves the data unaligned |
| `Romfs.BinData` | rt-thread/tools/mkromfs.py:165-214 | the loop builds the specified layout, or fails exactly when some word does not fit |
| `Romfs.GetBinData` | rt-thread/tools/mkromfs.py:233-244 | the whole image, or failure exactly when some word does not fit |
| `StackAnalysis.FoundIs` | rt-thread/tools/WCS.py:83-100 | a name resolves to a global function, else to one local to the same unit, else to nothing |
| `StackAnalysis.MissingIs` | rt-thread/tools/WCS.py:223-235 | a call is unresolved exactly if neither exists |
| `StackAnalysis.RightUnique` | rt-thread/tools/WCS.py:245-299 | the figure is determined by the call graph, so it does not depend on the order of visiting |
| `StackAnalysis.RightCycle` | rt-thread/tools/WCS.py:265-268 | a function met among its own callers reaches a cycle |
| `StackAnalysis.RightPointer` | rt-thread/tools/WCS.py:260-263 | a pointer call makes a function unbounded |
| `StackAnalysis.RightCallee` | rt-thread/tools/WCS.py:279-282 | an unbounded callee makes its caller unbounded |
| `StackAnalysis.RightBytes` | rt-thread/tools/WCS.py:270-291 | when all callees are bounded, the greatest figure among them plus the local stack is the maximum over all call paths, and no path is bad |
| `StackAnalysis.Analyzer.ResolveAllCalls` | rt-thread/tools/WCS.py:223-242 | every function gets its callees and its unresolved names |
| `StackAnalysis.Analyzer.CalcWcs` | rt-thread/tools/WCS.py:245-291 | the memoised search terminates on every graph, cyclic or not, and every figure it records is right |
| `StackAnalysis.Analyzer.CalcAllWcs` | rt-thread/tools/WCS.py:245-299 | every function is unbounded exactly if a cycle or pointer call is reachable, and else has the maximum over call paths of the summed local stack; a bounded one lists exactly the unresolved names reachable |
| `StackAnalysis.Analyzer.Analyze` | rt-thread/tools/WCS.py:223-299 | the same from scratch, manual entries included |

## Left out

- Mutexes: detach and delete of a mutex, and priority changes by the user, which break the bounds the kernel keeps; events and memory pools; signals and lightweight processes.
- Mutexes and scheduling are separate models: the effect of a priority change on the ready lists is in `ReadyQueue` and `SmpScheduler`, its effect on wait lists in `MutexInheritance`.
- MutexInheritance.ExactPriority: holds until a hand-off skips a ceiling, because the code does; the bounds in the invariant hold always.
- MutexInheritance.Kernel.Expire: wake-up and clean-up are one step; `Leave` and `CleanUp` are the two steps on their own.
- CpusLock: nested interrupts, booting CPUs without a current thread, which thread owns a user spin lock, delivery of inter-processor interrupts, and the machine code of the context switch.
- CpusLock: the 16-bit width of the nest counters, which are unbounded in the model.
- CpusLock.StepInv: the protocol is modelled on values, since its subject is the interleaving of CPUs rather than the fields of one object.
- SmpScheduler: more than 32 priorities, where the group look-up is made with an empty word; the test of the scheduler lock count enters as a parameter, and its meaning is proved in `CpusLock`.
- Stack checks, scheduler hooks, thread exit and the idle thread's clean-up.
- SmallMem.Heap.constructor: the arithmetic that aligns the region before the first header; tracing of owners.
- MemHeap.Pool.Realloc: where the growth test agrees without room, exactly the sizes of `MemHeap.OverrunExact`, only the pointer and the place of the new header are stated, because that header is written over bytes the model knows nothing about; the semaphore that guards the heap is taken to be free.
- MemHeap.Pool.constructor: a pool that leaves less than a least block of the size type is excluded, as it could not be addressed.
- MemHeap: the best-fit order of the free list, which is off unless configured; magic numbers.
- Slab.Slab.constructor: the alignment of the region to pages and the placing of the allocator's own record; the heap begins at any address that is a multiple of the page size.
- Slab: addresses other than in `ChunkAligned`, `LiveAligned` and `MisalignedChunk` count from the start of the heap; what the allocator's own writes put into zone headers and free chunks is arbitrary.
- TimerList.Timers.Check: the loop is given a number of turns, which may be any, since with a due periodic timer of period zero it does not end; timeout functions do not touch timers; soft timers and setting the tick are not modelled, and a row is skipped with the default mask of two bits.
- Waiting threads' priorities are fixed in `WaitList`, `Mailbox`, `MessageQueue` and `Semaphore`; detaching and resetting these objects is not modelled, and remaining timeouts enter as whether the thread may still wait.
- MessageQueue.Queue.constructor: the number of nodes is given; its computation from the pool size is not modelled.
- Romfs.RoundTrip: names hold no zero byte; walking and sorting directories, the byte order of the host (taken as little-endian) and the C text form of an image are not modelled.
- StackAnalysis.Analyzer.Analyze: parsing of compiler output, weak symbols and printing; membership in the list of callers is taken as identity of functions.
- Object registry, devices, console, string helpers, start-up order, dynamic modules, and the intrusive list macros themselves.

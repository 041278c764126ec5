# Verified models of the real-time systems labs

The labs are small C programs, but seven of them have real state or real interleaving behind them. This
project models those seven and proves what they promise, for every input, every schedule and every run.

| Modules | What they model |
|---|---|
| `WordBytes`, `MemPool`, `PoolAllocator` | the fixed-block memory pool, as bytes: the free list is stored inside the free blocks, clients may write anything into the blocks they hold |
| `ShmRing`, `ShmProcesses` | the shared-memory ring between two processes and its two semaphores, one step per access, 64-bit slots written and read in halves |
| `Monitors`, `CondVar`, `ProdCons`, `MonitorPrograms` | the two condition-variable programs, with spurious wakeups |
| `MutexCounters`, `RacyCounters` | the N-thread counters with and without the mutex, with asynchronous cancellation |
| `Device`, `CommandStream`, `ResourceManager` | the resource manager's device, what its operations amount to, and its commands in a stream without message boundaries |
| `Sessions`, `SessionHistory`, `ReplyTexts`, `SessionReplies`, `SessionFlags`, `SessionPermissions`, `SessionBlocking`, `SocketSizes` | any number of sessions on that device, interleaved inside their critical sections, with their sockets |
| `ClockTime`, `Periodic`, `Statistics`, `LatencyReports` | time conversions, absolute and relative periodic loops, and the statistics printed about them |
| `BurstQueue` | draining a bounded message queue after a burst |
| `Common` | optional values, counting over sequences, laws of remainders |

Each concurrent program is a state machine: a `State`, the accesses its threads can make as `Event`s,
`Enabled`, `Next`, and `Run` over a schedule. Properties are lemmas over `Run`, so they hold after every
schedule. Beside it stands the program in its own form, a class whose methods update its fields in place;
each method's contract says that its effect on the fields is the machine's step, and `Interleave` carries
the main result over to the object for an arbitrary schedule and makes every possible run as scheduled. The sequential programs are methods with
loops, proved against functions. A `hide` statement in a proof only keeps definitions out of the solver's
way.

The semantics of mutexes and condition variables follow section 3 of the System Interfaces volume of
IEEE Std 1003.1-2017 (`pthread_cond_wait`, `pthread_cond_signal`, `pthread_mutex_lock`, `sem_wait`), those
of cancellation section 2.9.5 of the same volume. What comes from outside is a parameter or an event:
where memory is allocated and whether it is, the schedule, spurious wakeups, cancellations, termination
requests, interrupted calls, clock readings, work and wakeup delays.

Where code and text disagree the model follows the code: `calctime2.c` labels its samples as measured from
the previous actual wakeup, but measures from the previous scheduled deadline; the pool benchmark is
described as allocating and freeing in turn, but allocates every block first and then frees them; the resource
manager's notes ask for stream fragments and glued messages to be reckoned with, but the server takes what
one `recv` returns for one command.

Some promises turned out to hold only under a condition, which is proved to be exact:

- freeing keeps a finite free list if and only if the block is live (`FreeKeepsAListIff`);
- the unprotected counters are exact if and only if there is at most one thread (`ExactIffAtMostOneThread`);
- the device's lock is stuck if and only if READ is sending to a client that leaves no room for the reply
  (`LockStuckIff`), which happens (`SilentReaderLocksOut`); clients that read everything before they ask
  again prevent it if and only if a socket holds at least 4096 bytes (`PoliteNeverStuckIff`);
- a command that arrives alone is understood as it was written if and only if one `recv` can take it in and
  it holds no NUL (`CommandRoundTripIff`, `LongWriteRunsItsTail`); one with another right behind it, if and
  only if it is READ or SETPERM or fills the `recv` exactly (`GluedCommandIff`, `GluedCommandsMisread`), and
  both are understood only in the last case (`BothUnderstoodIff`);
- BUSY tells whether somebody is connected if and only if there is at most one client (`BusyExactIff`,
  `BusyClearedWhileConnected`); otherwise it tells whether the last one to come or go came;
- no send of a burst fails if and only if the burst fits the queue, or exceeds it by one when no signal
  interrupts a wait (`NeverFailsIff`, `NeverFailsUndisturbedIff`);
- draining is certain to get the whole burst only for a burst of at most one message (`DrainsAllIff`);
- the extremes of the relative-sleep fallback are those of the samples if and only if some sample meets the
  terms of each start value (`SentinelsHarmlessIff`, `FallbackExtremesCanBeWrong`).

## Model

| member | source | states |
|---|---|---|
| WordBytes.DecodeEncode | task5/src/mempool.c:6-8 | a pointer stored in the bytes of a block is the pointer read back |
| MemPool.BlockBounds | task5/src/mempool.c:29-44 | every block lies inside the arena |
| MemPool.BlocksDisjoint | task5/src/mempool.c:43-44 | two blocks share no byte |
| MemPool.ChainUnique | task5/src/mempool.c:6-8 | the arena bytes determine the list: at most one finite chain of links starts at an address |
| MemPool.AllocRefinesPop | task5/src/mempool.c:52-60 | allocation pops a stack, leaves the arena alone, keeps the invariant, and returns NULL exactly when all blocks are live |
| MemPool.FreeRefinesPush | task5/src/mempool.c:62-69 | freeing a live block pushes it on the stack and keeps the invariant, through the bytes written into the block |
| MemPool.ClientWriteKeepsPool | task5/src/mempool.c:52-60 | whatever a client stores anywhere inside a block it holds, the free list in the arena is not disturbed |
| MemPool.BlocksConserved | task5/src/mempool.c:20-46 | free plus live blocks always number the blocks of the pool |
| MemPool.LiveBlocksSeparate | task5/src/mempool.c:43-60 | live blocks are pairwise disjoint ranges inside the arena |
| MemPool.Next | task5/src/mempool.c:52-69 | every legal operation keeps the byte-level invariant and moves the abstract stack and live set as it should |
| MemPool.RunRefinesStack | task5/src/mempool.c:18-69 | after any legal run of allocations, frees and client stores the stored links spell out the abstract stack, that list only, each free block once, no live block |
| MemPool.DoubleFreeHasNoList | task5/src/mempool.c:62-69 | freeing a block that is already free leaves links that form no finite list |
| MemPool.FreeKeepsAListIff | task5/src/mempool.c:62-69 | after a free the links form a finite list if and only if the block was live |
| PoolAllocator.StoreWord | task5/src/mempool.c:45-45 | storing a link changes exactly the eight bytes of its encoding |
| PoolAllocator.LoadWord | task5/src/mempool.c:58-58 | loading a link decodes the eight bytes at the block |
| PoolAllocator.BuildStep | task5/src/mempool.c:43-47 | one round of the building loop extends the stored list by the next block |
| PoolAllocator.BuildFreeList | task5/src/mempool.c:42-47 | the building loop leaves all blocks listed from the highest to the lowest, whatever the memory held |
| PoolAllocator.MemoryPool.constructor | task5/src/mempool.c:18-50 | a new pool has blocks of the requested size, or of eight bytes if less was requested, all free, none live, and satisfies the invariant |
| PoolAllocator.RequestedBytesDisjoint | task5/src/mempool.c:20-44 | a client may use all the bytes it asked for: those of a live block lie in the arena and share none with those of another live block |
| PoolAllocator.PoolCreate | task5/src/mempool.c:18-50 | NULL exactly when an allocation failed, else such a pool, with blocks no smaller than requested |
| PoolAllocator.PoolAlloc | task5/src/mempool.c:52-60 | NULL for a missing pool; else the block on top of the stack, or NULL and no change exactly when all are live |
| PoolAllocator.PoolFree | task5/src/mempool.c:62-69 | no effect for NULL; else the block is on top of the stack and no longer live |
| PoolAllocator.ClientStore | task5/src/mempool.c:52-60 | a store into a held block keeps the pool valid with the same stack and live set |
| PoolAllocator.TwoPassesRestore | task5/src/task3_benchmark.c:48-59 | allocating n blocks and freeing them in that order, done twice, restores the free list |
| PoolAllocator.FullPassReverses | task5/src/task3_benchmark.c:48-59 | when all free blocks are taken, one pass reverses the list |
| PoolAllocator.AscendingAfterPass | task5/src/task3_benchmark.c:41-59 | after one full pass over a fresh pool the list runs from the lowest block up |
| PoolAllocator.AllocateAll | task5/src/task3_benchmark.c:47-54 | the first loop hands out the free list in order, then NULLs |
| PoolAllocator.FreeAll | task5/src/task3_benchmark.c:56-59 | the second loop returns the blocks in the opposite order and gives back the live set |
| PoolAllocator.BenchmarkMempool | task5/src/task3_benchmark.c:47-59 | both loops together: pointers in list order, free list of a pass, live set unchanged |
| PoolAllocator.BenchmarkFreshPool | task5/src/task3_benchmark.c:41-59 | on a fresh pool the first pass yields all blocks once in descending address order, a second one in ascending order, always as far apart as requested |
| ShmRing.StepInv | task3/src/shm_producer.c:59-71 | every access of either process keeps the ring invariant, from initialisation on |
| ShmRing.StartupStep | task3/src/shm_producer.c:47-60 | setting head and tail after the semaphores exist is safe because the consumer cannot pass its semaphore |
| ShmRing.QueueContents | task3/src/shm_common.h:14-18 | the slots from tail on hold the values that follow those consumed, never more than the capacity |
| ShmRing.StepRefinesQueue | task3/src/shm_consumer.c:57-63 | each access is an enqueue at the back, a dequeue from the front, or no step of a bounded FIFO queue |
| ShmRing.DeliveredInOrder | task3/src/shm_consumer.c:56-63 | for every capacity and interleaving the consumer has read 0, 1, 2, ... modulo 2^64 with nothing lost, repeated or torn, and the backlog is within the capacity |
| ShmRing.SlotsNeverShared | task3/src/shm_producer.c:64-71 | while both processes are between wait and post they work on different slots |
| ShmRing.NeverDeadlocks | task3/src/shm_producer.c:63-71 | tokens are conserved, indices stay in range, and unless a process has left one of them can move |
| ShmRing.ConsumerNeedsProducer | task3/src/shm_consumer.c:44-53 | each of the consumer's two openings succeeds exactly while the producer has created that semaphore and not yet removed it |
| ShmRing.ProgressBound | task3/src/shm_consumer.c:56-63 | a run of N steps in which nobody has left has consumed more than (N - 5(B+1) - 5)/10 items |
| ShmRing.AnyNumberConsumed | task3/src/shm_consumer.c:44-63 | for every capacity and every k there is a run that has consumed k items with both processes still at work |
| ShmProcesses.Processes.constructor | task3/src/shm_producer.c:31-44 | a fresh segment with arbitrary contents is a starting state |
| ShmProcesses.Processes.InitialiseStep | task3/src/shm_producer.c:47-60 | each step of the producer's set-up, semaphores before indices, has the effect of the model's step and never blocks |
| ShmProcesses.Processes.StoreHalf | task3/src/shm_producer.c:66-66 | storing one half of the slot at head changes that half and nothing else of the ring |
| ShmProcesses.Processes.LoadHalf | task3/src/shm_consumer.c:59-59 | loading one half of the slot at tail changes the reader's register only |
| ShmProcesses.Processes.NextSlot | task3/src/shm_producer.c:68-69 | advancing head round the ring and the 64-bit counter is the model's step |
| ShmProcesses.Processes.ProducerStep | task3/src/shm_producer.c:47-71 | the producer's next access has the effect of the model's step, and blocks exactly when that is not possible |
| ShmProcesses.Processes.ConsumerStep | task3/src/shm_consumer.c:44-63 | the same for the consumer |
| ShmProcesses.Processes.Stop | task3/src/shm_producer.c:20-23 | a termination request is honoured at the head of the loop only; the producer removes the names |
| ShmProcesses.Processes.Interleave | task3/src/shm_consumer.c:56-63 | under any schedule the values consumed are 0, 1, 2, ... |
| Monitors.AcquireExclusive | task1/src/shared_mem/condvar.c:62-66 | taking a free mutex keeps exactly its owner between lock and unlock |
| Monitors.GiveUpExclusive | task1/src/shared_mem/condvar.c:65-72 | so do waiting and unlocking |
| Monitors.NotifyExclusive | task1/src/shared_mem/condvar.c:71-71 | so do broadcast and signal: the woken threads have to take the mutex again |
| Monitors.NotifyRank | task1/src/shared_mem/condvar.c:71-71 | notifying pays for every thread it wakes in the progress measure |
| CondVar.ChoiceIsNext | task1/src/shared_mem/condvar.c:90-102 | thread 1 picks the branch the cycle calls for, although it counts outside the mutex |
| CondVar.StepInv | task1/src/shared_mem/condvar.c:58-138 | every step, spurious wakeups included, keeps the invariant |
| CondVar.TransitionsFollowCycle | task1/src/shared_mem/condvar.c:58-138 | in every run the transitions are, in this order and over and over, (0, 1), (1, 2), (2, 0), (0, 1), (1, 3), (3, 0) |
| CondVar.NoLostWakeup | task1/src/shared_mem/condvar.c:62-72 | with the mutex free the thread whose turn it is does not sleep; some thread can always step without a spurious wakeup |
| CondVar.ProgressBound | task1/src/shared_mem/condvar.c:58-138 | N steps with S spurious wakeups contain at least (N - 3S - 23)/15 transitions |
| MonitorPrograms.Threads.TakeMutex | task1/src/shared_mem/condvar.c:62-62 | locking succeeds exactly on a free mutex and makes the thread its owner |
| MonitorPrograms.Threads.Wait | task1/src/shared_mem/condvar.c:65-65 | waiting gives the mutex up and falls asleep in one step |
| MonitorPrograms.Threads.WakeAll | task1/src/shared_mem/condvar.c:71-71 | broadcast sends every sleeper, and nobody else, back to take the mutex |
| MonitorPrograms.Threads.WakeOne | task1/src/shared_mem/prodcons.c:47-47 | signal wakes a sleeper if there is one, as the standard asks, and at most one |
| MonitorPrograms.FourStates.Step | task1/src/shared_mem/condvar.c:58-138 | a thread's next access on the globals is the model's step |
| MonitorPrograms.FourStates.WakeUp | task1/src/shared_mem/condvar.c:63-66 | a spurious wakeup can happen to a sleeper only, which must then take the mutex |
| MonitorPrograms.FourStates.Interleave | task1/src/shared_mem/condvar.c:58-138 | under any schedule the program walks round the cycle |
| ProdCons.StepInv | task1/src/shared_mem/prodcons.c:38-70 | every step keeps the hand-over invariant |
| ProdCons.ConsumedInOrder | task1/src/shared_mem/prodcons.c:40-67 | 1, 2, 3, ... are produced and consumed, each product consumed once before the next is made |
| ProdCons.NeverDeadlocks | task1/src/shared_mem/prodcons.c:41-66 | with signal only, both threads never sleep together and one of them can always step |
| ProdCons.ProgressBound | task1/src/shared_mem/prodcons.c:38-70 | N steps with S spurious wakeups consume at least (N - 3S - 26)/22 products |
| MonitorPrograms.HandOver.Step | task1/src/shared_mem/prodcons.c:38-70 | a thread's next access on the globals is the model's step |
| MonitorPrograms.HandOver.SignalOther | task1/src/shared_mem/prodcons.c:47-47 | the signal wakes the other thread if it sleeps, and is one the standard allows |
| MonitorPrograms.HandOver.Interleave | task1/src/shared_mem/prodcons.c:54-70 | under any schedule the consumer announces 1, 2, 3, ... |
| MutexCounters.StepInv | task1/src/shared_mem/mutex.c:83-107 | every access and every cancellation keeps the invariant |
| MutexCounters.CountersAgree | task1/src/shared_mem/mutex.c:83-107 | for any number of threads and any cancellations var2 <= var1 <= var3 <= var2 + 1, the counters equal the completed increments, and the repair branch is never taken |
| MutexCounters.OrphanedForever | task1/src/shared_mem/mutex.c:53-55 | after a cancellation that leaves the mutex held, no run changes the counters again |
| MutexCounters.CancelledHolderOrphans | task1/src/shared_mem/mutex.c:53-55 | cancelling a thread that holds the mutex, at any point of its round, leaves it locked |
| MutexCounters.StuckIff | task1/src/shared_mem/mutex.c:53-55 | no thread can step if and only if a cancelled thread holds the mutex or all are cancelled |
| MutexCounters.ProgressBound | task1/src/shared_mem/mutex.c:83-107 | rounds are made: in every run, cancellations included, the threads take at most 10 * var2 + 8 steps, and exactly 10 * var2 when the mutex is free |
| MutexCounters.RoundRaisesByOne | task1/src/shared_mem/mutex.c:83-107 | from taking the mutex to giving it up a thread raises each of the three counters by exactly one, whatever the others do |
| MutexCounters.RoundFromAnyState | task1/src/shared_mem/mutex.c:83-107 | from any values whatever a thread that finds the mutex free makes a round that repairs unequal counters and ends with var1 == var2 == the old var2 + 1 |
| MutexCounters.Counters.StepThread | task1/src/shared_mem/mutex.c:72-107 | a thread's next access on the globals is the model's step |
| MutexCounters.Counters.Interleave | task1/src/shared_mem/mutex.c:83-107 | under any schedule of steps and cancellations the counters stay together |
| RacyCounters.StepInv | task1/src/shared_mem/nomutex.c:78-94 | every racy access keeps the bounds on counters and on values in flight |
| RacyCounters.RacesOnlyLose | task1/src/shared_mem/nomutex.c:78-94 | for n threads each counter is at most its completed increment stores, repairs included, and S2 <= S1 <= S2 + n |
| RacyCounters.SingleThreadExact | task1/src/shared_mem/nomutex.c:78-94 | one thread alone never repairs and loses nothing |
| RacyCounters.ProgressBound | task1/src/shared_mem/nomutex.c:78-94 | n threads that have taken N steps have completed at least (N - 9n)/10 increments of var2 |
| RacyCounters.RoundFromAnyState | task1/src/shared_mem/nomutex.c:78-94 | from any values whatever a round that nobody interferes with repairs unequal counters and ends with var1 == var2 == the old var2 + 1 |
| RacyCounters.TwoThreadsLose | task1/src/shared_mem/nomutex.c:78-94 | from two threads on there is an interleaving that loses an increment |
| RacyCounters.ExactIffAtMostOneThread | task1/src/shared_mem/nomutex.c:78-94 | the counters are exact in every run if and only if there is at most one thread |
| RacyCounters.Counters.StepThread | task1/src/shared_mem/nomutex.c:67-94 | a thread's next access on the globals is the model's step |
| RacyCounters.Counters.Interleave | task1/src/shared_mem/nomutex.c:78-94 | under any schedule updates are only ever lost |
| CommandStream.CommandRoundTripIff | task1/src/resource_manager/resmgr.c:126-226 | a command that arrives by itself is understood as the operation it was written for if and only if it has at most the 1023 bytes one recv takes and no NUL in its data; a longer WRITE loses its end |
| CommandStream.ReadIgnoresArguments | task1/src/resource_manager/resmgr.c:157-180 | READ is READ whatever follows, and WRITE takes all that follows for data |
| CommandStream.SetPermByTwoLetters | task1/src/resource_manager/resmgr.c:214-223 | SETPERM is decided by exactly the first two letters of its argument |
| CommandStream.UnknownIff | task1/src/resource_manager/resmgr.c:192-229 | INFO and CLEAR are recognised only whole and with their line end, and a command is unknown exactly when it is neither of them and begins with none of the other three |
| CommandStream.MessageEndsAtNul | task1/src/resource_manager/resmgr.c:135-140 | a message is taken up to its first NUL |
| CommandStream.LongWriteRunsItsTail | task1/src/resource_manager/resmgr.c:133-140 | the end of a longer WRITE is parsed as a command of its own, whatever operation it spells out |
| CommandStream.GluedCommandIff | task1/src/resource_manager/resmgr.c:135-226 | with a second command right behind it, a command is understood if and only if it is recognised by its beginning (READ, SETPERM) or fills the recv by itself without a NUL |
| CommandStream.GluedCommandsMisread | task1/src/resource_manager/resmgr.c:174-208 | INFO and CLEAR with another command behind them are unknown, and WRITE stores the other command as data |
| CommandStream.BothUnderstoodIff | task1/src/resource_manager/resmgr.c:133-140 | two commands that are there together are both understood if and only if the first fills a recv exactly, the second fits the next, and neither holds a NUL |
| Device.WriteTruncates | task1/src/resource_manager/resmgr.c:181-185 | a write appends to the text held, cut off at 4096 bytes of the whole |
| Device.ApplyContents | task1/src/resource_manager/resmgr.c:158-226 | what each operation does to text, size and permission, denied ones nothing, and which reports a count or a clear |
| Device.DeviceMeansHistory | task1/src/resource_manager/resmgr.c:153-230 | the device holds the first 4096 bytes of the permitted payloads since the last permitted clear, its size is the sum of the reported counts, its permission the last one set |
| Device.RepliesMeanHistory | task1/src/resource_manager/resmgr.c:158-227 | every reply is determined by the history of operations as specified independently of the device |
| Device.ReadOnlyKeepsContents | task1/src/resource_manager/resmgr.c:176-207 | while read-only, no run without SETPERM changes buffer or size |
| Device.WriteOnlyYieldsNothing | task1/src/resource_manager/resmgr.c:158-164 | while write-only, every READ is denied and no reply carries contents |
| Device.FlagsMeanHistory | task1/src/resource_manager/resmgr.c:128-145 | OPEN means some session ever connected, BUSY that the last to come or go came |
| ResourceManager.ManagedDevice.OpenSession | task1/src/resource_manager/resmgr.c:128-131 | a session start has the specified effect on the device in place |
| ResourceManager.ManagedDevice.CloseSession | task1/src/resource_manager/resmgr.c:143-145 | a session end clears BUSY and nothing else |
| ResourceManager.ManagedDevice.CopyIn | task1/src/resource_manager/resmgr.c:184-184 | copying the payload changes exactly the bytes it covers |
| ResourceManager.ManagedDevice.Append | task1/src/resource_manager/resmgr.c:174-190 | WRITE on the device in place is the specified truncating append, with its reply |
| ResourceManager.ManagedDevice.ChangePermission | task1/src/resource_manager/resmgr.c:214-226 | SETPERM on the device in place, unknown arguments included |
| ResourceManager.ManagedDevice.HandleCommand | task1/src/resource_manager/resmgr.c:153-230 | any message handled in place has the effect and reply of the operation it parses to; unknown ones change nothing |
| Sessions.CompleteIsApply | task1/src/resource_manager/resmgr.c:128-226 | a critical section run access by access, the byte-wise copy included, does what the operation specifies |
| Sessions.StepInv | task1/src/resource_manager/resmgr.c:123-230 | every access of any session keeps the device on the way of the sequential run |
| Sessions.SessionsAreSequential | task1/src/resource_manager/resmgr.c:153-230 | any interleaving equals a sequential run in lock order: same replies, same device whenever the lock is free |
| Sessions.DeviceHoldsPayloads | task1/src/resource_manager/resmgr.c:174-212 | across all interleavings size is at most 4096 and, with the lock free, the contents are the truncated permitted payloads |
| Sessions.EveryCommandAnsweredOnce | task1/src/resource_manager/resmgr.c:153-230 | every command that took the lock is answered exactly once, by what the history before it calls for, or its session still owes the answer |
| Sessions.OpenNeverLost | task1/src/resource_manager/resmgr.c:128-145 | OPEN stays set through every access of every session |
| Sessions.BusyMeansLive | task1/src/resource_manager/resmgr.c:128-145 | BUSY implies a connected session; with the lock free it is set exactly when the last session to come or go came |
| Sessions.BusyClearedWhileConnected | task1/src/resource_manager/resmgr.c:128-145 | the converse fails: with two sessions BUSY can be clear while one is connected |
| SessionFlags.BusyExactIff | task1/src/resource_manager/resmgr.c:128-145 | in every run of n sessions BUSY tells, whenever the lock is free, whether somebody is connected, if and only if n is at most 1 |
| SessionPermissions.ReadOnlyKeepsDevice | task1/src/resource_manager/resmgr.c:174-212 | once read-only with the lock free, no run of any sessions changes buffer or size at any moment until somebody gets the lock for SETPERM |
| SessionPermissions.WriteOnlyConceals | task1/src/resource_manager/resmgr.c:158-172 | once write-only with the lock free, no session sends any contents, none is answered with them, and every READ answered is denied, until somebody gets the lock for SETPERM |
| SessionBlocking.LockStuckIff | task1/src/resource_manager/resmgr.c:158-170 | none of the sessions that hold or want the lock can move if and only if the holder is writing READ's reply into a socket that is full |
| SessionBlocking.StuckUntilRead | task1/src/resource_manager/resmgr.c:158-170 | then, whatever else happens, the device stays locked and unchanged and everybody waiting goes on waiting until that client reads |
| SessionBlocking.LockCanBeReleased | task1/src/resource_manager/resmgr.c:158-227 | from wherever the lock is held, steps of the holder and reading by its client lead to its release |
| SessionBlocking.SilentReaderLocksOut | task1/src/resource_manager/resmgr.c:158-170 | with two sessions and sockets of any size there is a run in which a client that never reads locks the other one out |
| SocketSizes.PoliteNeverStuckIff | task1/src/resource_manager/resmgr.c:133-170 | when clients read all they were sent before they ask again, the lock is never stuck if and only if a socket holds the 4096 bytes the device does (or nobody connects) |
| SessionHistory.EachSessionInOrder | task1/src/resource_manager/resmgr.c:133-150 | each session takes the lock for what its messages ask in the order received, and is answered once for each message in that order, with at most the last one open |
| SessionHistory.SocketCarriesAnswers | task1/src/resource_manager/resmgr.c:158-229 | a session's socket carries the text of its answers in order, complete but for the part still to be written, and never more unread bytes than it holds |
| SessionReplies.WireSaysHistory | task1/src/resource_manager/resmgr.c:158-229 | the bytes gone to a client are, one for each answer and in order, the truncated payloads themselves for a permitted READ, texts that read back as the count for WRITE and as size, flags and permission for INFO, and literal texts for the rest, all as the history before calls for; so is the text being written |
| ReplyTexts.StatusReadBack | task1/src/resource_manager/resmgr.c:194-197 | reading the three decimal numbers of an INFO reply gives size, flags and permission, in this order |
| ReplyTexts.WrittenReadBack | task1/src/resource_manager/resmgr.c:187-188 | reading the decimal number of a WRITE reply gives the count |
| ClockTime.NsRoundTrip | task2/src/calctime2.c:25-32 | any number of nanoseconds, negative ones included, survives conversion to a timespec and back |
| ClockTime.FromNsNormalisedIff | task2/src/calctime2.c:29-32 | the timespec is normalised if and only if the time is not negative or is whole seconds |
| ClockTime.PartsRoundTripIff | task2/src/sched_fifo_jitter.c:37-43 | a timespec survives conversion exactly when its parts agree in sign and the fraction is below a second |
| ClockTime.DiffIsElapsed | task6/src/jitter_benchmark.c:11-13 | differences of readings are differences of instants and add up along a chain |
| ClockTime.AfterMsIsLater | task2/src/timeout_condvar.c:33-44 | the carry yields the time ms milliseconds later for every ms, normalised if and only if the subtracted milliseconds stay within the second |
| ClockTime.AfterMsIsConversion | task2/src/timeout_condvar.c:33-44 | for non-negative times it agrees with converting the sum |
| ClockTime.TimespecCell.AbsTimeAfterMs | task2/src/timeout_condvar.c:33-44 | the in-place update computes that time |
| ClockTime.TimespecCell.SetNs | task2/src/calctime2.c:29-32 | the in-place conversion computes the timespec of the nanoseconds |
| Periodic.BacklogStep | task2/src/calctime2.c:61-84 | lateness carried over follows max(0, previous + delay + work - period) |
| Periodic.BacklogAtLeast | task2/src/calctime2.c:61-84 | the backlog is at least the total overload of any stretch ending now |
| Periodic.BacklogAttained | task2/src/calctime2.c:61-84 | and it is zero or equals one of these totals |
| Periodic.NoCarryOverIff | task2/src/calctime2.c:61-84 | lateness is the wakeup delay alone throughout if and only if delay and work always fit in the period |
| Periodic.BacklogRecovers | task2/src/calctime2.c:61-84 | after an overrun the backlog shrinks by the slack in every iteration until it is gone |
| Periodic.RelativeDrifts | task2/src/calctime2.c:128-140 | the relative loop's error is the sum of all work and delay so far |
| Periodic.AbsoluteNeverLater | task2/src/calctime2.c:61-140 | under the same conditions the absolute loop wakes no earlier than its deadline and no later than the relative one |
| Periodic.SampleAbsolute | task2/src/calctime2.c:61-84 | sample k is the wakeup less start + k * period, the previous scheduled deadline: the period plus the lateness |
| Periodic.SampleJitter | task2/src/sched_fifo_jitter.c:86-108 | sample k is the wakeup less start + (k + 1) * period, its own deadline |
| Statistics.MinMaxSum | task2/src/calctime2.c:87-92 | from the extreme start values the loop finds minimum, maximum and sum of any int64 samples |
| Statistics.VarianceOf | task2/src/calctime2.c:93-102 | the second pass computes the variance: n squared times it is n times the sum of the squares less the square of the sum |
| Statistics.MeanWithinExtremes | task2/src/calctime2.c:87-93 | min <= avg <= max |
| Statistics.VarianceWithinExtremes | task2/src/calctime2.c:93-102 | 0 <= variance <= (max - avg)(avg - min) |
| Statistics.ShiftMovesMeanOnly | task2/src/calctime2.c:81-102 | adding a constant to every sample shifts min, avg and max and leaves the deviation |
| Statistics.SamplersAgree | task2/src/sched_fifo_jitter.c:106-119 | on the same wakeups calctime2's samples are the jitter samples plus the period, with the same deviation |
| LatencyReports.DeltasTelescope | task2/src/calctime2.c:135-139 | the fallback's deltas add up to last reading minus first |
| LatencyReports.FallbackStats | task2/src/calctime2.c:123-140 | the fallback loop computes its sentinel folds, and a sum that is last minus first |
| LatencyReports.FallbackMeasuresDrift | task2/src/calctime2.c:128-140 | over n relative sleeps the sum is n periods plus all work and delay, and the maximum is a true one |
| LatencyReports.SentinelsHarmlessIff | task2/src/calctime2.c:123-137 | the fallback's minimum (maximum) is the samples' if and only if some sample is at most 999999999 (at least 0) |
| LatencyReports.FallbackExtremesCanBeWrong | task2/src/calctime2.c:123-137 | for every number of samples there are readings for which the reported minimum, and others for which the maximum, is that of no sample |
| LatencyReports.SentinelMinExactIff | task6/src/jitter_benchmark.c:55-69 | the sentinel does no harm: the minimum is the true one unless the smallest latency is -1 and not the last one |
| LatencyReports.MonotonicExtremes | task6/src/jitter_benchmark.c:55-74 | with a clock that does not run backwards both extremes are always right |
| LatencyReports.JitterBenchmark | task6/src/jitter_benchmark.c:54-74 | the measuring loop records the elapsed times and computes minimum, maximum and total, the true ones as the clock is monotonic |
| LatencyReports.CompareIsOrder | task2/src/sched_fifo_jitter.c:29-35 | compare_i64 is antisymmetric, transitive, zero only on equality, and is the order of the integers |
| LatencyReports.SumPermutation | task2/src/sched_fifo_jitter.c:111-118 | sorting does not change the sum |
| LatencyReports.RankIsOrderStatistic | task2/src/sched_fifo_jitter.c:111-114 | the element at any rank of the sorted samples is an order statistic of the original ones |
| LatencyReports.PercentileIsOrderStatistic | task2/src/sched_fifo_jitter.c:114-114 | for any n >= 1 more than 99% of the samples are at most p99 and at least 1% are at least p99, exactly floor(99n/100)+1 and n - floor(99n/100) of them or more |
| LatencyReports.SortSamples | task2/src/sched_fifo_jitter.c:111-111 | the samples end up sorted under compare_i64 and are the same samples |
| LatencyReports.ReportJitter | task2/src/sched_fifo_jitter.c:110-118 | minimum, maximum, sum and p99 reported are those of the samples as taken |
| BurstQueue.StepInv | task2/src/mq_clean_burst.c:29-98 | every step of either thread keeps the queue invariant |
| BurstQueue.NothingLostInQueue | task2/src/mq_clean_burst.c:63-98 | received then queued messages are exactly those accepted, in order; first plus drained never exceeds the burst |
| BurstQueue.FittingBurstInOrder | task2/src/mq_clean_burst.c:29-98 | a burst that fits is received and queued as 0, 1, 2, ... up to the sender's counter |
| BurstQueue.NeverFailsIff | task2/src/mq_clean_burst.c:32-77 | if a signal may end the wait for the first message, or a wait for room, no interleaving makes a send fail if and only if the burst fits the queue |
| BurstQueue.NeverFailsUndisturbedIff | task2/src/mq_clean_burst.c:32-77 | if neither is interrupted, if and only if the burst exceeds the queue by at most one (or the queue holds nothing at all) |
| BurstQueue.StopsWhenEmpty | task2/src/mq_clean_burst.c:81-98 | the drain has received all that was accepted before it stopped, and what is queued afterwards came later |
| BurstQueue.DrainMayStopEarly | task2/src/mq_clean_burst.c:86-89 | a drain faster than the sender stops after the first message with the burst unfinished |
| BurstQueue.DrainsAllIff | task2/src/mq_clean_burst.c:63-98 | without a signal during the first receive, every drain that ends has the whole burst if and only if the burst is at most one message or the queue holds nothing at all; with one, if and only if the burst is empty |
| BurstQueue.DrainTerminates | task2/src/mq_clean_burst.c:63-98 | the receiver takes at most burst + 3 steps besides interrupted reads, and never blocks after the switch |
| BurstQueue.BothThreadsEndIff | task2/src/mq_clean_burst.c:29-101 | a run has at most 2 * burst + 3 steps besides interrupted reads, and until both threads are done one of them can move if and only if burst and capacity are at least 1 |
| BurstQueue.Programs.SendNext | task2/src/mq_clean_burst.c:29-39 | a send on the queue in place is the model's step; into a full queue it waits or fails depending on the shared flag, and a signal ends the wait |
| BurstQueue.Programs.ReceiveNext | task2/src/mq_clean_burst.c:63-98 | a receive on the queue in place is the model's step, interruptions included |
| BurstQueue.Programs.Interleave | task2/src/mq_clean_burst.c:29-98 | under any schedule nothing in the queue is lost |

## Left out

- PoolAllocator.PoolFree: takes the number of the block as a ghost argument; that the block is live is left to the caller, as in the source, and FreeKeepsAListIff shows the condition is exact.
- PoolAllocator.BenchmarkMempool: the clock readings around each allocation and their maximum are not modelled; the measuring pattern is that of LatencyReports.JitterBenchmark.
- pool_destroy, mlock and the alignment of blocks are not modelled: they do not touch the list.
- The overflow of the size product in pool_create is excluded by the caller, as the source leaves it.
- ShmRing.NeverDeadlocks: assumes fresh kernel objects and semaphore waits that are not interrupted; both programs ignore the result of the wait.
- shm_open, ftruncate, mmap and the printing of each item are not modelled.
- CondVar.TransitionsFollowCycle: cnt is unbounded; C's int would overflow after 2^31 visits to state 1.
- MutexCounters.CountersAgree: counters are unbounded integers, as signed overflow has no meaning in C; the mutex call itself is one step, also for cancellation.
- RacyCounters.RacesOnlyLose: each load and each store is atomic and in program order, as on a single volatile int.
- main of prodcons.c is not modelled: local variables there hide the thread functions' names.
- Sessions.SessionsAreSequential: a write that fails because the client has closed its end, and the signal that raises, are not modelled; a write takes the bytes of a reply one by one as the socket has room, and what a client sends reaches the server in messages of at most 1023 bytes cut anywhere.
- Periodic.SampleAbsolute: failing clock calls, which end the program, are not modelled; a sleep interrupted by a signal is retried with the same absolute time and so counts as part of the delay.
- Periodic.RelativeDrifts: a relative sleep cut short by a signal is not modelled; FallbackStats covers arbitrary readings.
- Statistics.VarianceOf: reals instead of doubles, and the variance instead of its square root.
- LatencyReports.SortSamples: stands in for qsort; only sortedness and the samples staying the same matter.
- ClockTime.NsRoundTrip: int64 overflow beyond 292 years is not modelled.
- BurstQueue.DrainTerminates: errors of mq_receive other than an empty queue or an interruption are not modelled.
- The traffic controller, priority inversion, epoll, poll, timerfd, input devices, signals and the message-queue client and server are not modelled: the controller's table has one state filled in, the inheritance protocol is the kernel's, the client waits for each answer before it sends again, and the others hand over to one system call each.

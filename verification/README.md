# RACoherence: a verified model

RACoherence keeps cache lines coherent on CXL memory without hardware coherence between nodes. A thread
remembers the lines it dirties in a small table; at a release it writes them back and publishes them as a log on
the ring of its node, and its vector clock learns the index of that log. Locks, atomics and the barrier carry
clocks from thread to thread. At an acquire a thread waits until its node has invalidated everything that the
acquired clock requires, helping the cache agent of the node if need be.

This project models that runtime in Dafny and proves what it promises. `dafny verify dfyconfig.toml` checks all
of it. It covers the default configuration: the local line table, eager invalidation, inline caching and helping
consumers on; eager writeback and delayed publishing off. Node count, thread count, ring size, table size, the
set of lines and the size of a line (in `Tracker`: 64 bytes) are arbitrary.

There are two kinds of files.

*Step machines, for everything that interleaves.* Each shared load, store, exchange, flush or lock operation is a
step; any thread, cache agent or cache may take the next one. `Possible` says what the code can do next, `Apply`
does it, `Inv` is the invariant, and the theorems quantify over all runs.

- `Clocks`, `Broadcast`: clocks as values, and the log of a node as an unbounded sequence of slots.
- `Protocol`: nodes with caches that prefetch and evict at any time, threads, consumers, memory. `Progress`,
  `Threads`, `Waiting` and `Coherence` are the layers of its invariant; `CoherenceTheorems` the results for runs
  in which every access is race free in the sense of a check on the state; `HappensBefore` and `RaceFreedom` the
  same for programs that are race free by happens-before, tracked along with the run; `Order` and `ClockOrder` for
  programs that are race free by an order read off the list of steps, which clocks and knowledge follow; `ByReference` is about the locks, which hand their
  acquires a clock that others may be changing, and `Overshoot` a run in which that goes wrong.
- `Ring`, `RingSafety`, `RingTheorems`: the bounded ring with buffer reclamation behaves like `Broadcast`.
- `Freelist`, `FreelistTheorems`: the single-producer, multi-consumer queue of free buffers.
- `McsLock`, `McsTheorems`; `CxlMutex`; `CxlSharedMutex`, `SharedUnlocks`; `Barrier`, `BarrierTheorems`: the locks
  and the barrier.

*Objects, in the form of the code.* Classes with its fields, arrays and loops, proved against the same machines,
clocks and sequences, or against plain sets of lines.

- `VectorClocks`; `ClGroup`, `LocalTable` (the packed table); `Words`, `Decode`, `LineLogs` (the writeback and the
  invalidation loops, and what they flush in plain numbers); `ThreadStores` (`log_store`, `write_to_log`, `thread_release`); `BoundedQueue`, `LogRing`
  (`LogManager` with its collection); `NodeConsumer` (cache agent, `help_consume`, `thread_acquire`); `Tracker`.
- `McsObject`, `MutexObject`, `SharedMutexObject`, `BarrierObject`: whole operations of the locks and the barrier.
  Between any two of their steps stands a call of `Interfere`, whose contract allows other threads any steps; the
  proofs use nothing else about it.

`Pigeonhole` holds counting facts and the slots of a ring.

Some properties one might expect are false of the code. For each there is the input and the exact condition:

- The clock of a thread need not stay within the cache clock of its node: the locks pass their live clock by
  reference, and in `lock_shared` another reader may overwrite it between the wait and the merge
  (`Overshoot.LockSharedOvershoots`). It stays within, and so does whatever an open acquire may still merge of what
  it has waited for, exactly as long as no store to a location puts a value that the node has not consumed into an
  element that an open acquire has already waited for (`ByReference.SafeIffNoneUnsafe`). In particular it does while
  nobody stores to a location during an acquire of it by reference, as in `CXLMutex::lock` and in the exclusive
  phase of `CXLSharedMutex::lock` (`CxlMutex.LockerMergesStable`, `CxlSharedMutex.WriterMergesStable`); the thread
  clock is then also good enough to judge race freedom by (`ByReference.ClockRunsAreCoherent`). The other coherence
  theorems do not depend on it: they judge race freedom by what a thread has really waited for.
- A shared unlock may be lost (`SharedUnlocks.SharedUnlockLost`). Shared unlocks write their clocks element by
  element and may overlap in any way; what a reader published is still on the lock exactly if each element was last
  written, counting from the beginning of that unlock, with a value at least as large
  (`SharedUnlocks.UnlockKeptIff`).
- The barrier lets somebody through exactly if there are at most 128 participants, because its counter comes back
  through a `char` (`BarrierTheorems.SomeoneLeavesIff`).
- Stores can be lost to a release. Line 0 apart, a stored line is recorded exactly if its address has at most 48
  bits; and a release publishes exactly if the last store before it was not to line 0, which `recent_cl` takes for
  "nothing stored" (`ThreadStores.ThreadOps.LogStore`, `ThreadRelease`).
- A range invalidation ends at the last whole line before `end`; a line that `end` cuts is left alone. In a range of
  more than 2^39 bytes only the first of the lines that share a bit is invalidated.

## Model

| member | source | states |
|---|---|---|
| Clocks.MergeIsJoin | include/vectorClock.hpp:39-44 | merge is the least upper bound of the clock order |
| VectorClocks.VectorClock.Assign | include/vectorClock.hpp:34-37 | one component changes, the others stay |
| VectorClocks.VectorClock.MergeWith | include/vectorClock.hpp:39-44 | the loop computes the join in place, also when a clock is merged with itself |
| VectorClocks.VectorClock.IsLeq | include/vectorClock.hpp:56-62 | the early-return loop decides the order exactly |
| VectorClocks.VectorClock.IsLess | include/vectorClock.hpp:46-54 | the loop with the flag decides the strict order exactly |
| Broadcast.LastReleaseIsLargest | src/cacheAgent.cpp:20-47 | the clock for a position of a ring is the largest index of a committed release log up to it |
| Progress.StepTracks | include/threadOps.hpp:132-153 | every step keeps each node's clock exactly in step with what it has consumed of each ring, for agent and helpers alike, and a committed slot never changes |
| Progress.StepAdvances | include/cacheInfo.hpp:102-104 | plain stores by agent and helpers never move a cache clock or a head back |
| Progress.ClockIsExact | src/cacheAgent.cpp:15-50 | with the head mutex free, the clock of a ring is the largest release index among the consumed logs |
| Threads.StepPcs | include/threadOps.hpp:45-94 | during write_to_log the thread's table, log slot and progress agree, and no two threads share a reserved slot |
| Threads.StepGenuine | include/threadOps.hpp:183-220 | every component of every thread and location clock is 0 or the index of a committed release log of that node |
| Threads.ThreadClockAdvances | include/threadOps.hpp:207-220 | no step lowers a component of a thread clock |
| Waiting.SeenIsConsumed | include/threadOps.hpp:110-161 | a thread never counts as waited for more than its node has really consumed |
| Coherence.VisibleIsLatest | include/threadOps.hpp:212-253 | under the race-freedom check, what an access finds in the cache or in memory is what was stored last anywhere |
| Coherence.OnlyDirtyHere | include/threadOps.hpp:222-253 | under the same check no other node holds the line dirty |
| Coherence.CommitNotice | include/logManager.hpp:209-216 | at the commit the notice of a line moves from the table to the log without a gap |
| Coherence.StepKeepsInv | include/threadOps.hpp:45-253 | every store, writeback, reserve, commit, clear, invalidation, head move, clock store, prefetch and eviction keeps the coherence invariant |
| CoherenceTheorems.AccessesAreCoherent | include/threadOps.hpp:183-253 | in every run each load returns, and each store works on, the content of one reference memory |
| CoherenceTheorems.LatestIsReference | include/threadOps.hpp:222-253 | the content called latest is the reference memory computed from the stores of the run alone |
| CoherenceTheorems.StaleImpliesNotice | include/cacheInfo.hpp:66-100 | in every reachable state a stale copy is clean and its line is in an unpublished table of another node or in a log not yet processed here |
| CoherenceTheorems.StaleMemoryIsOwned | include/threadOps.hpp:56-79 | memory is stale only while some node holds the line dirty with the latest content |
| CoherenceTheorems.ClocksNeverGoBack | src/cacheAgent.cpp:41-47 | over whole runs heads and cache clocks only grow |
| HappensBefore.HbRaceFreeIsRaceFree | include/threadOps.hpp:212-220 | if all stores of other nodes to a line happen before an access, the access passes the protocol's race-freedom check |
| RaceFreedom.StepKeepsHb | include/cxlSync.hpp:79-118 | every step keeps the clocks truthful about happens-before: a clock component covers every log of the stores it claims to know |
| RaceFreedom.RaceFreeRunsAreCoherent | include/threadOps.hpp:183-253 | programs that are race free by happens-before see one coherent memory in every run |
| RaceFreedom.NoStoreIsLost | include/threadOps.hpp:183-210 | every stored line is in the table or in a committed log of the thread, and once released all of them lie below the own clock component |
| RaceFreedom.LoggedIsHeld | include/threadOps.hpp:56-67 | the log that stands for a store names its line |
| RaceFreedom.RecentIsInTable | include/threadOps.hpp:222-247 | a non-zero recent_cl is in the table, and it is zero exactly when the table is empty |
| RaceFreedom.AcquireJoinsAll | include/threadOps.hpp:212-220 | where nobody stores to a location during an acquire of it by reference, the acquire joins all that happened before the stores to the location |
| Order.OrderedRunsAreCoherent | include/threadOps.hpp:183-253 | with happens-before read off the steps alone (program order, and publish to acquire): if it orders every access after all stores to its line from other nodes, the run sees one coherent memory |
| Order.BeforeKnows | include/cxlSync.hpp:79-140 | what a thread knows of stores when it publishes, by assignment or by merging, every thread later in that order knows |
| ClockOrder.ClocksFollowOrder | include/cxlSync.hpp:79-140 | the clock of a thread is at least that of every thread at any step earlier in that order |
| ByReference.SafeIffNoneUnsafe | include/cxlSync.hpp:294-335 | over whole runs: thread clocks, and what open acquires may still merge of what they waited for, stay within the cache clocks exactly while no store to a location overtakes an open acquire |
| ByReference.UndisturbedStaysWithin | include/cxlSync.hpp:224-236 | over whole runs, acquires by reference included: while nobody stores to a location that is being acquired by reference, no thread clock exceeds the cache clock of its node |
| ByReference.ClockRunsAreCoherent | include/threadOps.hpp:183-253 | under the same condition, race freedom judged by the real thread clock suffices for coherence |
| ByReference.FinishWithinIff | include/vectorClock.hpp:39-44 | a merge, from any element on, ends within the cache clock exactly if it began so and every element it still reads has been consumed |
| Overshoot.LockSharedOvershoots | include/cxlSync.hpp:294-305 | a run to a state in which a reader's clock vouches for a log its node has not consumed, with the stale line still cached |
| RingSafety.StepKeepsInv | include/logManager.hpp:109-216 | every step of producers, collector and subscribers keeps the ring invariant, conservation of buffers included |
| RingSafety.RoomToClaim | include/logManager.hpp:209-212 | a producer that holds a buffer always finds a free slot |
| RingSafety.CollectedIsCommitted | include/logManager.hpp:138-145 | the freeing loop only reads slots that are committed and not reused |
| RingTheorems.DeliveredIsProduced | include/logManager.hpp:218-234 | what a subscriber has consumed is a prefix of what was produced, in tail order: nothing skipped, repeated or overwritten |
| RingTheorems.DeliveredIsWritten | include/logManager.hpp:44-47 | over whole runs, told from the steps alone: what a subscriber has received is the first logs in claim order, each with the items its producer wrote since it reset the buffer |
| RingTheorems.StepRefinesBroadcast | include/logManager.hpp:208-234 | each step of the bounded ring is one step of the unbounded broadcast sequence or none |
| RingTheorems.TakeHeadIsExact | include/logManager.hpp:219-227 | take_head answers exactly whether the slot at the head is committed |
| RingTheorems.WritersAndReadersApart | include/logManager.hpp:183-206 | no buffer is reset or written while a subscriber still has to read it |
| RingTheorems.CollectionIsSafe | include/logManager.hpp:109-148 | the assertion of perform_gc holds, the window fits the ring, nothing needed is freed, and a freed slot still shows the log it was read for |
| RingTheorems.NoWrap | include/logManager.hpp:97-107 | no 32-bit index computed by the code wraps while tail is two rounds below 2^32 |
| RingTheorems.AllPublished | include/logManager.hpp:183-206 | with nothing free and nothing held, all buffers are published |
| RingTheorems.CollectionFrees | include/logManager.hpp:109-148 | whatever happens meanwhile, a collection stores at least the bound that the heads allowed when it began, and frees every buffer up to it |
| RingTheorems.NeverStuck | include/logManager.hpp:183-206 | over whole runs an empty freelist never deadlocks: the collection that follows frees a buffer, or some subscriber had a committed log to consume |
| LogRing.LogManager.constructor | include/logManager.hpp:152-158 | a new manager has every buffer in the freelist |
| LogRing.LogManager.NextBound | include/logManager.hpp:109-123 | the scan finds the largest bound that no subscriber objects to, and it is the old one exactly when some subscriber stands still |
| LogRing.LogManager.PerformGc | include/logManager.hpp:109-148 | exactly the published buffers before the new bound move to the freelist, oldest first; each buffer stays in exactly one place |
| LogRing.LogManager.GetNewLog | include/logManager.hpp:183-206 | fails exactly when nothing is free and some subscriber consumed nothing since the last collection; else an empty buffer that no published log uses |
| LogRing.LogManager.Write | include/logManager.hpp:44-47 | appends one entry to a held buffer and touches no published log |
| LogRing.LogManager.ProduceTail | include/logManager.hpp:209-216 | appends the buffer's content to the broadcast sequence and returns its length |
| LogRing.LogManager.TakeHead | include/logManager.hpp:219-227 | the next log in tail order, or nothing exactly at the end |
| LogRing.LogManager.ConsumeHead | include/logManager.hpp:230-234 | moves one head by one, past logs that exist |
| FreelistTheorems.StepRefinesQueue | include/spmcQueue.hpp:24-76 | releasing a filled cell appends its value, winning the compare-exchange takes the first value, no other step changes the queue |
| FreelistTheorems.QueueIsTheRest | include/spmcQueue.hpp:24-76 | over every run the queue is what was enqueued without what was dequeued |
| FreelistTheorems.DequeueIsFifo | include/spmcQueue.hpp:51-76 | dequeue number p returns the value of enqueue number p, and nobody else has that number |
| FreelistTheorems.ReturnsInOrder | include/spmcQueue.hpp:51-76 | told from the steps alone: a dequeue returns the argument of the enqueue whose number is the number of compare-exchanges won before its own |
| FreelistTheorems.WinsAreNumbered | include/spmcQueue.hpp:63-66 | the position won is the number of dequeues so far |
| FreelistTheorems.WonValueStays | include/spmcQueue.hpp:47-48 | a cell is not overwritten before its claimant has read it |
| FreelistTheorems.FalseMeansEmpty | include/spmcQueue.hpp:58-68 | dequeue gives up only if the queue was empty when it read the cell |
| FreelistTheorems.RefusalMeansBusy | include/spmcQueue.hpp:30-46 | enqueue gives up exactly when the value one round earlier is still queued or being read, and never has to reload |
| BoundedQueue.Queue.Enqueue | include/spmcQueue.hpp:24-50 | without interference: appends, and fails exactly when full |
| BoundedQueue.Queue.Dequeue | include/spmcQueue.hpp:51-76 | without interference but with spurious failures: takes the first, and fails exactly when empty |
| McsLock.StepKeepsInv | include/mcsLock.hpp:33-118 | tail, next and locked always represent one queue with the holder at its head |
| McsTheorems.MutualExclusion | include/mcsLock.hpp:33-84 | from grant to hand-over a thread is alone, and owner names its node |
| McsTheorems.ServedInOrder | include/mcsLock.hpp:37-39 | the lock is granted in the order of the tail exchanges and won compare-exchanges |
| McsTheorems.AccessesAreLive | include/mcsLock.hpp:86-117 | every node access is to an allocated node |
| McsTheorems.FreedIsUnreachable | include/mcsLock.hpp:113-117 | a deallocated node is out of reach of every other thread |
| McsTheorems.SomeoneCanMove | include/mcsLock.hpp:68-84 | while anyone is queued, the head or the thread it waits for can move on |
| McsObject.MCSLock.Lock | include/mcsLock.hpp:33-46 | with arbitrary steps of others between its own, lock comes back as the only holder, owner naming its node, or patience runs out while its node is locked |
| McsObject.MCSLock.TryLock | include/mcsLock.hpp:91-111 | under the same interference: either the only holder, or outside with the node freed, and then the lock was taken at some moment of the call |
| McsObject.MCSLock.Unlock | include/mcsLock.hpp:68-84 | under the same interference: the lock is passed on or free, and the node freed |
| McsObject.OthersInterfere | include/mcsLock.hpp:33-118 | every step of another thread keeps what the interference above is allowed to do |
| CxlMutex.LockerDominates | include/cxlSync.hpp:224-251 | a locker dominates the clock of every earlier unlock, although unlock overwrites the clock |
| CxlMutex.LockerMergesStable | include/cxlSync.hpp:224-236 | nobody stores to the clock of the lock while a locker merges it by reference |
| MutexObject.CXLMutex.Lock | include/cxlSync.hpp:224-236 | with arbitrary steps of others in between, a locker is alone and dominates all clocks published so far; patience runs out only while the lock is taken |
| MutexObject.CXLMutex.UnlockWith | include/cxlSync.hpp:238-251 | unlock publishes exactly the thread clock, and earlier publications stay on record |
| MutexObject.OthersInterfere | include/cxlSync.hpp:224-255 | every step of another thread keeps what the interference above is allowed to do |
| CxlSharedMutex.ReaderWriterExclusion | include/mcsLock.hpp:130-167 | a writer past its spin loop excludes all others, and active_readers counts exactly the readers inside |
| CxlSharedMutex.LastWriterDominated | include/cxlSync.hpp:276-335 | the clock of the lock, and every later locker, dominates the last exclusive unlock, whatever shared unlocks overwrite |
| CxlSharedMutex.WriterMergesStable | include/cxlSync.hpp:276-292 | nobody stores to the clock of the lock while a writer merges it by reference |
| SharedUnlocks.UnlockKeptIff | include/cxlSync.hpp:322-335 | over whole runs and any overlap of shared unlocks: a reader's clock is still on the lock exactly if the last write of each element since its unlock began was at least as large |
| SharedUnlocks.UnlockStays | include/cxlSync.hpp:322-335 | it stays as long as everyone who writes to the lock knows as much, and exclusive holders then dominate it |
| SharedUnlocks.LastSharedUnlockWins | include/cxlSync.hpp:322-335 | of two shared unlocks one after the other, the second leaves its clock, and the first one's exactly if dominated |
| SharedUnlocks.SharedUnlockLost | include/cxlSync.hpp:322-335 | a run in which two readers unlock one after the other and the release of the first is lost |
| SharedMutexObject.CXLSharedMutex.LockShared | include/cxlSync.hpp:294-305 | with arbitrary steps of others in between, a reader meets no writer and dominates the last exclusive unlock |
| SharedMutexObject.CXLSharedMutex.Lock | include/cxlSync.hpp:276-292 | after its shared phase and its drain a writer is alone, no reader is counted, and it dominates the clock of the lock |
| SharedMutexObject.CXLSharedMutex.UnlockSharedWith | include/cxlSync.hpp:322-335 | the reader leaves, having written each element of its clock to the lock; each element of the lock is what was last written to it, by whomever |
| SharedMutexObject.CXLSharedMutex.UnlockWith | include/cxlSync.hpp:307-320 | the lock is left with exactly the clock of the writer |
| SharedMutexObject.OthersInterfere | include/cxlSync.hpp:276-335 | every step of another thread keeps what the interference above is allowed to do |
| Barrier.CharOfWrap | include/cxlSync.hpp:106-111 | a phase read through a char differs from the next one for any number of rounds, wrap-around included |
| Barrier.StepKeepsInv | include/cxlSync.hpp:356-368 | every step of wait keeps rounds, counter and clocks consistent |
| BarrierTheorems.NobodyLeavesEarly | include/cxlSync.hpp:356-368 | nobody leaves its k-th wait before everyone arrived for the k-th time |
| BarrierTheorems.LeaversDominate | include/cxlSync.hpp:124-131 | a leaver's clock dominates every participant's clock at arrival |
| BarrierTheorems.NeverAllSpinning | include/cxlSync.hpp:364-366 | never do all participants, 128 at most, spin on the current phase |
| BarrierTheorems.SomeoneLeavesIff | include/cxlSync.hpp:356-368 | some run lets somebody leave exactly if there are at most 128 participants |
| BarrierObject.CXLBarrier.Wait | include/cxlSync.hpp:356-368 | with arbitrary steps of others in between: arrives once, with at least the released clock; whoever leaves has been joined by everyone and dominates all their arrivals |
| BarrierObject.OthersInterfere | include/cxlSync.hpp:356-368 | every step of another thread keeps what the interference above is allowed to do |
| ClGroup.PositionsAreBits | include/clGroup.hpp:102-137 | the reference order of positions has exactly the set bits |
| ClGroup.ClearLowest | include/clGroup.hpp:116-120 | the step of the mask iterator removes exactly the first position |
| ClGroup.ExtendedEntry | include/clGroup.hpp:38-48 | adding a mask keeps an entry a mask entry of its group |
| ClGroup.ExtendedBits | include/localCLTable.hpp:83-86 | adding a mask adds exactly its positions |
| ClGroup.AddressFits | include/clGroup.hpp:23-26 | exactly the 48-bit addresses have a group index that fits the packed entry |
| LocalTable.LocalCLTable.InsertMask | include/localCLTable.hpp:77-92 | fails exactly when the index does not fit or all probes belong to other groups, and then changes nothing; else one entry is extended |
| LocalTable.LocalCLTable.Insert | include/localCLTable.hpp:101-117 | a successful insert adds exactly its line to the set; entries keep distinct groups and gap-free probes |
| LocalTable.InsertAdds | include/localCLTable.hpp:77-92 | the same on the table as a sequence: one entry per group, no gaps, exactly one more line |
| LocalTable.NoEntryBeyond | include/localCLTable.hpp:80-89 | where the probing loop stops at an empty entry, the group has no other entry |
| LocalTable.EmptyAccepts | include/threadOps.hpp:244-247 | a table without lines rejects a line exactly when its address has more than 48 bits |
| LocalTable.LocalCLTable.ClearTable | include/localCLTable.hpp:229-232 | all entries are zero and the set is empty |
| Decode.DecodeMask | include/cacheInfo.hpp:90-93 | the iterator loop and its inner loop yield the hardware lines of the mask in ascending order, for every line expansion |
| Words.Shifted | include/clGroup.hpp:42-44 | a shift that loses no bit multiplies by a power of two |
| Decode.LengthEntryLines | include/clGroup.hpp:30-44 | in plain numbers: a length entry stands for the aligned addresses of its groups, from group index to index plus length |
| Decode.LineSize | include/config.hpp:20-22 | a line is CL_EXPAND_FACTOR hardware lines, and a group 16 lines |
| Decode.WriteBack | include/threadOps.hpp:69-77 | the producer's loops flush exactly the hardware lines of an entry, in order, for every line expansion |
| Decode.Invalidate | include/cacheInfo.hpp:72-93 | the consumer's loop, 32-bit counter included, flushes the same lines, or everything exactly for entries from the threshold on |
| Decode.BelowThreshold | include/config.hpp:46 | below the threshold the counter stays under 2^28 |
| LineLogs.WriteEntries | include/threadOps.hpp:56-79 | the log is the non-zero entries of the table, fits a log, and all its lines are written back |
| LineLogs.ProcessLog | include/cacheInfo.hpp:66-100 | the consumer invalidates exactly the lines of the log, or everything exactly if it holds an over-long entry |
| LineLogs.TableLog | include/threadOps.hpp:56-67 | the log of a table holds exactly the lines of the table |
| LineLogs.LogLinesExact | include/clGroup.hpp:102-137 | in plain numbers: what is flushed for such a log is exactly the aligned addresses within the lines stored |
| LineLogs.MaskEntryLines | include/clGroup.hpp:102-137 | the same for one mask entry |
| LineLogs.LineSpanIs | include/config.hpp:20-22 | the hardware lines of line number l are the aligned addresses from l times the line size up to the next line |
| ThreadStores.ThreadOps.WriteToLog | include/threadOps.hpp:45-94 | publishes exactly the table's lines in one log, after writing back every hardware line of every one of them, and leaves every line since the release in a log |
| ThreadStores.ThreadOps.LogStore | include/threadOps.hpp:222-253 | for every address: of the lines stored so far, line 0 apart, exactly those of 48-bit addresses are recorded in table or logs, whether the fast path, the table or the overflow branch is taken |
| ThreadStores.ThreadOps.ThreadRelease | include/threadOps.hpp:183-210 | publishes exactly if recent_cl is not 0, and only after the writebacks; then all recordable lines are in logs of index at most the new own clock component, else nothing changes |
| NodeConsumer.Node.ConsumeOne | include/threadOps.hpp:142-147 | one log is processed and its head moves by one |
| NodeConsumer.Node.HelpRing | include/threadOps.hpp:138-153 | terminates though others may change the target meanwhile, with the clock exact and at least the target as last read; with a fixed target it stops with head and clock exactly there, or changes nothing |
| NodeConsumer.Node.RunBatch | src/cacheAgent.cpp:20-47 | at most a batch, fewer only at an uncommitted slot; the clock stays exact and a batch without a release leaves it alone |
| NodeConsumer.Node.HelpConsume | include/threadOps.hpp:110-161 | every remote clock ends at or beyond the target as last read, and with a fixed target at the larger of itself and the target, whichever try_lock calls fail; the cache has lost the lines of exactly the logs passed on the way |
| NodeConsumer.Node.ThreadAcquire | include/threadOps.hpp:212-220 | with others storing to the location at any time: no line of a log below what was waited for is left in the cache, the thread clock joins what the merge read, and stays within what the node has consumed exactly if all of that is consumed; if nobody stores, it becomes the join, stays within, and no line of a log below the location clock is left |
| NodeConsumer.NothingStaleIsLeft | include/cacheInfo.hpp:66-100 | after consuming, no line of a consumed log is cached |
| NodeConsumer.ConsumesExactly | include/cacheInfo.hpp:66-100 | logs made from tables take exactly their own lines out of the cache |
| Tracker.SplitParts | include/clTracker.hpp:245-251 | the three indices of an address belong to its leaf number |
| Tracker.IdIff | include/clTracker.hpp:245-251 | two addresses share a bit exactly if their lines are a multiple of 2^33 lines apart |
| Tracker.CacheLineTracker.MarkDirty | include/clTracker.hpp:102-106 | set insertion |
| Tracker.CacheLineTracker.IsDirty | include/clTracker.hpp:114-122 | set membership |
| Tracker.CacheLineTracker.ClearDirty | include/clTracker.hpp:209-217 | set removal |
| Tracker.CacheLineTracker.InvalidateIfDirty | include/clTracker.hpp:124-138 | invalidates the address and clears its bit exactly if it was dirty |
| Tracker.RangeMask | include/clTracker.hpp:166-182 | the computed word has exactly the lines of the range |
| Tracker.FlushedLines | include/clTracker.hpp:192-199 | the bit loop flushes a line exactly if its bit is set |
| Tracker.CacheLineTracker.InvalidateRangeIfDirty | include/clTracker.hpp:141-207 | for every range: terminates, invalidates each dirty line of the range once, the first one where several share a bit, clears exactly those bits, and says whether there were any |

## Left out

- Hardware memory ordering: flushes take effect when issued, and the atomics are sequentially consistent steps.
- The range-store path (range_insert, insert_length, try_coalesce, log_range_store): it does not cover its range as written, so length entries appear only in decoding.
- The lazy branch of process_log, get_mask16_to_64_shift and mark_dirty with a mask: the shift is not the group's place in a leaf.
- Dynamic subscription and the no-subscriber branch of perform_gc: the subscribers are all other nodes, at least one of them.
- The other builds (LOCAL_CL_TABLE=0, DELAY_PUBLISH, EAGER_WRITEBACK, CONSUME_HELP_IN_LOCK, PROTOCOL_OFF, LOCATION_CLOCK_MERGE) and the relaxed wrappers; Publish with merge covers the merging store of fetch_add.
- clhLock.hpp, clh_rwlock.hpp, the allocators, runtime start-up, instrumentation, benchmarks and statistics.
- McsObject.MCSLock.Lock: spins a given number of times and then gives up, as do Unlock and the operations of the other locks and the barrier; that a wait ends is not proved, only that somebody can always move.
- Freelist.StepKeepsInv: the lock-free queue and the ring exist under interference only as step machines; their object classes are run by one caller at a time.
- The step machines of the protocol and of the ring and the object classes are connected through the same clocks, sequences and sets, not by one refinement proof.
- In the ring machine the freelist is a FIFO queue and the collection mutex atomic; Freelist and McsLock are about those.
- In the step machines lines are numbers from 1 on and every line can be logged; ThreadStores is about line 0 and long addresses.
- NodeConsumer.Node.ThreadAcquire: others may store to the location meanwhile, but the rings are fixed and no one else consumes for the node; that is in the step machines.
- Indices and clocks are unbounded numbers; NoWrap says how far 32 bits suffice, and nothing is said after a wrap.
- LocalTable.LocalCLTable.InsertMask: the probe position is a remainder, which is the mask of the code for a table size that is a power of two.
- Tracker.CacheLineTracker.MarkDirty: tables are maps, a missing key standing for a null pointer; the compare-exchange race for creating a leaf is not modelled.
- VectorClock::tick and update_clock_monotonic, which the protocol does not use.

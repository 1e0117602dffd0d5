# Chunos, modelled and proved

Chunos is a small kernel for 32-bit x86 and ARM boards. This project models the parts of it
that hold state in clever ways - priority queues with ageing, intrusive rings, a buffered file
cursor, an on-disk layout shared with a build tool, a slab and a page allocator, boot-time
carving of physical memory, and a two-level page table - and proves what each keeps over every
run, what it computes, and where it falls short.

Each component comes in two layers. Functions over values say what one operation does to the
state, and lemmas carry invariants, bounds and refinements over whole runs of operations.
Classes with the source's own fields and arrays, updated step by step, are proved to compute
exactly those functions, so that the lemmas are about the code in place. Ring traversals are
proved on real pointers (`Ring`), and so is the mutex, whose list operations may also meet nodes
in the wrong place (`RingLinks`, `RingNodes`); where the scheduler loops over a ring, the in-place
methods loop over the sequence it stands for.

| files | component |
|---|---|
| `Lists`, `Ring` | sequences without repetition; the circular doubly linked list on real pointers |
| `RingLinks`, `RingNodes` | every node's two pointers as values, on the ring or not, and what list operations make of them; the same on real pointers |
| `Sched`, `SchedInvariant`, `SchedEffects`, `SchedWaiting`, `SchedTimeout`, `SchedKernel` | scheduler: steps, run invariant, what each step does to every task, bounded waiting, exact timeouts, the code in place |
| `Mutex`, `MutexRing`, `MutexWitness`, `MutexKernel` | lock, timeout, unlock and kill as atomic steps among the scheduler's: ownership, the wait ring, runs that leave none, the code in place |
| `Chain`, `Vfs` | a file as a chain of blocks; read, seek and write through one buffer |
| `LmfsDisk`, `MkLmfs`, `LmfsNode`, `LmfsReader`, `LmfsPool` | the LMFS image: writer, file node, reader, free-block pool |
| `Slab`, `SlabKernel` | the slab allocator |
| `Bitops`, `PageAlloc`, `PageBank`, `PageRuns`, `PageKernel` | bitmaps and their search; sections, zones and runs of the page allocator |
| `Regions`, `BringUp` | memory bring-up |
| `PageTable`, `PageTableRuns`, `PageTableKernel` | page directory and page tables against a flat map and the processor's own walk |

The context switch is `current := next_run`; interrupts happen between steps. The page
allocator's answers to the slab and to the page tables, and the pages' contents before they are
cleared, are parameters. Integers are unbounded except where the source's width shows: the 16-bit
run length of a page descriptor, the 32-bit words of bitmaps, disk blocks and page table entries,
and the signed 32-bit sizes of region insertion are written out.

Where the code does not do what its surroundings expect, the model keeps the code, and a member
states when it does, in terms a caller can check:

- A read leaves the buffer on the wrong block exactly when it starts inside a block and ends on a
  boundary, a write exactly when it ends on a boundary (`Vfs.File.Read`, `Vfs.File.Write`,
  `Vfs.StaleAfterBoundary`).
- `sched()` leaves the current task running unless it was readied between its suspend and its
  switch and is chosen again; a timeout is lost that way (`SchedTimeout.YieldSettles`,
  `SchedTimeout.LostTimeout`).
- Every list operation on the wait ring of a mutex leaves the ring it should if and only if no waiter
  links a node that is on the ring, and none unlinks a node that is off it unless the node's two
  pointers lead to neighbours on the ring or both off it (`MutexRing.RingStaysWhole`). For a waiter
  that returns from its suspend this fails exactly if it slept through, an unlock met it all the
  same, and the node that followed it then is not the first any more
  (`MutexRing.ReturnKeepsRing`). What is left otherwise, a shorter ring or none, is in
  `MutexRing.UnfairLeaves`; `MutexWitness.RingBreaks` gives two runs from boot that leave none.
- The bitmap search never returns exactly when it starts on the last of several bits and finds
  nothing; the page allocator can put its cursor there (`Bitops.SearchHangs`,
  `PageRuns.NextRequestHangs`).
- The walk of a section's cursor after a free leaves the bitmap exactly if no bit below the cursor is
  set; freeing the first run of a section without boot pages does that (`PageAlloc.WalksOff`,
  `PageRuns.FirstRunWalksOff`).
- A request for an address that is served from the start of an unmapped section is taken for a
  failure, and its pages are not charged (`PageRuns.UnreportedCounts`).
- Initialising a page table clears its user half unless it is the boot directory, which the idle task
  is given (`PageTableRuns.InitIsFlat`, `PageTableRuns.FirstGood`).
- A free clears exactly its run if and only if the run is shorter than 65536 pages
  (`PageRuns.FreeIsExact`).
- A section's own free count is charged but never credited, so the sections together serve no more
  pages over the life of the system than they began with (`PageRuns.LifetimeBudget`).
- A block from the last slab pool, or the recycled bump region when there is no page, is taken
  without looking at its size (`Slab.KmallocHandsOut`).
- Pages served by a fallback zone are charged to it and credited, when they are freed, to the zone
  that was asked for (`PageRuns.ReturnTrip`).
- A push on a drained LMFS pool writes the block before the pool (`LmfsPool.Pool.Push`).

## Model

| member | source | states |
|---|---|---|
| `Ring.ListAdd` | include/os/list.h:22-29 | a ring that represents s becomes one that represents [n] + s |
| `Ring.ListAddTail` | include/os/list.h:31-38 | a ring that represents s becomes one that represents s + [n] |
| `Ring.ListDel` | include/os/list.h:40-44 | the ring loses exactly that node, whose own pointers stay |
| `Ring.IsListEmpty` | include/os/list.h:52-55 | true exactly for the ring of the empty sequence |
| `Ring.Sweep` | kernel/sched.c:512-521 | a traversal that unlinks some of the nodes it visits still visits every original node once, in order, and leaves a ring of exactly the others |
| `RingLinks.AddAgainBreaks` | include/os/list.h:31-38 | linking a node that is on the ring already leaves no ring at all |
| `RingLinks.UnlinkIff` | include/os/list.h:40-44 | unlinking a node, wherever it is, leaves the ring of the others if and only if the node is on the ring, or its neighbours are next to each other there, or both are off it |
| `RingLinks.SkipKeeps` | include/os/list.h:40-44 | unlinking a node off the ring whose neighbours are on it, in order, leaves the ring without what lies between them |
| `RingLinks.StrayBreaks` | include/os/list.h:40-44 | in every other case that does not fit nothing is left that is a ring |
| `RingLinks.RingIsOne` | include/os/list.h:6-8 | the pointers are a ring of at most one sequence |
| `RingLinks.WalkDrains` | kernel/mutex.c:81-85 | the unlock loop visits every node of a ring once, in order, leaves the empty ring, and leaves each node pointing at the head and at its old successor |
| `RingNodes.ListAddTail` | include/os/list.h:31-38 | the four writes do to the objects what the specification does to the links, on a ring or not |
| `RingNodes.ListDel` | include/os/list.h:40-44 | so do the two writes of list_del |
| `RingNodes.RingsAgree` | include/os/list.h:6-8 | the objects form a ring if and only if the links do |
| `Sched.RowOf` | kernel/sched.c:133-166 | each row of the transition table belongs to one pair of states, and exactly twelve changes are legal: IDLE and STOP are final and nothing becomes STOP |
| `SchedInvariant.SetTaskStateKeepsLists` | kernel/sched.c:168-230 | a state change, legal in the table or not, keeps every list in agreement with the states and every count with its list, if and only if it does not make a task UNKNOWN again or start the idle task |
| `SchedInvariant.PickIsMostUrgent` | kernel/sched.c:390-412 | the pick is the oldest task of the most urgent non-empty queue; idle is picked only if no other task is ready; with none ready the current task stays |
| `SchedInvariant.SwitchDoes` | kernel/sched.c:430-472 | a switch touches only the outgoing and the incoming task: one is requeued one level down, the other told of its timeout and set running |
| `SchedInvariant.SwitchKeeps` | kernel/sched.c:430-500 | picking, requeueing and switching keeps the whole invariant |
| `SchedInvariant.ScanKeeps` | kernel/sched.c:512-521 | the tick's scan of the sleep list keeps the invariant and changes each sleeper as a single tick says |
| `SchedInvariant.StepKeeps` | kernel/sched.c:107-131 | create, switch, tick, suspend, wake, exit and remove each keep the invariant |
| `SchedInvariant.BootHolds` | kernel/sched.c:599-623 | the state after initialisation satisfies it |
| `SchedInvariant.RunInvariant` | kernel/sched.c:430-579 | over every run from boot, a task is PREPARE iff exactly once in the queue of its priority, SLEEP iff on the sleep list, IDLE iff on the idle list; RUNNING iff on none of them; counts are lengths; at most the current task is RUNNING |
| `SchedInvariant.RunPicks` | kernel/sched.c:390-428 | over every run from boot idle stays at level 63 and all others above it, so each pick is the FIFO head of the most urgent queue and idle comes last |
| `SchedEffects.RunTimes` | kernel/sched.c:258-261 | 69 ticks at level 0, 49 at level 20, 6 at level 63, one less for each level down |
| `SchedEffects.Levels` | kernel/sched.c:414-428 | a charged task goes one level down and from level 62 back to level 0; idle stays at level 63 |
| `SchedEffects.NewEffect` | kernel/sched.c:263-325 | a task comes to be if and only if a pid is left, ready at level 20 with 49 ticks, last in that queue; no other task or queue changes |
| `SchedEffects.YieldEffect` | kernel/sched.c:474-500 | the picked task runs; field by field what it and the outgoing task become, and that nobody else changes |
| `SchedEffects.TickEffect` | kernel/sched.c:502-536 | every sleeper waits one tick less, the current task has one less to run and hands over exactly when it has none left |
| `SchedEffects.BlockEffect` | kernel/sched.c:538-567 | a task falls asleep for n ticks, last in the sleep list and in no queue; a wait of 0 and a task that has exited are refused |
| `SchedEffects.ReadyEffect` | kernel/sched.c:569-579 | a sleeper becomes ready with a full run time, last in the queue of its level; any other task is left alone |
| `SchedEffects.ExitEffect` | kernel/task.c:275-291 | a task that exits leaves its queue or the sleep list and is last among those to be removed |
| `SchedEffects.ReapEffect` | kernel/sched.c:107-131 | a task is removed if and only if it is IDLE and its pid is neither 0 nor 1; then it is gone and on no list, and otherwise nothing changes |
| `SchedEffects.TaskStays` | kernel/sched.c:107-131 | no step but such a removal takes a task away, changes its pid, or revives it once it has exited |
| `SchedEffects.FirstTasksStay` | kernel/sched.c:119-121 | over every run the tasks with pids 0 and 1 stay |
| `SchedEffects.ExitedIsRemoved` | kernel/sched.c:107-131 | over every run any other task that has exited stays exited until, once switched out, the first removal takes it away |
| `SchedWaiting.SwitchWaits` | kernel/sched.c:414-472 | every switch that does not choose a waiting task uses up exactly one of the runs pending before it, including across the wrap from 62 to 0 |
| `SchedWaiting.StepWaits` | kernel/sched.c:390-579 | each step of any kind either runs the waiting task, or keeps its place and changes the pending runs by one per switch and at most its level per arrival |
| `SchedWaiting.BoundedWaiting` | kernel/sched.c:390-472 | a run that passes a ready task over has at most Pending + prio * arrivals switches, so without arrivals it runs within a bound fixed at the start |
| `SchedWaiting.PendingBound` | kernel/sched.c:390-428 | that bound is at most 63 per ready or running task |
| `SchedWaiting.StepKeepsTime` | kernel/sched.c:502-536 | no step leaves a task without run time while no switch finds the current task suspended |
| `SchedWaiting.BoundedTicks` | kernel/sched.c:502-536 | bounded waiting in ticks: a run of ticks and yields that passes a ready task over is no longer than its budget |
| `SchedTimeout.SleepsThrough` | kernel/sched.c:512-521 | a wait of n lasts through n-1 ticks, and a wait of -1 through any number |
| `SchedTimeout.ExactTimeout` | kernel/sched.c:502-567 | a task switched out with a wait of n that is not woken is readied by exactly the n-th tick |
| `SchedTimeout.SuspendReports` | kernel/sched.c:538-579 | when the task runs again its suspend reports a timeout if and only if nothing woke it |
| `SchedTimeout.YieldSettles` | kernel/sched.c:474-500 | sched() leaves a RUNNING current task unless it was readied before its switch and chosen again |
| `SchedTimeout.LostTimeout` | kernel/sched.c:538-567 | a family of runs in which that happens and the timeout goes unreported |
| `SchedKernel.Kernel.constructor` | kernel/sched.c:599-623 | the initial arrays and lists are the boot state and satisfy the invariant |
| `SchedKernel.Kernel.PrioListAddTail` | kernel/sched.c:94-99 | one queue gains the task at its tail, its count follows |
| `SchedKernel.Kernel.PrioListDel` | kernel/sched.c:101-105 | one queue loses the task, its count follows |
| `SchedKernel.Kernel.SetTaskState` | kernel/sched.c:168-230 | the case analysis over the table computes the list-by-list specification |
| `SchedKernel.Kernel.FindNextRunTask` | kernel/sched.c:390-412 | the loop over the table computes the most urgent pick |
| `SchedKernel.Kernel.PrepareToSwitch` | kernel/sched.c:430-472 | requeue and admit as specified; returns whether another task is to run |
| `SchedKernel.Kernel.Sched` | kernel/sched.c:474-500 | performs the yield step and keeps the invariant |
| `SchedKernel.Kernel.AgeSleeper` | kernel/sched.c:513-520 | one sleeper's wait falls by a tick; at zero the task is readied |
| `SchedKernel.Kernel.AgeSleepers` | kernel/sched.c:512-521 | the in-place loop, which unlinks what it readies, does one tick for each sleeper it started with |
| `SchedKernel.Kernel.OsTickHandler` | kernel/sched.c:502-536 | performs the tick step and keeps the invariant |
| `SchedKernel.Kernel.SuspendTaskTimeout` | kernel/sched.c:538-567 | performs the suspend step; refuses a zero timeout and an idle-state task |
| `SchedKernel.Kernel.WakeupTask` | kernel/sched.c:569-579 | performs the wake step; fails exactly for a task that does not sleep |
| `SchedKernel.Kernel.SchedRemoveTask` | kernel/sched.c:107-131 | performs the removal step; succeeds if and only if the task is IDLE and its pid is neither 0 nor 1, after which it is on no list; otherwise EINVAL and nothing changes |
| `SchedKernel.Kernel.CreateTask` | kernel/sched.c:263-325 | performs the creation step and reports exactly whether the task came to be |
| `Mutex.WakeAllReadies` | kernel/mutex.c:81-85 | the wake loop readies every sleeping waiter, changes nobody else and keeps the scheduler's invariant |
| `Mutex.DoKeeps` | kernel/mutex.c:9-92 | each atomic step of lock, suspend, resume, unlock and kill, and each scheduler step between them, keeps at most one owner, counted exactly |
| `Mutex.MutualExclusion` | kernel/mutex.c:9-92 | over every interleaving, whatever is woken, suspended or stopped and whatever becomes of the ring, a mutex has at most one owner, and its count is non-zero exactly while it has one |
| `Mutex.UnlockReadies` | kernel/mutex.c:56-92 | unlock readies every sleeping task it meets and leaves every other task alone; on a ring it meets exactly the waiters and leaves the empty ring |
| `Mutex.ParkDoes` | kernel/mutex.c:39-43 | a task that found the mutex taken sleeps for ms ticks and stays on the ring; with a wait of 0, or stopped meanwhile, it is off the ring and out at once |
| `MutexRing.StepVerdict` | kernel/sched.c:430-579 | through every scheduler step a suspended task will be told of a timeout if and only if nothing roused it, once it has been switched in again |
| `MutexRing.CleanIff` | kernel/mutex.c:39-43 | a waiter that comes back from its suspend is told of a timeout if and only if it was switched in after an unbroken sleep, and is on the ring if and only if no unlock met it |
| `MutexRing.IntactIff` | kernel/task.c:333-339 | each step of lock, suspend, resume, unlock and kill leaves the ring as it should after each of its list operations if and only if it is fair, and then keeps who is on the ring |
| `MutexRing.RingStaysWhole` | kernel/mutex.c:30-92 | over every run every list operation leaves the ring it should if and only if every step is fair, and then the ring holds every waiter no unlock has met and none that one has |
| `MutexRing.UnfairLeaves` | kernel/mutex.c:37-42 | what the first unfair step leaves: no ring after a second list_add_tail; after a stray list_del a ring without some waiters, or none |
| `MutexRing.MetKept` | kernel/mutex.c:81-85 | until it leaves, a waiter that an unlock met keeps the two pointers the unlock left it |
| `MutexRing.ReturnKeepsRing` | kernel/mutex.c:39-43 | after a fair run a waiter's return keeps the ring unless it slept through, an unlock met it, and its successor at that unlock is not the first any more |
| `MutexWitness.RingBreaks` | kernel/mutex.c:30-92 | two runs from boot whose last step turns a ring into none: the first of two waiters unlinks itself after an unlock has, and a waiter left in place by sched() links itself again |
| `MutexKernel.MutexCell.constructor` | include/os/mutex.h:25-32 | a mutex nobody has used |
| `MutexKernel.MutexCell.LockOrEnqueue` | kernel/mutex.c:31-50 | performs the lock step of the protocol on the tasks' nodes; the caller gets the mutex exactly if the count was 0, and then it is the owner and nobody else is or was |
| `MutexKernel.MutexCell.Return` | kernel/mutex.c:40-43 | performs the resume step: a task told of a timeout unlinks its node and gives up |
| `MutexKernel.MutexCell.MeetAll` | kernel/mutex.c:81-85 | the loop over the nodes, on a ring or not, unlinks and wakes exactly those the links lead to |
| `MutexKernel.MutexCell.Unlock` | kernel/mutex.c:71-85 | performs the unlock step of the protocol, wherever the links lead |
| `Vfs.ReadLands` | fs/vfs.c:86-154 | the cursor and rw_pos a read ends with agree with the offset exactly unless it starts inside a block and ends on a boundary |
| `Vfs.WriteLands` | fs/vfs.c:156-241 | the same for a write: exactly unless it ends on a boundary |
| `Vfs.AheadLands` | fs/vfs.c:333-358 | the forward walk's block count and remainder land on the target byte |
| `Vfs.BackLands` | fs/vfs.c:310-331 | so do those of the backward walk |
| `Vfs.File.NextBlock` | fs/vfs.c:30-35 | steps along the chain, or reports its end |
| `Vfs.File.LoadNext` | fs/vfs.c:51-63 | the buffer holds the next block, or nothing changes at the end of the chain |
| `Vfs.File.ReadBlocks` | fs/vfs.c:123-129 | the loop yields the whole blocks that follow the cursor, or stops at the chain's end |
| `Vfs.File.CopyOut` | fs/vfs.c:107-145 | buffer, whole blocks and last block together are the bytes served; it fails exactly when the chain is too short |
| `Vfs.File.ReadsSlice` | fs/vfs.c:86-154 | from a buffered state those bytes are the slice of the flat file at the offset |
| `Vfs.File.Read` | fs/vfs.c:86-154 | a buffered read returns exactly offset..min(offset+n, size) and stays buffered if and only if it does not start inside a block and end on a boundary |
| `Vfs.File.Forward` | fs/vfs.c:333-358 | moves cursor, buffer and rw_pos ahead by n bytes, or the target is past the chain |
| `Vfs.File.Backward` | fs/vfs.c:310-331 | moves them back by n bytes, or the target is before the file |
| `Vfs.File.Seek` | fs/vfs.c:243-365 | every whence and way of walking ends at the target offset; the buffer invariant holds there if and only if it is within the file; for SEEK_SET a target past the end is refused, and a negative one ends in ENOSPC with the offset kept, whether the walk goes back or restarts |
| `Vfs.SeekThenRead` | fs/vfs.c:243-365 | seek to t, then read n, returns exactly bytes t..min(t+n, size), by NEXT, PREV or restart |
| `Vfs.SeekAheadThenRead` | fs/vfs.c:273-280 | SEEK_CUR by off within the file, then a read, returns exactly the bytes off further on |
| `Vfs.File.NeedIs` | fs/vfs.c:167-175 | the blocks a write needs are just enough: its last byte lies in the last of them |
| `Vfs.File.NeedFits` | fs/vfs.c:184-224 | they are there if and only if the bytes up to the last one written fit into the blocks of the chain and the free ones |
| `Vfs.File.NextOrNew` | fs/vfs.c:185-197 | the next block of the chain or a new one at its end; fails exactly when neither is there |
| `Vfs.File.WriteBlocks` | fs/vfs.c:184-204 | the chain's bytes are extended by exactly the whole blocks, which come from the chain or from free blocks |
| `Vfs.File.WriteHead` | fs/vfs.c:177-182 | the head of the data lands behind the bytes before rw_pos |
| `Vfs.File.WriteTail` | fs/vfs.c:206-224 | the tail lands at the start of the next block, whose rest keeps stale bytes |
| `Vfs.File.WriteRest` | fs/vfs.c:184-224 | whole blocks and tail together extend the chain's bytes by exactly the data behind the buffered block |
| `Vfs.File.Write` | fs/vfs.c:156-241 | a write succeeds exactly if the blocks suffice, leaves the file equal to old[..offset] + b, and stays buffered if and only if it does not end on a boundary |
| `Vfs.WriteThenReadBack` | fs/vfs.c:86-241 | what was written reads back |
| `Vfs.SeekEndThenWrite` | fs/vfs.c:156-285 | SEEK_END, then a write, appends, and succeeds if and only if the longer file fits into the blocks of the chain and the free ones |
| `Vfs.StaleAfterBoundary` | fs/vfs.c:86-154 | after a read from inside a block to its end, the next read returns the first byte of the same block |
| `LmfsPool.Pool.Pop` | fs/lmfs.c:165-193 | pops the LIFO sequence made of the disk pages and the page in memory, also across a page boundary; on an empty pool it hands out a stale entry and leaves the pool invalid |
| `LmfsPool.Pool.Push` | fs/lmfs.c:195-220 | pushes on the same sequence, changing no block on disk but the pool's current one, which is outside the pool exactly when the pool is empty |
| `LmfsPool.PushThenPop` | fs/lmfs.c:165-220 | the block given back is the next handed out, and the pool is as before |
| `LmfsDisk.WordsRoundTrip` | tools/mklmfs/mklmfs.c:285-301 | a word stored in an array of little-endian words reads back |
| `MkLmfs.InitBufferPool` | tools/mklmfs/mklmfs.c:73-82 | the pool counts down from base + count - 1 and the rest of the page is untouched |
| `MkLmfs.Pool.Pop` | tools/mklmfs/mklmfs.c:227-283 | numbers come off in ascending order, each once, until the pool is used up; then -ENOSPC |
| `MkLmfs.SectorPlace` | tools/mklmfs/mklmfs.c:303-308 | the tool's inode sector is the kernel's block and place in it |
| `MkLmfs.Tool.constructor` | tools/mklmfs/mklmfs.c:84-162 | formatting leaves all data blocks and all inodes but the root's to be handed out |
| `MkLmfs.Tool.Flush` | tools/mklmfs/mklmfs.c:285-292 | one block of the image is replaced and no other |
| `MkLmfs.Tool.TakeIndex` | tools/mklmfs/mklmfs.c:363-377 | a zeroed index block is entered in the inode while it has room |
| `MkLmfs.Tool.OpenBlock` | tools/mklmfs/mklmfs.c:354-380 | the last data block is flushed and the next one, with an index block if needed, is open |
| `MkLmfs.Tool.ReadChunk` | tools/mklmfs/mklmfs.c:382-400 | after each read either one more whole block is laid or the file is complete |
| `MkLmfs.Tool.WriteFile` | tools/mklmfs/mklmfs.c:344-407 | the file is stored behind its inode in consecutive blocks and nothing else on the image changes |
| `MkLmfs.Tool.WriteInode` | tools/mklmfs/mklmfs.c:310-342 | last data block, index block and inode reach the image |
| `MkLmfs.StoredKept` | tools/mklmfs/mklmfs.c:344-407 | a stored file survives the building of others |
| `MkLmfs.MakeImage` | tools/mklmfs/mklmfs.c:344-407 | for any list of files that fits, the image holds each of them, and no two share a block |
| `LmfsReader.EntryReads` | fs/lmfs.c:309-346 | the kernel finds in the inode the size, type, block count and index block the tool stored |
| `LmfsReader.IndexReads` | fs/lmfs.c:275-307 | and in the index block the data blocks in order |
| `LmfsReader.LittleEndian` | tools/mklmfs/mklmfs.c:285-301 | byte k of a stored word is its bits 8k to 8k + 7 |
| `LmfsReader.OnDisk` | tools/mklmfs/mklmfs.c:285-342 | byte by byte where a stored file lies on the image: its first block, then those from the second behind it on, and its size in bytes 28 to 31 of sector ino behind the third block |
| `LmfsNode.Fnode.constructor` | fs/lmfs.c:275-346 | filling a file node reads size, type, count and the first index block |
| `LmfsNode.Fnode.GetDataBlock` | fs/lmfs.c:473-545 | START at the start, NEXT and PREV inside an index block step along it; a rewinding START and steps across it take the next index block from the index block itself, where the inode was meant |
| `LmfsReader.WalkChain` | fs/lmfs.c:473-520 | START and NEXT until the end give exactly the file's blocks, in order |
| `LmfsNode.StepNext` | fs/lmfs.c:502-520 | NEXT on a file node whose index block names a chain steps along the chain and reports its end |
| `LmfsNode.StepPrev` | fs/lmfs.c:522-537 | PREV steps back and reports the start |
| `LmfsReader.StartTracks` | fs/lmfs.c:275-307 | the file node of a stored file names exactly the file's blocks |
| `LmfsReader.ReadStored` | fs/lmfs.c:94-103 | any seek and read of a stored file through inode lookup, live file node and file layer returns the bytes given to the tool |
| `LmfsReader.ImageRoundTrip` | tools/mklmfs/mklmfs.c:256-407 | for any list of files that fits, every part of every file reads back through the kernel byte for byte |
| `Slab.TakeKeeps` | mm/slab.c:141-150 | taking a pool's first block keeps pools, headers and layout valid |
| `Slab.GiveKeeps` | mm/slab.c:152-157 | so does giving a block in use back |
| `Slab.CarveKeeps` | mm/slab.c:182-212 | so does cutting from the bump region, whose remainder is empty or holds a block |
| `Slab.RecycleKeeps` | mm/slab.c:225-239 | the rest of the bump region becomes one free block of exactly its size |
| `Slab.AddPageKeeps` | mm/slab.c:115-139 | a new page becomes the bump region, losing nothing |
| `Slab.FreeWord` | mm/slab.c:353-376 | no pool head equals the magic word, so a free block is never taken for one in use |
| `Slab.RoundsUp` | mm/slab.c:102-106 | the size class is the least multiple of 16 that is not below the request |
| `Slab.PoolIs` | mm/slab.c:108-113 | pool k holds the sizes from 16k + 16 to below 16k + 32, the last pool all from 528 on |
| `Slab.PoolFits` | mm/slab.c:102-113 | a block whose size maps to pool k fits every request of at most 512 bytes that maps to k or below |
| `Slab.KmallocHandsOut` | mm/slab.c:247-328 | whatever path is taken, one block not in use is handed out, no block moves or changes size, and it has room for the bytes asked for and for their size class; above 512 bytes it has if and only if the last pool's first block is large enough or, that pool being empty, there is room in the bump region or a new page |
| `Slab.KmallocPlan` | mm/slab.c:293-328 | the block is the first free one of the size class if there is one, else from the bump region, else from a new page, with less than 24 bytes too many; without a page kmalloc fails if and only if no pool from the size class up has a block and the rest of the bump region makes none |
| `Slab.FreeThenMalloc` | mm/slab.c:293-376 | a freed block is the next one handed out in its size class, and the allocator is exactly as before |
| `Slab.InitHolds` | mm/slab.c:379-389 | the first megabyte makes a valid state |
| `Slab.ServeKeeps` | mm/slab.c:293-376 | every kmalloc and every valid kfree keeps the state valid |
| `Slab.FreeIs` | mm/slab.c:353-376 | a free takes exactly that block out of use |
| `Slab.ExactTiling` | mm/slab.c:115-245 | after any run every byte of a slab page is in exactly one block or in the bump region, and every block is in use or exactly once in the pool of its size |
| `Slab.SizesAddUp` | mm/slab.c:115-245 | headers, sizes and free_size sum to alloc_size, and free_size is 0 or holds a block |
| `SlabKernel.Cache.constructor` | mm/slab.c:379-389 | builds that first state |
| `SlabKernel.Cache.TakeFirst` | mm/slab.c:141-150 | unlinks and marks the pool's first block |
| `SlabKernel.Cache.AddFirst` | mm/slab.c:152-157 | links a block at the head of the pool of its size |
| `SlabKernel.Cache.RecycleFree` | mm/slab.c:225-239 | the bump region becomes a free block if it can hold one |
| `SlabKernel.Cache.AddPage` | mm/slab.c:115-139 | the new page is the bump region |
| `SlabKernel.Cache.GetFromPool` | mm/slab.c:159-179 | the first block of the request's pool, or nothing changes |
| `SlabKernel.Cache.GetFromFree` | mm/slab.c:182-212 | cuts exactly as specified, or nothing changes when the region is too small |
| `SlabKernel.Cache.GetBig` | mm/slab.c:256-289 | the loop takes from the first non-empty pool at or above the request's |
| `SlabKernel.Cache.GetNewOrBig` | mm/slab.c:214-289 | recycles, asks for a page, and falls back to a larger pool only without one |
| `SlabKernel.Cache.Kmalloc` | mm/slab.c:293-341 | computes the specified allocation and keeps the state valid; refuses sizes of 0 and below |
| `SlabKernel.Cache.Kfree` | mm/slab.c:353-376 | a block in use goes to the head of its pool, as the free request of a run does; anything else, also memory that is no slab block, is passed to the page allocator |
| `Bitops.PutGet` | kernel/bitops.c:18-28 | writing one bit of a word changes that bit and no other |
| `Bitops.BitOrder` | kernel/bitops.c:18-28 | bit n of the bitmap is bit n % 32, from the lowest, of word n / 32 |
| `Bitops.ReadBit` | kernel/bitops.c:26-28 | the bit of the flat sequence |
| `Bitops.WriteBit` | kernel/bitops.c:20-25 | the flat sequence changes at n and nowhere else |
| `Bitops.TurnKeeps` | kernel/bitops.c:53-74 | a turn of the loop keeps its streak and its pass, ends with what it should find, or passes the end again |
| `Bitops.FindFreeBase` | kernel/bitops.c:46-77 | unless it starts on the last of several bits with no run to find, it returns, and returns the first run from start to the end, else the first in 1..start, else -ENOSPC when there is none |
| `Bitops.SearchHangs` | kernel/bitops.c:46-77 | in exactly that other case it never returns |
| `Bitops.FindsIs` | kernel/bitops.c:46-77 | the result is unique: the recursive search for the first run |
| `PageAlloc.TakeKeeps` | mm/mm.c:840-877 | an allocation keeps bitmap, descriptors and live runs in agreement: the run was free and only its first page gets the header flag |
| `PageAlloc.DescriptorTrip` | mm/mm.c:756-824 | a page's descriptor leads back to its physical address, its section, and its index, and but for user pages to its virtual address; a user page has none |
| `PageAlloc.GiveKeeps` | mm/mm.c:998-1015 | a free of a run's first page keeps them in agreement |
| `PageAlloc.OthersIgnored` | mm/mm.c:1017-1029 | no boot page and no later page of a run carries the header flag, so their free does nothing |
| `PageAlloc.BackStops` | mm/mm.c:980-996 | the cursor moves down over clear bits to just above a set one |
| `PageAlloc.GiveRewinds` | mm/mm.c:980-1015 | after a free everything between the cursor and where it was is free, so pages freed just below it are found again at once |
| `PageAlloc.WalksOff` | mm/mm.c:980-996 | the cursor's walk leaves the bitmap at its lower end if and only if no bit below it is set |
| `PageAlloc.BootHolds` | mm/mm.c:508-542 | the boot section starts in agreement, with the boot pages taken off its count and the cursor behind them |
| `PageBank.Fallback` | mm/mm.c:930-958 | the request is served by the first zone of its fallback order that can, fails only if none can, and never falls back to the user zone |
| `PageBank.ZoneIs` | mm/mm.c:917-928 | the zone asked for is z if and only if 2^z <= flag % 256 < 2^(z+1) |
| `PageBank.ZoneFlags` | include/os/mm.h:17-21 | flag byte 1 asks for the kernel zone, 2 to 3 for DMA, 4 to 7 for reserved, 8 to 15 for user, and conversely |
| `PageBank.ServedWhereAsked` | mm/mm.c:930-958 | a request is served by the zone it asks for whenever that zone can serve it |
| `PageBank.PickIsFirst` | mm/mm.c:879-905 | no section before the one taken has room |
| `PageBank.RestoreCredits` | mm/mm.c:1017-1038 | a free credits the zone the page's flag asks for with the run's length, and no other |
| `PageRuns.BootAnchors` | mm/mm.c:980-1015 | where page 0 belongs to the boot pages, every free finds a set bit below the cursor |
| `PageRuns.FirstRunWalksOff` | mm/mm.c:980-1015 | freeing the first run of a fresh section finds a set bit if and only if the run was the whole section or longer than its 16-bit count can say |
| `PageRuns.UnreportedCounts` | mm/mm.c:871-912 | a run handed out at address 0 raises the total by its length, because the zone is not charged |
| `PageRuns.StepKeeps` | mm/mm.c:879-958 | a request or a free keeps every section in agreement and the total of free pages |
| `PageRuns.RunKeeps` | mm/mm.c:1017-1038 | over every run, whichever zones are charged and credited, the zones' free pages plus the set bits are constant, while the sections' own counts pay for every page ever handed out |
| `PageRuns.NeverOverdrawn` | mm/mm.c:879-915 | over every run no zone's count of free pages falls below zero |
| `PageRuns.ReturnTrip` | mm/mm.c:930-1038 | freeing what a request took restores the bits, and the zones' counts if and only if the zone asked for has served it |
| `PageRuns.BootGood` | mm/mm.c:544-592 | the bank after boot begins such a run |
| `PageRuns.LifetimeBudget` | mm/mm.c:840-877 | the pages handed out over any run, freed or not, never exceed what the sections began with |
| `PageRuns.SetBits` | mm/mm.c:840-877 | a set bit is a boot page, in exactly one live run, or left by a truncated free, and conversely |
| `PageRuns.RunsApart` | mm/mm.c:840-877 | two live runs share no page |
| `PageRuns.FreeIsExact` | mm/mm.c:998-1015 | a free clears exactly its own run if and only if the run has fewer than 65536 pages |
| `PageRuns.NothingLostInRun` | mm/mm.c:998-1038 | without requests of 65536 pages or more no page is ever lost: the set bits are exactly the boot pages and the live runs |
| `PageRuns.NextRequestHangs` | mm/mm.c:846-865 | a run taken up to the last page but one leaves the cursor where the next request that finds no room never returns |
| `PageKernel.SectionCell.UpdateMemoryBitmap` | mm/mm.c:826-838 | the loop sets or clears exactly the range |
| `PageKernel.SectionCell.InitPages` | mm/mm.c:778-824 | the loop writes the descriptors of the run and no other: header and length on the first only |
| `PageKernel.SectionCell.UpdateBootSectionInfo` | mm/mm.c:508-542 | the first pages are taken, without header |
| `PageKernel.SectionCell.GetFreePages` | mm/mm.c:840-877 | takes the run the search finds and returns its address or that of its descriptor, or changes nothing and returns 0 |
| `PageKernel.SectionCell.UpdateBmCurrent` | mm/mm.c:980-996 | the loop computes the walk down |
| `PageKernel.SectionCell.FreePages` | mm/mm.c:998-1029 | clears the run of a header page and moves the cursor; does nothing for another page |
| `PageKernel.GetZoneId` | mm/mm.c:917-928 | the index of the highest bit of the flag's low byte: 2^i <= flag % 256 < 2^(i+1) |
| `PageKernel.BankCell.GetFromZone` | mm/mm.c:879-915 | the loop over the sections serves from the first with room and charges the zone, or changes nothing |
| `PageKernel.BankCell.GetFreePages` | mm/mm.c:930-958 | the fallback loop terminates, computes the specified choice, serves from the zone asked for whenever that zone can, and returns the address of the run taken, or 0 if and only if none was |
| `PageKernel.BankCell.FreePages` | mm/mm.c:1017-1038 | the page's section is freed and the zone its flag names is credited |
| `Regions.RegisterMemoryRegion` | init/soc.c:110-130 | the table gains exactly the whole mebibytes of the memory, or nothing when there is none or the table is full |
| `Regions.PagesAreWhole` | mm/mm.c:112-116 | the signed count is the number of whole pages of the region, none for one inside a page |
| `Regions.HoldsIs` | mm/mm.c:103-116 | a region holds a page if and only if all bytes of the page are in it |
| `Regions.FindMin` | mm/mm.c:155-158 | a least start in the rest of the table |
| `Regions.SortRegions` | mm/mm.c:149-165 | the table becomes a sorted permutation of itself |
| `Regions.TotalPermuted` | mm/mm.c:149-165 | a sum over the table does not depend on the order |
| `BringUp.Setup.constructor` | mm/mm.c:94-101 | empty zones cover no page |
| `BringUp.SplitCover` | mm/mm.c:189-231 | splitting a section into an empty slot neither loses nor doubles a page |
| `BringUp.Setup.InsertRegion` | mm/mm.c:103-135 | the next slot of the zone gets the region's pages, unless it has none or the zone is full |
| `BringUp.Setup.GetMemorySections` | mm/mm.c:137-187 | every page is in as many sections as regions held it, zones count their pages, and the last kernel section comes from the topmost region |
| `BringUp.Setup.AllocDmaSection` | mm/mm.c:189-231 | the top of the last kernel section becomes the DMA zone and no page changes its number of sections |
| `BringUp.WindowStep` | mm/mm.c:349-380 | one section's range starts behind all earlier ones, inside the window, congruent to its physical place modulo 4 MiB |
| `BringUp.Setup.MapZoneMemory` | mm/mm.c:324-384 | all ranges of a zone are disjoint, ascending, inside the window and congruent; a section is cut short only where the window is full |
| `BringUp.Setup.MapKernelMemory` | mm/mm.c:386-429 | the kernel's own section lies at the start of the window and the others behind it |
| `BringUp.Setup.MapDmaMemory` | mm/mm.c:431-438 | every section of the DMA zone has its range in the DMA window, without gaps but for the alignment, and is cut only where the window is full |
| `BringUp.Setup.MapResMemory` | mm/mm.c:440-453 | the same for the reserved zone in what the kernel zone left of its window |
| `BringUp.Setup.MapMemory` | mm/mm.c:386-462 | the ranges of kernel, DMA and reserved zones are pairwise disjoint, each in its window, each where the space below is used up; the section the kernel was loaded in lies at the start of the kernel window |
| `BringUp.Setup.InitUserZone` | mm/mm.c:613-676 | the kernel zone keeps exactly what is mapped, the user sections are exactly the unmapped rests in order, the zones count their pages, and no page changes its number of sections |
| `BringUp.Setup.MoveUnfit` | mm/mm.c:633-673 | one section's unmapped rest becomes the next user section and leaves the counts of both zones right |
| `BringUp.Setup.AnalyseSocMemoryInfo` | mm/mm.c:233-247 | sections and DMA zone together still cover each page as often as the regions did |
| `BringUp.Setup.MmInit` | mm/mm.c:678-696 | for page-disjoint regions that fit, every page of a region ends in exactly one section, of the zone the region is for, and every other page in none; the exceptions are the DMA share, a sixteenth of the kernel pages up to 128 MiB when no region is for DMA, and kernel pages in the user zone when the kernel window is full; the kernel's own section lies at the start of that window, the other ranges follow in their windows, congruent modulo 4 MiB, each where the space below is used up, and the zones count their pages |
| `PageTable.EntryRoundTrip` | arch/x86/kernel/x86_mmu.c:50-88 | decoding undoes encoding for page addresses, in directory and table entries |
| `PageTable.EntryBits` | arch/x86/kernel/x86_mmu.c:50-66 | the word for a page has bits 0 to 2 set (present, writable, user), bits 3 to 11 clear, and the page above |
| `PageTable.IndicesSplit` | mm/pgt.c:139-150 | the two indices are in range, below the kernel half for user addresses, and together determine the page |
| `PageTable.NextPageIs` | mm/pgt.c:106-136 | the page taken joins those handed out, in list order or appended |
| `PageTable.PageIsNew` | mm/pgt.c:83-136 | a page for a new table has not been handed out since the last initialisation |
| `PageTable.ResetIs` | mm/pgt.c:83-96 | initialising a list keeps its pages and has handed out none of them |
| `PageTable.NewTableKeeps` | mm/pgt.c:186-223 | a new table maps nothing, disturbs nothing, and leaves the kernel half alone |
| `PageTableRuns.MapIsFlat` | mm/pgt.c:225-261 | mapping leaves the word for that page in the entry of that address, and changes the flat map there and nowhere else |
| `PageTableRuns.MapRefused` | mm/pgt.c:106-261 | a mapping is refused if and only if the page has no table yet, the page allocator offers none, and every page of the list has been handed out |
| `PageTableRuns.UnmapIsFlat` | mm/pgt.c:602-619 | unmapping clears it at that page and nowhere else |
| `PageTableRuns.InitIsFlat` | kernel/mmu.c:78-90 | initialisation copies the kernel half, puts every table page back, and leaves nothing mapped in the user half if and only if the directory is not the boot directory or its user half was clear |
| `PageTableRuns.StepKeeps` | mm/pgt.c:573-619 | every step keeps the table, the flat map and the log of table pages in agreement |
| `PageTableRuns.FirstGood` | mm/pgt.c:366-427 | a first initialisation begins a run under exactly that condition |
| `PageTableRuns.Refinement` | mm/pgt.c:83-261 | over every run lookups agree with the flat map, no table page is handed out twice between initialisations, and user mappings never change the kernel half |
| `PageTableRuns.Translates` | mm/pgt.c:139-261 | in every such state the processor's own walk of directory and table takes every user address to the page of the flat map, and to nothing where nothing is mapped |
| `PageTableKernel.TaskPageTable.GetTaskPage` | mm/pgt.c:621-646 | the lookup of the specification, read from the words in memory |
| `PageTableKernel.TaskPageTable.AllocNewPtePage` | mm/pgt.c:106-136 | the next page of the list or the one offered, with all its words zero |
| `PageTableKernel.TaskPageTable.MapNewPdeEntry` | mm/pgt.c:186-223 | one directory entry names the new table; fails exactly if the list has no page left and none is offered, and then nothing changes |
| `PageTableKernel.TaskPageTable.MapPage` | mm/pgt.c:225-261 | performs the specified mapping; fails exactly if there is no table for the page, none is offered and the list is used up, and then nothing changes |
| `PageTableKernel.TaskPageTable.UnmapMmapPage` | mm/pgt.c:602-619 | clears one entry and returns what it mapped |
| `PageTableKernel.TaskPageTable.InitTaskPageTable` | mm/pgt.c:366-427 | the directory, both lists and the temporary entry as specified |
| `PageTableKernel.TaskPageTable.CopyKernelPde` | kernel/mmu.c:81-90 | clears the user half and copies the kernel half, or leaves the boot directory alone |

## Left out

- Vfs.File.Seek: a negative offset is covered where the signed difference fits 32 bits and, for a walk that restarts, the chain ends before the offset taken as unsigned; SEEK_CUR past the end leaves the offset there and the buffer invariant false, as stated.
- Vfs.File.Read: I/O errors below the chain are not modelled; the file system is a chain of blocks with a cursor, or the file node of a stored LMFS file.
- LmfsReader.ReadStored: the chain that the file layer is compared with is a value computed beforehand, which reads and seeks on the live file node do not look at.
- Mutex.MutualExclusion: an unlock by a task that does not own the mutex, and one that the links lead round for ever or to a task that is gone, are not steps; there is one mutex, though a task's ring node serves them all; progress is not claimed, since a wake between enqueueing and suspending is not remembered.
- MutexRing.ReturnKeepsRing: a task inside the mutex makes no other call that suspends or ends it, and no task is killed whose node was on the ring earlier; MutexRing.RingStaysWhole needs neither.
- MutexKernel.MutexCell.Unlock: the owner's own link to the mutex (m->task) is not modelled.
- SchedKernel.Kernel.SuspendTaskTimeout: ends before the call of sched(); what it returns after the switch is in SchedTimeout.SuspendReports.
- SchedKernel.Kernel.AgeSleepers: loops over the sequence of sleepers; the traversal of the ring itself is Ring.Sweep.
- Vfs.WriteThenReadBack: not for writes that end on a block boundary, after which the buffer is on the wrong block.
- MkLmfs.Tool.constructor: the super block and the pool pages stay in memory and are not written to the image.
- MkLmfs.MakeImage: directories and their entries are not modelled, and the tool's own image size of 256 blocks bounds the files; index blocks beyond the first are never reached in an image of that size.
- MkLmfs.Tool.WriteFile: needs enough free blocks, because the failure value of pop_block is not zero and goes unnoticed.
- LmfsPool.Pool.Pop: the pool's block count is never updated by the code, so emptiness is not detected; what then happens is stated.
- PageKernel.SectionCell.UpdateBmCurrent: needs a set bit below the cursor, without which the code reads below its bitmap.
- PageKernel.BankCell.GetFreePages: needs a zone bit in the flag, without which get_zone_id never returns, searches that stop, and an address other than 0; get_free_pages and request_pages, which only refuse bad counts and flags, are not modelled.
- PageRuns.RunKeeps: needs the same of every request; what an address of 0 does to the total is stated apart.
- PageKernel.GetZoneId: a flag without a zone bit, on which the loop never ends, is excluded.
- PageTableKernel.TaskPageTable.InitTaskPageTable: the boot directory only if its user half is clear, since the table is no flat map otherwise.
- PageTable.EntryRoundTrip: entries are natural numbers, and setting or masking low bits is written as arithmetic.
- PageTableRuns.MapIsFlat: a page at physical address 0 cannot be told from an unmapped one; a lookup of an unmapped page under an existing table yields address 0, as in the code.
- BringUp.Setup.AllocDmaSection: needs the last kernel section to be large enough, which the code does not check; pv_offset and the sections' nr_free_pages, which repeat other fields, are not modelled.
- BringUp.Setup.MapKernelMemory: needs a kernel section that starts where the kernel was loaded, as below.
- BringUp.Setup.MmInit: needs a kernel section that starts where the kernel was loaded; without one the code reads an uninitialised size. Regions that overflow a zone's four slots are dropped by the code and excluded here.
- SlabKernel.Cache.GetNewOrBig: the mutex that a failed page request keeps, and that the search of the larger pools would wait for, is ignored.
- SlabKernel.Cache.Kmalloc: requests of a page or more, which go straight to the page allocator, and flags other than GFP_KERNEL are not modelled; the mutex, kept on the out-of-memory path, is ignored.
- Page allocation with alignment or a matching address, bitmap sizing, page lists and map addresses set by callers.
- pgt_get_page_mmap_base, get_new_mmap_base, mapping whole page lists, the temporary buffer's own entries, freeing a page table.
- set_task_prio, exec, re-parenting, pid reuse: the scheduler's runs do not include them.
- FAT, devfs, mounts, path lookup, directories, mmap and msync of files.
- Signals, system calls, the shell, ELF loading, consoles, interrupts, boot and architecture code: hardware access or plumbing.

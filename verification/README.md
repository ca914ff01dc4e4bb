# Verified models of a microkernel's core

This project models the hardest parts of a Linux-derived microkernel and of its Kconfig
implementation, and proves what they promise, for all inputs and all runs. It is written in
Dafny 4.11; `dafny verify dfyconfig.toml` checks all of it.

| file | what it models |
|---|---|
| `QSpinlock.dfy`, `QSpinlockCalls.dfy`, `QSpinlockWord.dfy` | the queued spinlock as a step machine over nested contexts and many locks; how its calls return; the packing of its word |
| `Mutex.dfy` | the blocking mutex: atomic count, wait list, sleeping and waking, signals, trylock |
| `Bits.dfy`, `BuddyBlocks.dfy`, `PageAlloc.dfy`, `PerCpuPages.dfy` | the buddy allocator, its free lists and page marks, and the per-CPU page caches in front of it |
| `Slub.dfy` | the SLUB object allocator, with its free lists threaded through the objects |
| `PageTables.dfy` | page tables shared between VMAs, reference counts, and the rollback of a failed mapping |
| `MmapCopy.dfy` | copying between a buffer and another address space, against a flat memory |
| `SmpCall.dfy`, `SmpProgress.dfy`, `SmpOrigin.dfy` | cross-CPU function calls: senders, interrupt handlers and their lock-free queues; that calls get run, and which |
| `SchedClock.dfy`, `Clocks.dfy` | the sched_clock latch and its accuracy; scaled conversions between cycles and time |
| `Cfs.dfy`, `RtSched.dfy` | the fair and the real-time run queues |
| `Ipc.dfy` | the rendezvous of message passing |
| `KconfigExpr.dfy`, `KconfigCache.dfy`, `KconfigMeaning.dfy` | Kconfig expressions, printed and parsed; memoised symbol values and their invalidation; what the values mean |
| `Lists.dfy`, `Wrappers.dfy` | lists without repetition, and the option type |

Protocols between CPUs or tasks (spinlock, mutex, cross-CPU calls, the clock latch, message
passing) are step machines: each atomic operation, each section under a lock and each access to
shared memory outside one is one step (copying a message is one access), steps interleave
freely, any number of CPUs or tasks takes part, and memory is sequentially consistent. The records a
proof needs (who owns the lock, what was posted, what has been published) are extra fields of
the state that no step reads; only in message passing one of them ends a run, after a message
was freed by a sender it does not belong to. Code that one CPU runs under a lock is a class
whose methods change its fields. Pure code is functions.

Some promises do not hold as they stand, and the project says exactly when they do:

- The search in `clocks_calc_mult_shift` can end without its break. Then the shift is 0 but the
  multiplier is the one for shift 1, cut to 32 bits (`Clocks.NoBreakExample`).
  `Clocks.CalcMultShift` states when that happens. No caller in the kernel gets there
  (`Clocks.SchedClockBreaks`, `Clocks.ClockEventBreaks`, `Clocks.ClockSourceBreaks`).
- The sequence counter behind sched_clock has 32 bits. A reader interrupted for exactly 2^32
  latch steps can return a mix of records (`SchedClockLatch.MixAfterWrap`); with fewer it cannot.
- Time can step back by one nanosecond across an epoch update
  (`SchedClockTime.StepsBack`), exactly when two cut-off fractions add up to a whole one
  (`SchedClockTime.NewEpochBehind`).
- The order of the CFS tree is that of the virtual runtimes exactly as long as no more than half
  of the 64-bit range lies between its first and its last key (`Cfs.TimelineExact`). That the
  values are pairwise less than half the range apart is not enough (`Cfs.PairwiseNotEnough`),
  and at half the range the order flips (`Cfs.KeyOrderFlips`).
- A comment at `kernel/core/time/clockevents.c:44-49` says the backward conversion is correct for
  mult <= 2^shift. It is, up to the 1000 ns floor and to shifts that lose bits
  (`Clocks.RawRoundTrip`, `Clocks.RoundTrip`). The floor can also take the upper limit beyond
  what the device counts (`Clocks.UpperLimit`).
- `clocks_calc_max_nsecs` adds multiplier and adjustment in 32 bits. When the sum wraps, its
  limit is safe only if the whole counter is (`Clocks.DefermentSafe`, `Clocks.DefermentExample`).
- `get_page_from_freelist` gives back the cached pages of all other CPUs but tries again only if
  the last of them had any. So it can refuse a page although one is free
  (`PerCpuPages.RefusedThoughFree`); `PerCpuPages.Pageset.GetPageFromFreelist` says when.
- `__ipc_reply` sets the flag that its sender waits for before it copies the answer. A sender that
  is quick enough returns its own request as the answer, and frees the message while the owner
  has still to write to it (`Ipc.RequestReturned`). If the memory is given to another sender
  before that, the owner receives its own answer as that sender's request
  (`Ipc.AnswerToAnother`). `Ipc.OnceInOrder` says when a request is received as it was sent, and
  `Ipc.AnswerReturnedExactly` when the answer returned is the right one.
- If the answer written there has the notifier bit, the second sender is never answered: its
  message is freed as if it were a notification (`Ipc.StrandedExactly`). It waits as long as the
  memory is not used again (`Ipc.StrandedWaits`), and can then take the answer to a third message
  (`Ipc.StrandedReturns`). None of this happens if no reply is called with that bit
  (`Ipc.NoneStranded`).
- A call posted by `smp_call_function_many` is noticed only after those to later targets are
  posted. The retry that posts them has no bound (`SmpProgress.Starvation`).
  `SmpProgress.InterruptComes` bounds it by the number of times other CPUs get in between.
- The result of `__mmap_memcpy_vma` is an int. It is the length copied exactly if that is below
  2^31 (`MmapCopy.ToIntExact`).
- `__mmap_memcpy_vma` prepares the error -EINVAL for an address that is not mapped but never
  returns it: the result is 0 bytes. The model follows the code.

## Model

| member | source | states |
|---|---|---|
| `QSpinlock.MutualExclusion` | kernel/core/locking/qspinlock.c:281-485 | In every run of any number of nested contexts over any number of locks, at most one context owns a lock, and one does exactly if its bit is set; at most one owns its pending bit, and an undo of PENDING is done by the context that set it |
| `QSpinlock.FirstComeFirstServed` | kernel/core/locking/qspinlock.c:399-485 | Queued contexts get the lock in exactly the order of their `xchg_tail` steps; the queue has no duplicates and ends at the node in the tail field |
| `QSpinlock.HeadAndPendingExclude` | kernel/core/locking/qspinlock.c:437-470 | A queue head claims only when nobody owns the lock and no pending owner is waiting to take it |
| `QSpinlock.HeadFindsSuccessor` | kernel/core/locking/qspinlock.c:460-478 | A head that waits for its `next` pointer has a successor queued or bound to queue; in every continuation a bound one has queued after six steps of its own, and the next step of the second in the queue lets the head go on |
| `QSpinlock.BoundGetsQueued` | kernel/core/locking/qspinlock.c:318-413 | However other contexts interleave, a context bound to queue joins the queue after at most six steps of its own |
| `QSpinlock.RunKeepsQueue` | kernel/core/locking/qspinlock.c:460-478 | While the head waits, nobody leaves the queue |
| `QSpinlock.NodeInBounds` | kernel/core/locking/qspinlock.c:361-375 | Whatever nests on a CPU, the node index stays below the four per-CPU nodes and no two contexts share a node |
| `QSpinlock.NodesDistinct` | kernel/core/locking/qspinlock.c:361-375 | Contexts that hold a queue node hold different ones |
| `QSpinlock.CasFreeKeepsLock` | kernel/include/asm-generic/qspinlock.h:67-91 | A `cmpxchg` of the free word (trylock, fast path, or from the node) keeps every per-lock invariant |
| `QSpinlock.UnlockKeepsLock` | kernel/include/asm-generic/qspinlock.h:98-104 | Storing 0 to the lock byte keeps every per-lock invariant, whoever is pending or queued |
| `QSpinlock.FetchPendingKeepsLock` | kernel/core/locking/qspinlock.c:298-324 | The fetch-or of PENDING makes its caller the pending owner, or leaves it about to undo a bit only it set |
| `QSpinlock.DropPendingKeepsLock` | kernel/core/locking/qspinlock.c:318-352 | Undoing PENDING, and trading it for the lock, is done only by the recorded pending owner |
| `QSpinlock.ClaimFails` | kernel/core/locking/qspinlock.c:460-470 | A head whose `cmpxchg` of the word fails has a successor, present or bound to come |
| `QSpinlock.StepKeepsInv` | kernel/core/locking/qspinlock.c:281-485 | The invariant (queue chain, head, owner, pending, order, node nesting) is kept by every step of every context |
| `QSpinlock.RunKeepsInv` | kernel/core/locking/qspinlock.c:281-485 | The invariant holds at the end of every run |
| `QSpinlockCalls.ReturnsWithLock` | kernel/include/asm-generic/qspinlock.h:83-104 | In every run, a spin_lock that has returned has the lock, with its bit set, until the next call of its context; and one that has called spin_unlock does not |
| `QSpinlockCalls.TrylockReturns` | kernel/include/asm-generic/qspinlock.h:67-75 | In every run, a spin_trylock that has returned has the lock, or it saw a word that was not free |
| `QSpinlockCalls.TrylockStep` | kernel/include/asm-generic/qspinlock.h:67-75 | Its cmpxchg takes the lock exactly if it finds the word free; otherwise the call returns and changes nothing |
| `QSpinlockCalls.RunKeepsCall` | kernel/core/locking/qspinlock.c:281-485 | In every run, a context is in the code of its last call, for the lock it called it with, and at the end of a lock call it has the lock |
| `QSpinlockCalls.MovesOrWaits` | kernel/core/locking/qspinlock.c:281-485 | A step leaves a call where it is exactly if it waits there for the owner, its node, the word or its successor; otherwise it is nearer to its return |
| `QSpinlockCalls.MovesBounded` | kernel/core/locking/qspinlock.c:281-485 | In every run, a context makes at most eighteen moves for each of its calls |
| `QSpinlockCalls.NoDeadlock` | kernel/core/locking/qspinlock.c:281-485 | In every run, while a context is in a call for a lock, somebody has returned with that lock, or the next step of some call for it is a move |
| `QSpinlockCalls.SecondUsesPending` | kernel/core/locking/qspinlock.c:318-352 | A second context sets PENDING, takes over when the owner unlocks, and takes no queue node |
| `QSpinlockCalls.LaterOnesQueue` | kernel/core/locking/qspinlock.c:309-315 | One that finds somebody waiting goes to the queue and leaves the word alone |
| `QSpinlockCalls.HandOver` | kernel/core/locking/qspinlock.c:298-307 | One that finds a hand-over from PENDING looks up to twice more, then sets PENDING itself if the lock was taken over, and queues if not or if somebody else waits |
| `QSpinlockCalls.NodeTriesOnce` | kernel/core/locking/qspinlock.c:377-384 | With a node taken, it gets the lock without queueing exactly if it finds the word free and it still is |
| `QSpinlockWord.TailRoundTrip` | kernel/core/locking/qspinlock.c:109-125 | `decode_tail` inverts `encode_tail`; an encoded tail is never 0 and does not reach into the lock and pending bytes |
| `QSpinlockWord.TailDecodes` | kernel/core/locking/qspinlock.c:109-125 | Encoding the decoded tail of any word the lock can hold gives that tail back |
| `QSpinlockWord.PendingStoresRefine` | kernel/core/locking/qspinlock.c:142-162 | Byte and half-word stores of the pending field are the field updates of the step machine |
| `QSpinlockWord.LockedStoresRefine` | kernel/core/locking/qspinlock.c:255-258 | Storing the lock byte changes only the lock field |
| `QSpinlockWord.XchgTailRefines` | kernel/core/locking/qspinlock.c:170-232 | Both forms of `xchg_tail` install the same word: the new tail, other fields kept |
| `QSpinlockWord.TestsRefine` | kernel/core/locking/qspinlock.c:281-345 | The masks that the slow path looks at read the fields, and comparing words is comparing fields |
| `QSpinlockWord.Unpack` | kernel/include/asm-generic/qspinlock_types.h:34-80 | Every word is put together from its fields |
| `QSpinlockWord.FieldsOfWord` | kernel/include/asm-generic/qspinlock_types.h:34-80 | A word put together from its three fields has those fields |
| `Mutex.MutualExclusion` | kernel/core/locking/mutex.c:76-212 | In every run at most one task holds the mutex, and the count is 1 exactly while nobody owns it |
| `Mutex.NoLostWakeup` | kernel/core/locking/mutex.c:111-212 | While tasks wait, the mutex is owned with a negative count, or a slow-path unlock is under way, or a queued task will retry its exchange by itself, also after signals and failed trylocks |
| `Mutex.FreeMutexIsTaken` | kernel/core/locking/mutex.c:134-180 | A free mutex is never left to sleepers alone, and a waiter that reaches its exchange takes it |
| `Mutex.UnlockWakesSomebody` | kernel/core/locking/mutex.c:185-212 | An unlock with waiters either goes through the slow path or leaves a waiter about to retry |
| `Mutex.LockReturns` | kernel/core/locking/mutex.c:120-179 | In every run, mutex_lock returns only with the mutex; the interruptible form returns without it exactly if its exchange found the mutex taken and then a signal was pending; a call that found it free has it |
| `Mutex.TrylockReturns` | kernel/core/locking/mutex.c:191-298 | In every run, a trylock that has returned has the mutex exactly if it found it free, and a task back from unlock does not have it |
| `Mutex.RunKeepsCall` | kernel/core/locking/mutex.c:111-298 | In every run, a task is in the code of its last call, and on the side that its own exchange and its signal test have decided |
| `Mutex.MovesOrWaits` | kernel/core/locking/mutex.c:120-285 | A step leaves a task where it is exactly if it waits for the spinlock or to be woken |
| `Mutex.NoDeadlock` | kernel/core/locking/mutex.c:111-298 | In every run, while a task is in a call, some task has returned with the mutex or can take a step further |
| `Mutex.SleepsUntilWoken` | kernel/core/locking/mutex.c:150-209 | In every run, a task is runnable unless it has set itself to sleep in the slow path and since then neither an unlock has found it first on the list nor anything else woken it |
| `Mutex.Uncontended` | kernel/include/asm-generic/mutex-dec.h:20-110 | Without contention lock and unlock stay on their fast paths and restore the mutex |
| `Mutex.WakeFirst` | kernel/core/locking/mutex.c:202-209 | The wakeup under `wait_lock` makes the first waiter retry, wherever it is on its way to sleep |
| `Mutex.InvExcludes` | kernel/core/locking/mutex.c:76-212 | The invariant gives one holder and ties the count to being free |
| `Mutex.InvWakes` | kernel/core/locking/mutex.c:111-212 | The invariant gives one of the three reasons a waiter will run |
| `Mutex.StepKeepsInv` | kernel/core/locking/mutex.c:111-298 | Every step of lock, interruptible lock, unlock and trylock, and every signal or stray wakeup, keeps the invariant |
| `Mutex.RunKeepsInv` | kernel/core/locking/mutex.c:111-298 | The invariant holds at the end of every run |
| `Bits.FlipBit` | kernel/mm/internal.h:29-33 | The xor of `__find_buddy_pfn` moves an aligned frame number to the other half of the next larger block |
| `Bits.AlignedIsMask` | kernel/mm/page_alloc.c:144-160 | Alignment by bits is divisibility by the block size |
| `BuddyBlocks.BuddyGeometry` | kernel/mm/internal.h:29-33 | A block and its buddy are disjoint and are the two halves of the block both merge into |
| `BuddyBlocks.MergeFrees` | kernel/mm/page_alloc.c:144-205 | Freeing with merging keeps blocks aligned, disjoint and coalesced, and frees exactly the frames of the block |
| `BuddyBlocks.ExpandSplits` | kernel/mm/page_alloc.c:564-578 | Splitting keeps the same invariant, and what remains is the lowest block of the wanted order |
| `BuddyBlocks.Canonical` | kernel/mm/page_alloc.c:144-205 | Coalesced free blocks are determined by the free frames: two such sets with the same frames are equal |
| `BuddyBlocks.AllocThenFree` | kernel/mm/page_alloc.c:564-683 | Taking a block of any order out of a larger one and freeing it restores exactly the free blocks of before |
| `BuddyBlocks.BuddyNotFree` | kernel/mm/page_alloc.c:162-176 | The buddy of a free block below the top order is never entirely free |
| `BuddyBlocks.FullyFree` | kernel/mm/page_alloc.c:162-176 | An aligned block all of whose frames are free lies inside one free block |
| `FreeLists.DelBlock` | kernel/mm/page_alloc.c:106-112 | Unlinking a block with `rmv_page_order` and `nr_free--` keeps lists, marks and counts in agreement |
| `FreeLists.PutBlock` | kernel/mm/page_alloc.c:100-104 | Linking a block with `set_page_order` and `nr_free++` keeps them in agreement |
| `PageAlloc.Zone.constructor` | kernel/mm/page_alloc.c:955-963 | Empty free lists and unmarked pages are a valid zone |
| `PageAlloc.Zone.BuddyTest` | kernel/mm/page_alloc.c:125-142 | `page_is_buddy` holds exactly if the buddy is a free block of this zone and order |
| `PageAlloc.Zone.FreeOnePage` | kernel/mm/page_alloc.c:144-205 | The free blocks become those of merging the block in; the frames freed are exactly its frames; the result is at the tail of its list if a further merge is likely, else at the head; other zones keep their marks |
| `PageAlloc.Zone.LinkFree` | kernel/mm/page_alloc.c:178-204 | The merged block goes to the tail of its list exactly if a further merge is likely |
| `PageAlloc.LikelyExactly` | kernel/mm/page_alloc.c:189-200 | It is likely exactly if the buddy of the parent is marked free, below the two top orders |
| `PageAlloc.Zone.MergeLikely` | kernel/mm/page_alloc.c:189-200 | When the parent begins in the zone, exactly if that buddy is a free block |
| `PageAlloc.Zone.Coalesce` | kernel/mm/page_alloc.c:158-176 | The loop: the block that all free buddies merge into, with these unlinked |
| `PageAlloc.Zone.AbsorbBuddy` | kernel/mm/page_alloc.c:158-176 | One turn of it, made exactly if the buddy is a free block |
| `PageAlloc.Zone.Unlink` | kernel/mm/page_alloc.c:167-176 | A merged buddy leaves its list, its mark and the count |
| `PageAlloc.Zone.Expand` | kernel/mm/page_alloc.c:564-578 | Every upper half from the wanted order up is at the head of its list, marked and counted; other lists are unchanged |
| `PageAlloc.Zone.SplitOff` | kernel/mm/page_alloc.c:570-577 | One halving: the upper half is added, the lower half is apart from all free blocks |
| `PageAlloc.Zone.RmqueueSmallest` | kernel/mm/page_alloc.c:660-683 | The first block of the smallest sufficient order, split down; NULL exactly if no block of that order or a larger one is free |
| `PageAlloc.Zone.TakeAndExpand` | kernel/mm/page_alloc.c:669-680 | The taken block leaves the free blocks, and only its lowest part stays out of them |
| `PageAlloc.FreePagesMemory` | kernel/mm/page_alloc.c:485-499 | A range of frames is tiled, without gap or overlap, by aligned blocks below the top order, also from frame 0, whatever the undefined `__ffs(0)` returns |
| `PageAlloc.Ffs` | kernel/mm/page_alloc.c:485-499 | The number of trailing zeros is the largest alignment |
| `PerCpuPages.PagesetSetBatch` | kernel/mm/page_alloc.c:1003-1006 | The batch is at least one and at most the high mark, unless it is one |
| `PerCpuPages.Pageset.constructor` | kernel/mm/page_alloc.c:965-986 | Empty caches over a valid zone |
| `PerCpuPages.Pageset.FreePcppagesBulk` | kernel/mm/page_alloc.c:345-396 | Exactly the last `count` pages of the list return to the buddy lists, none is lost, and no empty list is popped |
| `PerCpuPages.Pageset.PopTail` | kernel/mm/page_alloc.c:353-386 | The pages popped are the end of the list, in reverse |
| `PerCpuPages.Pageset.FreeAll` | kernel/mm/page_alloc.c:388-395 | Every popped page is freed, and nothing else |
| `PerCpuPages.Pageset.FreeUnrefPageCommit` | kernel/mm/page_alloc.c:738-750 | The page goes to the head of the list; at the high mark exactly one batch goes back; free, cached and handed-out frames still partition the zone; the lists of other CPUs are unchanged |
| `PerCpuPages.Pageset.RmqueueBulk` | kernel/mm/page_alloc.c:700-728 | Up to `count` pages move to the end of the list; fewer only if the buddy lists are empty |
| `PerCpuPages.Pageset.RmqueuePcplist` | kernel/mm/page_alloc.c:789-810 | If the list has a good page, the first one, with exactly the bad ones before it dropped; NULL only when neither the list nor the buddy lists have one; other lists are unchanged |
| `PerCpuPages.Pageset.NextPage` | kernel/mm/page_alloc.c:797-806 | The first page, after a refill if the list was empty; none exactly if there is nothing to refill from |
| `PerCpuPages.Pageset.PopFirst` | kernel/mm/page_alloc.c:804-806 | The first page leaves the list and becomes handed out |
| `PerCpuPages.Pageset.FreeFrame` | kernel/mm/page_alloc.c:388-395 | One page returns to the buddy lists |
| `PerCpuPages.Pageset.TakeFrame` | kernel/mm/page_alloc.c:707-723 | One page from the buddy lists, failing exactly when they are empty |
| `PerCpuPages.BlockFreed` | kernel/mm/page_alloc.c:446-457 | Freeing a block of any order adds exactly its frames to those not handed out, and disturbs no cache |
| `PerCpuPages.BlockTaken` | kernel/mm/page_alloc.c:845-850 | Taking one removes exactly its frames, none of which was cached |
| `PerCpuPages.Pageset.FreeBlock` | kernel/mm/page_alloc.c:454-456 | The partition of the frames for a freed block of any order |
| `PerCpuPages.Pageset.TakeBlock` | kernel/mm/page_alloc.c:845-847 | And for one taken; NULL exactly if no block of that order or a larger one is free |
| `PerCpuPages.Pageset.FreeThePage` | kernel/mm/page_alloc.c:933-945 | Order 0 by way of the cache, other orders directly; in both cases exactly the frames of the block stop being handed out |
| `PerCpuPages.Pageset.RmqueueBlock` | kernel/mm/page_alloc.c:845-850 | Blocks with a bad page are dropped; the one returned has none; frames are neither lost nor handed out twice |
| `PerCpuPages.Pageset.Rmqueue` | kernel/mm/page_alloc.c:833-860 | The same for every order; without bad pages, NULL exactly if nothing of that order is free, nor cached for this CPU |
| `PerCpuPages.Pageset.DrainPagesZone` | kernel/mm/page_alloc.c:752-770 | All cached pages of one CPU become free |
| `PerCpuPages.Pageset.DrainOthers` | kernel/mm/page_alloc.c:879-886 | The caches of all other CPUs become free; the flag returned is that of the last CPU alone |
| `PerCpuPages.Pageset.GetPageFromFreelist` | kernel/mm/page_alloc.c:866-891 | Without bad pages, for every order: NULL exactly if nothing of that order is free, nor cached here, and either the last other CPU has nothing cached or no aligned block consists of frames that are free or cached elsewhere; the partition of the frames is kept throughout |
| `PerCpuPages.Pageset.BlockThere` | kernel/mm/page_alloc.c:879-888 | Once the other caches are given back, such a block is a free block |
| `PerCpuPages.RefusedThoughFree` | kernel/mm/page_alloc.c:879-891 | So a page can be refused although one is free, in a zone of any size: an example |
| `Slub.ObjectsPartition` | kernel/mm/slub.c:448-610 | Every object of every slab is in exactly one place: the slab free list, one CPU free list, or handed out |
| `Slub.UserWrite` | kernel/mm/slub.c:128-136 | Whatever the holder of an object writes into it, no free list is disturbed |
| `Slub.NewSlab` | kernel/mm/slub.c:177-213 | A new slab has all its objects on its free list |
| `Slub.KmemCache.constructor` | kernel/mm/slub.c:775-790 | A cache without slabs is valid |
| `Slub.KmemCache.SlabAlloc` | kernel/mm/slub.c:505-526 | An object nobody holds: the head of the CPU list, else of the list of its slab, else of the first partial slab that is not locked, else of a new slab; NULL exactly if the first two are empty, every partial slab is locked and the page allocator has no page |
| `Slub.KmemCache.SlabAllocSlow` | kernel/mm/slub.c:448-493 | The same for the slow path, whatever slabs are locked and whichever CPU the caller wakes up on; a new slab only if no partial one can be had |
| `Slub.KmemCache.GiveUpSlab` | kernel/mm/slub.c:471-472 | A CPU slab that is used up goes without any change to the partial list |
| `Slub.KmemCache.AllocFromPartial` | kernel/mm/slub.c:474-478 | The head of the first partial slab that is not locked; none exactly if all are |
| `Slub.KmemCache.AllocNewSlab` | kernel/mm/slub.c:480-491 | The first object of the new slab, on the CPU the caller is on, whose slab was flushed |
| `Slub.KmemCache.SlabFree` | kernel/mm/slub.c:593-610 | The object is no longer handed out; onto the CPU list, and nothing else, exactly if it is from the CPU slab |
| `Slub.KmemCache.SlabFreeSlow` | kernel/mm/slub.c:541-591 | Onto the slab list; the slab is discarded exactly if it was unfrozen and this was its last object in use, and joins the end of the partial list exactly if it was unfrozen and full; no other slab changes |
| `Slub.KmemCache.DeactivateSlab` | kernel/mm/slub.c:377-399 | The CPU list is merged, reversed, into the slab list; the slab is unfrozen and on the partial list as its counts say, or gone; nothing handed out and no other slab changes |
| `Slub.KmemCache.MergeLists` | kernel/mm/slub.c:384-396 | The loop: all of the CPU list is on the slab list, and counted |
| `Slub.KmemCache.MoveFirst` | kernel/mm/slub.c:385-396 | One object moves from the CPU list to the slab list, with its count |
| `Slub.KmemCache.DropCpuSlab` | kernel/mm/slub.c:397-398 | The unfrozen slab is where its free objects say: partial list, or discarded |
| `Slub.KmemCache.UnfreezeSlab` | kernel/mm/slub.c:345-375 | A slab with nothing in use is discarded exactly if enough partial slabs are kept, else last on the partial list; one with free objects comes first; a full one stays off it |
| `Slub.KmemCache.AddPartial` | kernel/mm/slub.c:261-275 | Head or tail of the partial list, with its count |
| `Slub.KmemCache.DiscardSlab` | kernel/mm/slub.c:225-236 | Only a slab with no object handed out goes away |
| `Slub.KmemCache.GetPartial` | kernel/mm/slub.c:307-343 | The first unlocked partial slab, frozen and off the list; none exactly if all are locked |
| `Slub.KmemCache.TakePartial` | kernel/mm/slub.c:293-305 | Freezing takes the slab off the partial list |
| `Slub.KmemCache.LoadFreelist` | kernel/mm/slub.c:459-469 | The CPU takes over the slab list and hands out its first object |
| `Slub.KmemCache.LinkObjects` | kernel/mm/slub.c:200-207 | The free pointers of a new slab lead through all its objects in order |
| `Slub.KmemCache.InstallNewSlab` | kernel/mm/slub.c:481-491 | A page becomes a slab and the CPU slab |
| `Slub.KmemCache.Scribble` | kernel/mm/slub.c:128-136 | Writing into a handed-out object keeps the cache valid |
| `KconfigExpr.ShortCircuit` | scripts/kconfig/kconfiglib.py:5992-6022 | Short-circuit evaluation gives the three-valued meaning, always n, m or y |
| `KconfigExpr.RelationsPartition` | scripts/kconfig/kconfiglib.py:6040-6046 | Of two values exactly one of less, equal and greater holds, and the other relations are made of these |
| `KconfigExpr.ParsePrint` | scripts/kconfig/kconfiglib.py:6064-6105 | Parsing the printed form of any expression consumes it all and gives the expression with its chains associated to the right, with `m` rewritten exactly if asked for |
| `KconfigExpr.ParsePrintValue` | scripts/kconfig/kconfiglib.py:6064-6105 | So it has the same value under every assignment |
| `KconfigExpr.ConditionValue` | scripts/kconfig/kconfiglib.py:3430-3445 | In a condition, where m is rewritten to m && MODULES, it has the value the expression has when m is no more than MODULES |
| `KconfigExpr.PrintsAlike` | scripts/kconfig/kconfiglib.py:6064-6105 | Two expressions print alike exactly if they differ only in how their chains of conjunctions and disjunctions associate |
| `KconfigExpr.PrintNorm` | scripts/kconfig/kconfiglib.py:6339-6344 | Printing does not see associativity |
| `KconfigExpr.NormMeaning` | scripts/kconfig/kconfiglib.py:5992-6022 | Reassociating changes no value |
| `KconfigExpr.WholeParses` | scripts/kconfig/kconfiglib.py:3380-3464 | A printed expression parses wherever it stands, up to a token that cannot continue it |
| `KconfigExpr.AndLast` | scripts/kconfig/kconfiglib.py:3421-3428 | An operand of a conjunction parses, parenthesised if it is a disjunction |
| `KconfigExpr.AndMore` | scripts/kconfig/kconfiglib.py:3421-3428 | What follows it is appended |
| `KconfigExpr.OrLast` | scripts/kconfig/kconfiglib.py:3380-3419 | The same for disjunctions |
| `KconfigExpr.OrMore` | scripts/kconfig/kconfiglib.py:3380-3419 | And what follows such an operand |
| `KconfigExpr.FactorParses` | scripts/kconfig/kconfiglib.py:3430-3464 | Symbols, negations and relations parse as factors |
| `KconfigExpr.ParseExpr` | scripts/kconfig/kconfiglib.py:3380-3419 | A successful parse consumes at least one token and none past the end |
| `KconfigExpr.ParseAndExpr` | scripts/kconfig/kconfiglib.py:3421-3428 | The same for and_expr |
| `KconfigExpr.ParseFactor` | scripts/kconfig/kconfiglib.py:3430-3464 | The same for factors |
| `KconfigExpr.Parser.CheckToken` | scripts/kconfig/kconfiglib.py:2589-2595 | The token is consumed exactly if it is the next one |
| `KconfigExpr.Parser.RunExpr` | scripts/kconfig/kconfiglib.py:3380-3419 | The parser with its moving cursor computes the grammar function, and fails where it does |
| `KconfigExpr.Parser.RunAndExpr` | scripts/kconfig/kconfiglib.py:3421-3428 | The same for and_expr |
| `KconfigExpr.Parser.RunFactor` | scripts/kconfig/kconfiglib.py:3430-3464 | The same for factors |
| `KconfigCache.Kconfig.Read` | scripts/kconfig/kconfiglib.py:4432-4527 | After any mix of reads, sets and unsets, reading a symbol gives what evaluation without caches gives |
| `KconfigCache.CachedIsScratch` | scripts/kconfig/kconfiglib.py:4432-4527 | Whatever is cached equals evaluation from scratch with the present user values |
| `KconfigCache.DropKeepsInv` | scripts/kconfig/kconfiglib.py:4863-4898 | Dropping a set of symbols and stopping at dependents without a cached visibility leaves only justified entries, although evaluation short-circuits |
| `KconfigCache.NoPromptNoEffect` | scripts/kconfig/kconfiglib.py:4900-4920 | A user value on a symbol without prompt changes no cached value |
| `KconfigCache.VisMeaning` | scripts/kconfig/kconfiglib.py:6290-6315 | Visibility is that of the best prompt, n exactly if all are n, but y in place of m unless the symbol is a tristate |
| `KconfigCache.TriMeaning` | scripts/kconfig/kconfiglib.py:4432-4507 | A value is never below what selects the symbol, never m for a bool, and without a select a visible user value counts up to the visibility |
| `KconfigCache.TriKeeps` | scripts/kconfig/kconfiglib.py:4432-4507 | Knowing more about other symbols does not change a value already determined |
| `KconfigCache.StrKeeps` | scripts/kconfig/kconfiglib.py:4290-4429 | The same for string values |
| `KconfigCache.VisKeeps` | scripts/kconfig/kconfiglib.py:6290-6315 | The same for visibilities |
| `KconfigCache.UndefinedReadsNothing` | scripts/kconfig/kconfiglib.py:3470-3484 | Constant and undefined symbols depend on no other symbol |
| `KconfigCache.Kconfig.constructor` | scripts/kconfig/kconfiglib.py:996-1003 | Only n, m and y have a value to begin with, and the dependents are built |
| `KconfigCache.Kconfig.ExprValue` | scripts/kconfig/kconfiglib.py:5992-6046 | Evaluation through the caches, with its short-circuits, and what it read stays cached |
| `KconfigCache.Kconfig.Compare` | scripts/kconfig/kconfiglib.py:6024-6046 | The comparison of a relation: as strings, as numbers, or as strings after a ValueError |
| `KconfigCache.Kconfig.Subtract` | scripts/kconfig/kconfiglib.py:6031-6036 | Both operands as numbers, the second not looked at if the first is none |
| `KconfigCache.Kconfig.Strcmp` | scripts/kconfig/kconfiglib.py:6037-6039 | The comparison of two string values |
| `KconfigCache.Kconfig.SymToNum` | scripts/kconfig/kconfiglib.py:6371-6379 | A bool or tristate counts as 0, 1 or 2, others by their string value |
| `KconfigCache.Kconfig.TypeOf` | scripts/kconfig/kconfiglib.py:4278-4288 | A tristate is a bool while MODULES is n |
| `KconfigCache.Kconfig.Visibility` | scripts/kconfig/kconfiglib.py:4521-4527 | The visibility, cached |
| `KconfigCache.Kconfig.PromptsValue` | scripts/kconfig/kconfiglib.py:6296-6300 | The maximum over the prompts |
| `KconfigCache.Kconfig.TriValue` | scripts/kconfig/kconfiglib.py:4432-4507 | The tristate value, cached; constant for other types |
| `KconfigCache.Kconfig.TriUncached` | scripts/kconfig/kconfiglib.py:4451-4507 | User value within visibility, or default and imply, then select, then promotion |
| `KconfigCache.Kconfig.DefaultOrImplied` | scripts/kconfig/kconfiglib.py:4470-4486 | Defaults, then imply if the direct dependencies are met |
| `KconfigCache.Kconfig.FirstDefault` | scripts/kconfig/kconfiglib.py:4474-4480 | The first default whose condition is not n |
| `KconfigCache.Kconfig.DefaultValue` | scripts/kconfig/kconfiglib.py:4474-4480 | Its value, limited by the condition |
| `KconfigCache.Kconfig.DefaultStr` | scripts/kconfig/kconfiglib.py:4363-4382 | Its string value |
| `KconfigCache.Kconfig.Selected` | scripts/kconfig/kconfiglib.py:4488-4495 | Reverse dependencies raise the value |
| `KconfigCache.Kconfig.Promoted` | scripts/kconfig/kconfiglib.py:4497-4501 | m becomes y for a bool, or when implied by y |
| `KconfigCache.Kconfig.StrValue` | scripts/kconfig/kconfiglib.py:4290-4429 | The string value, cached |
| `KconfigCache.Kconfig.NumberValue` | scripts/kconfig/kconfiglib.py:4317-4397 | A user value in the active range, or the default clamped to it |
| `KconfigCache.Kconfig.ActiveRange` | scripts/kconfig/kconfiglib.py:4325-4339 | The first range whose condition holds, with 0 for ends that are not numbers |
| `KconfigCache.Kconfig.FirstRange` | scripts/kconfig/kconfiglib.py:4325-4339 | The search for it |
| `KconfigCache.Kconfig.SetValue` | scripts/kconfig/kconfiglib.py:4602-4649 | A repeated value changes nothing, a value not fit for the type is refused, and after any other the caches are still right |
| `KconfigCache.Kconfig.UnsetValue` | scripts/kconfig/kconfiglib.py:4651-4658 | The user value is gone and the caches are still right |
| `KconfigCache.Kconfig.RecInvalidate` | scripts/kconfig/kconfiglib.py:4869-4898 | Exactly a set of defined symbols is dropped whose dependents all end without a cached visibility; MODULES drops all; it ends because ever fewer visibilities are cached |
| `KconfigCache.Kconfig.InvalidateDependents` | scripts/kconfig/kconfiglib.py:4878-4898 | The loop over the dependents, in any order |
| `KconfigCache.Kconfig.RecInvalidateIfHasPrompt` | scripts/kconfig/kconfiglib.py:4900-4920 | Invalidating only symbols with a prompt is enough |
| `KconfigCache.Kconfig.InvalidateAll` | scripts/kconfig/kconfiglib.py:3545-3550 | All defined symbols are dropped |
| `KconfigCache.Kconfig.BuildDep` | scripts/kconfig/kconfiglib.py:3470-3512 | The dependents of a symbol are exactly the defined symbols whose properties mention it |
| `KconfigCache.Kconfig.DependOnAll` | scripts/kconfig/kconfiglib.py:3485-3512 | The same for one symbol |
| `KconfigCache.Kconfig.DependOn` | scripts/kconfig/kconfiglib.py:6318-6336 | Every symbol of an expression that is not constant gets the dependent |
| `KconfigMeaning.EvalMeaning` | scripts/kconfig/kconfiglib.py:5992-6046 | As far as an expression can be evaluated from what is known, its value is its meaning in three-valued logic |
| `KconfigMeaning.CompMeaning` | scripts/kconfig/kconfiglib.py:6024-6046 | Two symbols compare as numbers if both are and not both have type string, else as strings |
| `KconfigMeaning.TriExactly` | scripts/kconfig/kconfiglib.py:4432-4507 | tri_value by its parts: the user value up to the visibility, else the first default that holds, limited by its condition and raised by an imply; then raised by selects; then m becomes y for a bool or if y implies it |
| `KconfigMeaning.StrMeaning` | scripts/kconfig/kconfiglib.py:4290-4429 | str_value by type: the letter of the tristate value; the visible user text, else the first default that holds; for int and hex only within the bounds of the first range that holds, and a default outside is replaced by the bound it passes |
| `KconfigMeaning.LettersRoundTrip` | scripts/kconfig/kconfiglib.py:4602-4649 | The strings n, m and y stand for the values with these letters, on bool and tristate symbols only; anything else for itself |
| `KconfigMeaning.AcceptedComesBack` | scripts/kconfig/kconfiglib.py:4602-4649 | Of n, m and y, set_value accepts exactly those that a fully visible symbol, neither selected nor implied, then has as its value |
| `KconfigMeaning.AcceptsExactly` | scripts/kconfig/kconfiglib.py:4602-4649 | What else set_value accepts: any text for a string, numbers of their base for int and hex, not negative for hex; and nothing else |
| `KconfigMeaning.TextComesBack` | scripts/kconfig/kconfiglib.py:4317-4402 | An accepted text is the string value of a visible symbol without ranges |
| `KconfigMeaning.DefaultTriMeaning` | scripts/kconfig/kconfiglib.py:4474-4480 | The default is that of the first condition that is not n, limited by it; n without one |
| `KconfigMeaning.DefaultTextMeaning` | scripts/kconfig/kconfiglib.py:4363-4382 | The same for the string value of the symbol a default names |
| `KconfigMeaning.RangeMeaning` | scripts/kconfig/kconfiglib.py:4325-4339 | The bounds are those of the first range whose condition is not n, with 0 for what is no number; none if all are n |
| `SmpCall.RunOnceInOrder` | kernel/core/smp.c:133-183 | On every CPU, in every interleaving, calls run in the order they were posted, each at most once, and those not yet run are exactly the ones in queued slots or in the handler |
| `SmpCall.NeverRefilledInUse` | kernel/core/smp.c:97-126 | A sender locks, fills or links a slot only while it is on no queue and in no handler |
| `SmpCall.WaiterSeesAllRun` | kernel/core/smp.c:193-318 | A waiting caller returns only after its function has run with its argument on every target |
| `SmpCall.NoLostInterrupt` | kernel/core/smp.c:133-318 | A queue with calls in it has an interrupt pending, a handler about to drain it, or a sender that has still to send |
| `SmpCall.CallsGetRun` | kernel/core/smp.c:133-183 | Once a queue will be noticed, then in every continuation the calls posted so far have run after at most four steps of the handler for each of them and each call posted meanwhile, and six more |
| `SmpCall.HandleWorks` | kernel/core/smp.c:133-183 | Every step of the handler brings them nearer |
| `SmpCall.CallsRun` | kernel/core/smp.c:133-183 | Any first calls in line that will be noticed are, in that time, run and their slots unlocked |
| `SmpCall.UnlockedAfterRun` | kernel/core/smp.c:172-182 | The handler unlocks a slot only after its call has run, on the CPU it was posted to |
| `SmpCall.StepKeepsInv` | kernel/core/smp.c:97-318 | Every step of every sender and handler keeps the invariant |
| `SmpCall.RunKeepsInv` | kernel/core/smp.c:97-318 | The invariant holds at the end of every run |
| `SmpCall.AddTarget` | lib/base/src/llist.c:36-47 | A successful insertion puts the call last in line, whatever happened to the list since its head was read |
| `SmpCall.ReverseLists` | lib/base/src/llist.c:87-99 | Each turn of the reversal keeps the two lists linked and the line in order |
| `SmpCall.UnlockTarget` | kernel/core/smp.c:172-182 | Reading `next` before unlocking keeps the rest of the handler list intact |
| `SmpOrigin.CallsAreStarted` | kernel/core/smp.c:193-318 | In every run, every call posted to a CPU or run on it was started by an event of the run with that CPU among its targets, and has the function and argument given there |
| `SmpOrigin.CallerReturns` | kernel/core/smp.c:193-318 | In every run, when a caller returns, the function and argument of the last call its CPU started have been posted to every CPU given there, and if it was to wait, have run on it |
| `SmpOrigin.RunKeepsOrigin` | kernel/core/smp.c:193-318 | Every busy sender works on the last call its CPU has started, as it was started |
| `SmpProgress.LockWaitEnds` | kernel/core/smp.c:97-318 | A caller of smp_call_function_many that waits for its slot for a target waits for nothing but the handler of that target: in every continuation the slot is unlocked after at most four steps of it for each call not yet run or posted meanwhile, and six more |
| `SmpProgress.InterruptComes` | kernel/core/smp.c:257-310 | In every run, a sender that owes a CPU an interrupt has sent it after six moves for each of its targets and two for each time that another step changed the list it was about to exchange |
| `SmpProgress.StandsStill` | kernel/core/smp.c:97-310 | Such a sender moves with every step it makes, unless it waits for a slot that is locked |
| `SmpProgress.WaiterMoves` | kernel/core/smp.c:312-318 | A waiting caller stands still exactly while the slot of its present target is locked |
| `SmpProgress.WaiterReturns` | kernel/core/smp.c:312-318 | In every continuation, one that has moved as often as it has targets left has returned |
| `SmpProgress.RunKeepsPair` | kernel/core/smp.c:97-318 | A slot of smp_call_function_many is locked only while being posted or in line, and while it is queued, its target is interrupted or its own sender has still to do so |
| `SmpProgress.Starvation` | lib/base/src/llist.c:36-47 | The retry of the insertion has no bound: for every n there is a run in which the sender makes n moves and a call it has queued is still not noticed |
| `SchedClockLatch.NeverAMix` | kernel/core/time/sched_clock.c:86-125 | A sched_clock that returns has used one published record in all fields, if fewer than 2^32 latch steps fell within its loop |
| `SchedClockLatch.ReturnsOnce` | kernel/core/time/sched_clock.c:86-102 | In every run, a reader returns once for each call |
| `SchedClockLatch.PublishedInOrder` | kernel/core/time/sched_clock.c:114-127 | In every run, the records readers are steered to are those of the updates, in order; all but the one just being stored |
| `SchedClockLatch.MixAfterWrap` | kernel/core/time/sched_clock.c:86-125 | The bound is sharp: with exactly 2^32 latch steps the 32-bit counter comes round and a mix can be returned |
| `SchedClockLatch.StepKeepsInv` | kernel/core/time/sched_clock.c:86-125 | Every store, latch step and load keeps the invariant |
| `SchedClockLatch.RunKeepsInv` | kernel/core/time/sched_clock.c:86-125 | The invariant holds at the end of every run |
| `SchedClockTime.Accuracy` | kernel/core/time/sched_clock.c:81-147 | After k updates without a counter wrap in between, the time trails exact conversion by less than k + 1 ns and never leads it |
| `SchedClockTime.ElapsedExact` | kernel/core/time/sched_clock.c:95-97 | The masked 64-bit difference of two counter readings is the true number of cycles between them |
| `SchedClockTime.ReadExact` | kernel/core/time/sched_clock.c:81-84 | Nothing overflows: the reading is the epoch plus the cut-off conversion |
| `SchedClockTime.MonotoneAcrossUpdate` | kernel/core/time/sched_clock.c:130-147 | A reading not after an update, from the old epoch, is never ahead of one not before it, from the new epoch |
| `SchedClockTime.NewEpochBehind` | kernel/core/time/sched_clock.c:130-147 | At the same count after an update, the new epoch reads one less than the old exactly if the two cut-off fractions make up a whole |
| `SchedClockTime.StepsBack` | kernel/core/time/sched_clock.c:130-147 | So time can step back by 1 ns: an example with the factors that a 2 GHz counter is registered with |
| `SchedClockTime.PeriodKeepsRange` | kernel/core/time/sched_clock.c:172-179 | Within twice the update period that registration sets, the counter has not wrapped and the product fits in 64 bits |
| `SchedClockTime.RegisteredAccuracy` | kernel/core/time/sched_clock.c:149-190 | So the accuracy holds for every run of updates that are at most one period late |
| `Clocks.CalcMultShift` | kernel/core/time/clocksource.c:42-71 | The search breaks exactly if shift 1 would fit; then mult is the rounded ratio for the largest shift that fits and no conversion within maxsec overflows 64 bits; otherwise shift 0 comes with the multiplier of shift 1 |
| `Clocks.TwoGigahertz` | kernel/core/time/clocksource.c:42-71 | For a 2 GHz counter over an hour the pair is 2^20 and 21 |
| `Clocks.CalcRoom` | kernel/core/time/clocksource.c:52-56 | How many bits the range leaves to the multiplier |
| `Clocks.SearchShift` | kernel/core/time/clocksource.c:62-68 | The largest shift that fits, or 0 |
| `Clocks.Scale` | kernel/core/time/clocksource.c:63-65 | One scaled ratio, without overflow |
| `Clocks.FoundFits` | kernel/core/time/clocksource.c:42-71 | A multiplier within the room does not overflow with any cycle count in range, nor the 32 bits it is stored in |
| `Clocks.NearestRatio` | kernel/core/time/clocksource.c:63-65 | The multiplier is the nearest to the exact ratio |
| `Clocks.NoBreakExample` | kernel/core/time/clocksource.c:69-70 | Without a break the pair is wrong: an example |
| `Clocks.LimitMult` | kernel/core/time/clocksource.c:316-326 | With a frequency, after at most one halving, made exactly if adjusting would overflow, mult can be adjusted either way within 32 bits; the unsigned shift wraps at 0 |
| `Clocks.CalcMaxNsecs` | kernel/core/time/clocksource.c:115-142 | The largest cycle count within the mask that the 32-bit sum of multiplier and adjustment does not take beyond 64 bits, and half the time it covers |
| `Clocks.DefermentSafe` | kernel/core/time/clocksource.c:115-142 | It is safe for every adjusted multiplier exactly if that sum fits in 32 bits or the whole mask is safe |
| `Clocks.DefermentExample` | kernel/core/time/clocksource.c:115-142 | Otherwise it is not: the largest multiplier of a self-defined clock source |
| `Clocks.BreaksWhen` | kernel/core/time/clocksource.c:42-71 | The search breaks unless the range takes up almost all of 64 bits |
| `Clocks.SchedClockBreaks` | kernel/core/time/sched_clock.c:172-172 | So it breaks for every 64-bit rate of a sched_clock, cut to 32 bits by the call, unless 0 is left, which the code would divide by |
| `Clocks.ClockEventBreaks` | kernel/core/time/clockevents.c:304-323 | And for every clock event device |
| `Clocks.ClockSourceBreaks` | kernel/core/time/clocksource.c:287-314 | And for every clock source registered in Hz or kHz |
| `Clocks.RangeExact` | kernel/core/time/clocksource.c:305-311 | The conversion range is the longest whole number of seconds the counter counts, but at least one, and at most 600 beyond 32 bits |
| `Clocks.SameRange` | kernel/core/time/clockevents.c:316-321 | And for a clock event device by the same rule |
| `Clocks.ZeroMult` | kernel/core/time/clockevents.c:33-35 | A zero multiplier is taken for 1 |
| `Clocks.RoundTrip` | kernel/core/time/clockevents.c:27-71 | For devices up to 1 GHz: converting a latch to ns and back gives the latch exactly if the shift loses no bits and 1000 ns are not more than the latch |
| `Clocks.RawRoundTrip` | kernel/core/time/clockevents.c:27-71 | Without the floor of 1000 ns it always gives the latch |
| `Clocks.FloorExample` | kernel/core/time/clockevents.c:69-71 | With it, one tick of a 1 GHz device comes back as 1000 |
| `Clocks.SaturatedFalls` | kernel/core/time/clockevents.c:37-42 | A saturated conversion always comes back smaller |
| `Clocks.UpperLimit` | kernel/core/time/clockevents.c:44-71 | At every frequency, the upper limit converts back to no more than the device can count exactly if 1000 ns do |
| `Clocks.UpperLimitExample` | kernel/core/time/clockevents.c:304-326 | Otherwise it can be far more: a device of 1.5 GHz that counts one tick, with the factors it is configured with |
| `Clocks.LowerLimit` | kernel/core/time/clockevents.c:44-71 | At every frequency, the lower limit converts back to no less than asked exactly if the shift loses no bits and the division is rounded up or exact; and to no more than (mult - 1) >> shift above, unless it is the floor |
| `Clocks.LowerLimitExample` | kernel/core/time/clockevents.c:304-326 | Where neither holds it is less: a device of 3 GHz with the factors it is configured with |
| `MmapCopy.AddressSpace.MemcpyVma` | kernel/mm/mmap.c:1013-1072 | The copy equals a byte-by-byte copy through flat memory: exactly the mapped prefix, nothing else touched; its length is returned as an int; the error cases change nothing |
| `MmapCopy.ToIntExact` | kernel/mm/mmap.c:1071-1071 | The int is the length copied exactly if that is below 2^31 |
| `MmapCopy.LongCopyExample` | kernel/mm/mmap.c:1071-1071 | Otherwise it can be negative: an example |
| `MmapCopy.NoWrap` | kernel/arch/arm64/include/asm/memory.h:36-37 | From a mapped address, no buffer in kernel memory, which lies above the user addresses, is long enough for `addr + size` to wrap |
| `MmapCopy.AddressSpace.CopyMapped` | kernel/mm/mmap.c:1029-1071 | The copy without its checks is the flat copy |
| `MmapCopy.ProgressKept` | kernel/mm/mmap.c:1045-1065 | Every memcpy of bytes that lie together carries the flat copy on |
| `MmapCopy.AddressSpace.CopyVmas` | kernel/mm/mmap.c:1033-1069 | The VMA loop goes on exactly as long as VMAs follow without a gap, and keeps every invariant that the single memcpys keep |
| `MmapCopy.AddressSpace.CopyFollowing` | kernel/mm/mmap.c:1033-1069 | Its turns after the first |
| `MmapCopy.AddressSpace.CopyVma` | kernel/mm/mmap.c:1033-1069 | One VMA: to its end or the end of the request |
| `MmapCopy.AddressSpace.CopyPages` | kernel/mm/mmap.c:1045-1065 | The pages of one VMA, including the turn in which nothing is left to copy |
| `MmapCopy.AddressSpace.CopyPage` | kernel/mm/mmap.c:1046-1064 | The part of one page |
| `MmapCopy.AddressSpace.PartOfPage` | kernel/mm/mmap.c:1046-1059 | That part lies together in memory, and the next one goes on where it ends |
| `MmapCopy.AddressSpace.Memcpy` | kernel/mm/mmap.c:1060-1063 | A memcpy between a page and the buffer |
| `MmapCopy.AddressSpace.InsertVma` | kernel/mm/mmap.c:736-757 | A VMA is refused exactly if it overlaps one that is there; otherwise the order is kept |
| `MmapCopy.AddressSpace.FindVma` | kernel/mm/mmap.c:759-781 | The VMA that holds the address, or none if it is in a gap |
| `MmapCopy.AddressSpace.constructor` | kernel/mm/mmap.c:736-781 | Disjoint VMAs over a memory |
| `MmapCopy.CopyInThenOut` | kernel/mm/mmap.c:1074-1084 | With distinct backing pages, copying in and then out of a range returns the bytes, as far as it is mapped |
| `MmapCopy.CopyInTouchesOnly` | kernel/mm/mmap.c:1080-1084 | A copy in changes no byte but those behind the mapped prefix |
| `MmapCopy.CopyOutLength` | kernel/mm/mmap.c:1074-1078 | A copy out yields exactly the mapped prefix |
| `MmapCopy.DistinctPagesInjective` | kernel/mm/mmap.c:1013-1072 | If no page is behind two places, no byte is behind two addresses |
| `MmapCopy.Prefix` | kernel/mm/mmap.c:1013-1072 | The longest prefix of the request that is mapped without a gap |
| `MmapCopy.EndIndexIs` | kernel/mm/mmap.c:1043-1043 | The int page index is exact, and -1 when a full copy meets an adjacent VMA |
| `PageTables.Mm.MapVma` | kernel/mm/mmap.c:625-658 | All of a VMA is mapped exactly if every allocation it takes succeeds, no page is missing and nr_pages is right; otherwise tables, counts, records and entries are as before, and 0 is returned in place of the error if only nr_pages is wrong |
| `PageTables.Mm.UnmapVma` | kernel/mm/mmap.c:207-233 | Nothing of the VMA remains, and other VMAs keep their tables and entries |
| `PageTables.Mm.FreeBadArea` | kernel/mm/mmap.c:314-353 | The rollback removes exactly what the VMA had recorded, walking past tables of other VMAs |
| `PageTables.Mm.FreeBad` | kernel/mm/mmap.c:235-312 | One level of the rollback |
| `PageTables.Mm.FreeBadEntries` | kernel/mm/mmap.c:250-312 | Its loop over the entries |
| `PageTables.Mm.MapAll` | kernel/mm/mmap.c:642-648 | The top-level loop of mapping, also when it stops midway |
| `PageTables.Mm.MapRange` | kernel/mm/mmap.c:562-623 | One level of mapping: the table is recorded before anything below it |
| `PageTables.Mm.MapEntries` | kernel/mm/mmap.c:589-623 | Its loop over the entries |
| `PageTables.Mm.SetPtes` | kernel/mm/mmap.c:574-584 | It succeeds exactly if no entry was set and no page is missing; then each entry has its page |
| `PageTables.Mm.ClearPtes` | kernel/mm/mmap.c:79-85 | The entries of the range are cleared, and no others |
| `PageTables.Mm.UnmapRange` | kernel/mm/mmap.c:70-205 | One level of unmapping: what is below goes first, and every table is found recorded |
| `PageTables.Mm.UnmapEntries` | kernel/mm/mmap.c:120-205 | Its loop over the entries |
| `PageTables.Mm.Alloc` | kernel/mm/mmap.c:355-560 | A table is created or shared, exactly if its allocations succeed, or nothing changes; its count is the number of VMAs recording it, and pgtables_bytes is the size of all tables |
| `PageTables.Mm.Release` | kernel/mm/mmap.c:87-98 | A table is freed exactly when the last record of it goes |
| `PageTables.Mm.AddVma` | kernel/mm/mmap.c:783-872 | A new VMA has no tables and no entries |
| `PageTables.Mm.constructor` | kernel/mm/mmap.c:927-955 | A new address space has no tables |
| `PageTables.TablesSpan` | kernel/mm/mmap.c:70-658 | Between operations, a table exists exactly if a mapped VMA spans it |
| `PageTables.NothingMapped` | kernel/mm/mmap.c:207-233 | With nothing mapped, no table is left |
| `PageTables.GetKeeps` | kernel/mm/mmap.c:391-412 | Counts agree with records after recording a table |
| `PageTables.PutKeeps` | kernel/mm/mmap.c:87-98 | And after dropping one |
| `PageTables.RefsUnique` | kernel/mm/mmap.c:314-353 | Records determine tables and counts |
| `PageTables.IndexExact` | kernel/arch/arm64/include/asm/kernel-pgtable.h:58-72 | Table i of level k has the 512^k pages from i * 512^k on under it, and no others |
| `PageTables.ThreeLevels` | kernel/arch/arm64/include/asm/kernel-pgtable.h:58-72 | So a PTE table maps 2^9 pages, a PMD table 2^18 and a PUD table 2^27 |
| `PageTables.NextPart` | kernel/mm/mmap.c:589-623 | The `*_addr_end` steps cut a VMA into its parts under one table each |
| `Cfs.KeyOrderExact` | kernel/core/sched/fair.c:126-129 | Comparing keys is comparing virtual runtimes exactly if the keys are no more than half the 64-bit range apart |
| `Cfs.KeyOrderStable` | kernel/core/sched/fair.c:126-129 | A change of min_vruntime keeps the order of two entities exactly if it changes nothing about that |
| `Cfs.TimelineExact` | kernel/core/sched/fair.c:134-169 | A tree ordered by keys is ordered by virtual runtimes exactly if no more than half the range lies between its first and its last key |
| `Cfs.KeyOrderInWindow` | kernel/core/sched/fair.c:126-129 | It is enough that all values lie in one half of the range |
| `Cfs.KeyOrderFlips` | kernel/core/sched/fair.c:126-129 | At half the range the order can flip: an example |
| `Cfs.PairwiseNotEnough` | kernel/core/sched/fair.c:126-129 | Three virtual runtimes pairwise within half the range can be ordered in a circle |
| `Cfs.DiffExact` | kernel/core/sched/fair.c:108-129 | The signed difference is the one value from -2^63 up to 2^63 that leads from the second to the first modulo 2^64 |
| `Cfs.ChargedAhead` | kernel/core/sched/fair.c:307-334 | A virtual runtime that is charged less than 2^63 is ahead of what it was by just that |
| `Cfs.LaterOfTwo` | kernel/core/sched/fair.c:108-115 | Within half the range, max_vruntime is the later of its two arguments |
| `Cfs.SmallerOfTwo` | kernel/core/sched/fair.c:117-124 | And min_vruntime the earlier |
| `Cfs.CfsRq.constructor` | kernel/core/sched/fair.c:108-187 | An empty queue |
| `Cfs.CfsRq.EnqueueTree` | kernel/core/sched/fair.c:134-169 | The tree stays in order, the entity comes after its equals, and the cached leftmost is the first |
| `Cfs.CfsRq.DequeueTree` | kernel/core/sched/fair.c:171-177 | The entity leaves, the others stay in order, and the cached leftmost is the new first |
| `Cfs.CfsRq.LeftmostIsMin` | kernel/core/sched/fair.c:179-187 | The cached leftmost entity has the smallest virtual runtime of the tree |
| `Cfs.CfsRq.UpdateCurr` | kernel/core/sched/fair.c:307-334 | min_vruntime becomes the later of itself and the smallest virtual runtime in use, and never goes back |
| `Cfs.CfsRq.AccountEnqueue` | kernel/core/sched/fair.c:360-366 | nr_running and load are those of the queued entities |
| `Cfs.CfsRq.AccountDequeue` | kernel/core/sched/fair.c:368-374 | The same on leaving |
| `Cfs.CfsRq.Place` | kernel/core/sched/fair.c:401-410 | A woken entity is never placed backwards |
| `Cfs.CfsRq.EnqueueEntity` | kernel/core/sched/fair.c:413-428 | The tree holds exactly the queued entities but the running one, counters agree, and only the running and the woken entity change their virtual runtime |
| `Cfs.CfsRq.Join` | kernel/core/sched/fair.c:425-427 | Its end: into the tree unless running |
| `Cfs.CfsRq.DequeueEntity` | kernel/core/sched/fair.c:430-440 | The same on leaving |
| `Cfs.CfsRq.Leave` | kernel/core/sched/fair.c:436-438 | Its end: out of the tree unless running |
| `Cfs.CfsRq.SetNextEntity` | kernel/core/sched/fair.c:456-466 | The entity to run leaves the tree |
| `Cfs.CfsRq.PickNextEntity` | kernel/core/sched/fair.c:468-478 | The entity with the smallest virtual runtime, none exactly if none is queued |
| `Cfs.CfsRq.PutPrevEntity` | kernel/core/sched/fair.c:480-492 | A still queued entity returns to the tree |
| `Ipc.OnceInOrder` | kernel/core/ipc.c:73-202 | Messages are received and removed by a reply, once each, in the order enqueued; the request count is 0 or 1; a message is received as it was sent exactly if no other answer was still to be copied into its node when it was filled, or an equal one |
| `Ipc.ReplyRemovesReceived` | kernel/core/ipc.c:159-202 | The next reply removes the message last received, however many have arrived since |
| `Ipc.WakeFindsMessage` | kernel/core/ipc.c:134-147 | A receiver that leaves its wait finds the list not empty |
| `Ipc.SenderReturnsAfterReply` | kernel/core/ipc.c:108-112 | A sender returns only after its message was removed by a reply, and unless it was stranded, with the answer of that reply or what its message was received with |
| `Ipc.AnswerReturnedExactly` | kernel/core/ipc.c:108-194 | In every run, also when nodes are used again, a sender that copies its own node out gets the answer of the reply exactly if the owner is not about to copy that answer in, or if the answer is what the message was received with |
| `Ipc.StrandedExactly` | kernel/core/ipc.c:189-195 | In every run, a sender is stranded exactly if it waits for a message whose node was overwritten with the notifier bit and that was replied to; a notification is left allocated by its reply exactly if it was overwritten without the bit |
| `Ipc.FreesOwnNode` | kernel/core/ipc.c:108-110 | A sender that returns frees its own node exactly if it is not stranded |
| `Ipc.StrandedWaits` | kernel/core/ipc.c:108-110 | From then on it waits, in every continuation in which its node is not allocated again |
| `Ipc.NoneStranded` | kernel/core/ipc.c:189-195 | No sender is stranded in a run in which no reply is called with the notifier bit |
| `Ipc.RequestReturned` | kernel/core/ipc.c:192-194 | The flag is set before the answer is copied, so a sender can get its own request back and free a node that is still to be written to: a run, for every request and answer |
| `Ipc.AnswerToAnother` | kernel/core/ipc.c:89-110 | That node is given to a second sender: the owner receives its own answer to the first, and the second returns with that answer: a run, for all contents |
| `Ipc.StrandedReturns` | kernel/core/ipc.c:189-195 | A stranded sender takes the answer to a third message in its node and frees it: a run |
| `Ipc.StepKeepsInv` | kernel/core/ipc.c:73-202 | Every step of senders and owner keeps the invariant |
| `Ipc.RunKeepsInv` | kernel/core/ipc.c:73-202 | The invariant holds at the end of every run |
| `RtSched.RtRq.BalanceAll` | kernel/core/sched/rt.c:108-171 | The load balancer is given every queued task exactly once, best priority first and each list from its tail, although any task may be removed as soon as it is returned; exactly those are gone, and the others stay in order |
| `RtSched.RtRq.Turn` | kernel/core/sched/rt.c:108-171 | One turn: the task returned is taken or left, and what is still to come is unchanged |
| `RtSched.RtRq.LoadBalanceStart` | kernel/core/sched/rt.c:108-131 | The first task of that order, with the rest still ahead |
| `RtSched.RtRq.LoadBalanceNext` | kernel/core/sched/rt.c:133-171 | The next task, none exactly at the end |
| `RtSched.RtRq.TakeBack` | kernel/core/sched/rt.c:162-170 | The iterator moves on before it returns a task |
| `RtSched.RtRq.DequeueReturned` | kernel/core/sched/rt.c:101-107 | Removing the task just returned changes nothing of what lies ahead |
| `RtSched.RemovalKeepsRest` | kernel/core/sched/rt.c:101-107 | The same for lists as values |
| `RtSched.OrderHas` | kernel/core/sched/rt.c:108-171 | The order contains exactly the queued tasks |
| `RtSched.OrderNoDup` | kernel/core/sched/rt.c:108-171 | And each only once |
| `RtSched.RtRq.Enqueue` | kernel/core/sched/rt.c:28-34 | The task is last on the list of its priority, and the bit is set |
| `RtSched.RtRq.Dequeue` | kernel/core/sched/rt.c:39-48 | The task is off its list, and the bit is cleared exactly if the list is empty |
| `RtSched.RtRq.Requeue` | kernel/core/sched/rt.c:54-59 | The task is moved to the end of its list |
| `RtSched.RtRq.PickNext` | kernel/core/sched/rt.c:76-93 | The first task of the best priority that has any, none exactly if none is queued |
| `RtSched.RtRq.FindNextBit` | kernel/core/sched/rt.c:82-84 | The next non-empty list, by the bitmap |
| `RtSched.RtRq.TaskTick` | kernel/core/sched/rt.c:206-230 | A FIFO task is left alone; the unsigned slice of a round-robin task counts down and is renewed when used up, and the task requeued exactly if it is not alone |
| `RtSched.RtRq.constructor` | kernel/core/sched/rt.c:28-34 | Empty lists, a bitmap with only the delimiter set |

## Left out

- Boot, ELF loading, device trees, printing, panics, interrupt controllers and user copies: input, output and hardware.
- Red-black trees: their balancing is a library matter, so trees are sequences in tree order.
- Memory barriers and weak memory: memory is sequentially consistent.
- The stand-alone MCS lock: the queue of the spinlock contains the same protocol.
- Read-write locks and softirqs: their layout or pending word gives no clean property.
- The paravirtual spinlock paths.
- Lock debugging, lockdep and owner checks of the mutex.
- Page checks, poisoning, compound pages, zone statistics and watermark checks of the page allocator; a page found bad is a parameter.
- `zone_batchsize`, and races between a CPU and another one that drains its page cache: operations on the caches are atomic.
- SLUB's slab orders and alignment, debugging, cache creation and destruction, and `kmem_cache_close`.
- SLUB at the granularity of single instructions: an operation holds its slab lock, so it is one step; which slabs others have locked is a parameter.
- Huge pages, protection bits, TLB flushes and `mprotect`.
- Physical addresses of page tables: a table is known by its level and index, and the three copies of the table functions are one with a level.
- String copies between address spaces, which return one more than they copy when no terminator is found.
- MmapCopy.AddressSpace.MemcpyVma: VMAs have fewer than 2^31 pages, and buffers are kernel memory, above all user addresses.
- The choice of targets in `smp_call_function_many`, calls to the own CPU and to offline CPUs: the model starts when the targets are known.
- PageTables.Mm.MapVma: of a VMA with fewer pages than its range, the code would read its page array beyond the end; the model is given what it finds there.
- Storing `func` and `info` as two steps, and CSD_FLAG_WAIT, which feeds a warning only.
- Suspending and resuming sched_clock, which write the even copy directly.
- The weighting of execution time, slices, preemption checks and the value from which a woken entity is placed: these are parameters of the CFS methods.
- Any claim that CFS charges exactly the time run: the start time is not refreshed when an entity is chosen.
- Load balancing between run queues, beyond its iterator; update of run-time statistics.
- The 60-second limit on waiting for an endpoint's owner, a failing allocation of a message, the sleeping and waking of senders, and copies of messages at a finer grain than one step.
- What happens after a stranded sender has freed a message that is not its own: the run ends there. A freed message is used again for messages only, so what a late write does to other users of its memory, or to the allocator's free list, is not modelled.
- Kconfig tokens, macros, files, warnings, choices, `assignable` and what is written to a .config file; int(), string comparison and number formatting are functions of the configuration.
- Fork, exec, exit, signals and system calls, which are mostly glue.

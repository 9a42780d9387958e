# The RT-Thread kernel, in Dafny

This project models the parts of RT-Thread whose correctness lies in the interplay of several functions, and proves what
they promise for every input, every run and every interleaving:

- the SMP scheduler with its two nested locks (`SmpModel`, `SmpProof`, `SmpIrq`, `SmpKernel`), the bitmap search (`Bits`), the
  intrusive lists (`RtList`) and the uniprocessor scheduler with its two-level bitmap (`UniScheduler`);
- the three memory managers: memheap (`Tiling`, `Rings`, `MemHeapLinks`, `MemHeap`), the small-memory heap (`SmallHeap`,
  `SmallHeapLists`, on the same `Tiling`) and the slab allocator over its page allocator (`PageList`, `PageLinks`,
  `SlabZones`, `Slab`, `SlabBytes`, `SlabKernel`);
- the timer skip list (`Timers`, `TimerModel`, `TimerEnds`, `TimerKernel`);
- the IPC objects: wait queues (`WaitQueue`, on linked nodes in `WaitNodes`), mutexes with priority inheritance
  (`MutexModel`, `MutexKernel`), mailboxes (`MailboxModel`, `MailboxKernel`), message queues (`QueueModel`, `QueueRuns`,
  `QueueKernel`) and event sets (`EventModel`, `EventPromise`, `EventKernel`);
- the Kconfig tool's expressions (`KconfigExpr`, `KconfigGrammar`, `KconfigParser`), what their values mean
  (`KconfigMeaning`) and its value cache (`KconfigCache`, `KconfigStore`).

Each component has two layers. A *model* gives every operation as a function on values and proves the laws of the
component about these functions: invariants of all runs, refinement of a simple reference, round trips. A *kernel* class
(`Kernel`, `Heap`, `Pages`, `Allocator`, `TimerList`, `MutexObject`, `Mailbox`, `MessageQueue`, `EventObject`, `Parser`,
`Kconfig`) holds the fields of the C structures or Python objects and updates them step by step, with the source's loops
and pointer writes; each of its methods is proved to have the effect of the model's function. Protocols are state
machines whose steps are the code between entering and leaving a critical section, so that every interleaving of CPUs
and threads is a run.

Where the code and its comments differ, the code is modelled. Five facts about the code came out of this, each with a
proof:

- The search of `rt_malloc` in `mem.c` passes over a free block that ends exactly at `heap_end` and fits exactly, and no
  other usable block (`SmallHeap.BoundMissesOnlyExactEnd`; `SmallHeap.EndNotUsed` is an instance).
- In every state of that heap, `rt_malloc` fails although a free block would do if and only if all such blocks lie below
  `lfree` (`SmallHeap.MallocExactly`). Where no free block lies below `lfree`, only an in-place shrink can put one there, and
  exactly those shrinks do whose cut-off end stays hidden (`SmallHeap.StepLow`, `SmallHeap.ShrinkLow`);
  `SmallHeap.StrandedExample` is an instance. Runs without such a shrink have first-fit search (`SmallHeap.SearchIsFirstFit`).
- `rt_realloc` in `mem.c` can refuse to give a block the size it was allocated with (`SmallHeap.ReallocFailsExactly`,
  `SmallHeap.SameSizeFails`).
- A mutex with first-come queue loses priority inheritance at those hand-overs, and only at those, at which the first waiter
  is less urgent than another one (`MutexModel.StepInherits`); `MutexModel.FirstComeInversion` is a run that gets there.
- The order of two wrapped ticks in `rt_timer_start` is the true order in a window that is three ticks wider on one side
  (`Timers.LaterExactly`). The loop of `rt_timer_check` ends if and only if every due periodic timer of period 0 that gets
  its turn is stopped by a callback of one that does (`TimerEnds.EndsExactly`); so one such timer that nobody stops keeps
  it from ending, and any state leads to that by one start (`TimerEnds.ZeroPeriodSpins`).

Sizes and constants are those of a 32-bit build: alignment 4, headers of 24 bytes (memheap), 12 bytes (mem.c) and 36 bytes
(slab zones), pages of 4096 bytes. Ticks are 32 bits wide and wrap.

## Model

| member | source | states |
|---|---|---|
| SmpProof.StepKeeps | rt-thread/src/scheduler.c:286-372 | Whatever step any CPU takes next (lock, spin, unlock, enter, exit, schedule, interrupt switch, suspend, resume, change of priority, startup, bind, boot), the whole invariant holds after it: threads in one place each, lists duplicate-free and at the right priority, bitmaps equal to the non-empty lists, nest counters and lock holders in agreement. |
| SmpProof.RunsKeepInv | rt-thread/src/scheduler.c:484-551 | In every state of every interleaving from boot the invariant holds, and every step the code could take there is defined: no empty list is ever popped and no counter goes below zero. |
| SmpProof.OnePlace | rt-thread/src/thread.c:648-727 | In every reachable state a started thread runs on at most one CPU, namely the one `oncpu` names; or it stands in exactly one ready list, once, the one of its binding and current priority, with `oncpu` detached; a READY thread is always in one of the two, a suspended one in no list. |
| SmpProof.LocksAreExclusive | rt-thread/src/cpu.c:35-88 | In every reachable state at most one CPU is past `rt_cpus_lock`, and it is the holder; a held lock has such a CPU (or one still booting). Every thread's `scheduler_lock_nest` is its open critical sections plus one if it holds the CPU lock; a thread with open critical sections owns `_rt_critical_lock` and is running. |
| SmpProof.ScheduleRunsMostUrgent | rt-thread/src/scheduler.c:297-370 | After an unlocked `rt_schedule` outside interrupts the CPU runs a READY thread that is at least as urgent as every thread left in a list this CPU may draw from. |
| SmpProof.IrqSwitchRunsMostUrgent | rt-thread/src/scheduler.c:497-548 | The same after the switch at the end of the outermost interrupt, when one was asked for. |
| SmpProof.EqualPrioritiesRotate | rt-thread/src/scheduler.c:310-334 | If the best waiting priority equals the running thread's, its head runs next, and the old thread goes to the very end of its own list; nobody else moves. |
| SmpProof.IrqSwitchRotates | rt-thread/src/scheduler.c:504-548 | The same at the end of an interrupt. |
| SmpProof.NobodyOvertakes | rt-thread/src/scheduler.c:562-719 | In no ready list, local or global, does any step of any CPU let a thread overtake another one, as long as both stay there and nobody sets the priority of the one in front. |
| SmpProof.OthersKeepRole | rt-thread/src/scheduler.c:286-551 | No step changes state, priorities, binding or critical sections of a thread it is not about, whoever is switched in or out; only a switch at the end of an interrupt takes one lock level, from the thread that leaves; only switches change where a thread runs. |
| SmpProof.StepAbout | rt-thread/src/thread.c:563-758 | The thread that a call is about ends suspended, READY, at its new priority, with one nesting more or less, bound to the CPU asked for (to any, if there is no such CPU), as that call promises, and is otherwise as before; a refused call leaves it alone. |
| SmpProof.NewcomerIsLast | rt-thread/src/scheduler.c:562-623 | Whatever step puts a thread into a ready list, local or global, it stands at the very end of it. |
| SmpProof.OwnListFirst | rt-thread/src/scheduler.c:107-173 | The global list is drawn from if and only if one of its threads is more urgent than all in the CPU's own lists; a tie goes to the own list. |
| SmpProof.BootRunsMostUrgent | rt-thread/src/scheduler.c:235-258 | The thread that a CPU starts with is at least as urgent as every thread left in a list that this CPU may draw from. |
| SmpIrq.CpuStep | rt-thread/src/scheduler.c:286-551 | Of all steps of all CPUs, only an `rt_schedule` inside an interrupt of the CPU sets its `irq_switch_flag`, and only the switch that serves it clears it; the CPU changes its thread only at the boot, in an unlocked `rt_schedule` outside interrupts, or in such a switch. |
| SmpIrq.RequestKept | rt-thread/src/scheduler.c:301-304 | Over every run: after an `rt_schedule` inside an interrupt the flag stays set, whatever any CPU does, until a switch outside interrupts and critical sections. |
| SmpIrq.RequestServed | rt-thread/src/scheduler.c:497-548 | And after the first such switch the flag is clear and the CPU runs a thread at least as urgent as every thread left in a list it may draw from. |
| SmpKernel.Kernel.InsertThread | rt-thread/src/scheduler.c:562-623 | The thread becomes READY; if detached it goes to the end of the list of its binding and priority and that priority's bit is set, in words of 32 bits; a thread that is current on a CPU is not queued. |
| SmpKernel.Kernel.RemoveThread | rt-thread/src/scheduler.c:669-719 | The thread leaves its list, and the bit goes exactly when the list is now empty. |
| SmpKernel.Kernel.HighestPriorityThread | rt-thread/src/scheduler.c:151-173 | Two `__rt_ffs` and one comparison yield the head of the list of the least set priority of both groups, global before local only if strictly more urgent. |
| SmpKernel.Kernel.SwitchIfNeeded | rt-thread/src/scheduler.c:306-365 | The common middle of both schedulers, thread by thread and bit by bit, has the effect of one rescheduling step of the model: stay, or detach, requeue, take the head out, hand the locks over. |
| SmpKernel.Kernel.CpusLockBegin | rt-thread/src/cpu.c:35-52 | Counters go up, and a CPU that was outside begins to spin; the invariant is kept. |
| SmpKernel.Kernel.CpusLockAcquire | rt-thread/src/cpu.c:35-52 | A spinning CPU becomes the holder when the lock is free; the invariant is kept. |
| SmpKernel.Kernel.CpusUnlock | rt-thread/src/cpu.c:58-71 | The lock is given back exactly at the outermost level; the invariant is kept. |
| SmpKernel.Kernel.CriticalEnter | rt-thread/src/scheduler.c:758-783 | `_rt_critical_lock` is taken exactly at the first open section, whether or not the CPU lock is held; the invariant is kept. |
| SmpKernel.Kernel.CriticalExit | rt-thread/src/scheduler.c:808-832 | The lock is given back exactly when the last section closes; the invariant is kept. |
| SmpKernel.Kernel.RtSchedule | rt-thread/src/scheduler.c:286-372 | `rt_schedule` is the model's schedule step; inside an interrupt it sets the CPU's switch flag and changes nothing else there; the invariant is kept. |
| SmpKernel.Kernel.DoIrqSwitch | rt-thread/src/scheduler.c:484-551 | `rt_scheduler_do_irq_switch` switches only if the flag is set, the scheduler is unlocked and the interrupt is the outermost; the invariant is kept though this switch never returns to its caller. |
| SmpKernel.Kernel.ThreadSuspend | rt-thread/src/thread.c:648-683 | A READY thread suspends itself while still current; the invariant is kept. |
| SmpKernel.Kernel.ThreadResume | rt-thread/src/thread.c:693-758 | A suspended thread is made READY by any CPU, also while it is still current on another one; the invariant is kept. |
| SmpKernel.Kernel.ThreadChangePriority | rt-thread/src/thread.c:563-604 | Whether running, queued or suspended, the thread ends with the new priority and mask, in the list of that priority if it was queued; the invariant is kept. |
| SmpKernel.Kernel.ThreadStartup | rt-thread/src/thread.c:278-310 | A thread that was only initialised becomes READY at its initial priority and enters a list; the invariant is kept. |
| SmpKernel.Kernel.SchedulerStart | rt-thread/src/scheduler.c:235-258 | The first choice on a CPU that runs nothing takes the head of the most urgent list and restores its lock state; the invariant is kept. |
| Bits.FfsIsLowest | rt-thread/src/kservice.c:1277-1291 | The four table look-ups give one more than the lowest set bit of any 32-bit word, and 0 for the zero word. |
| Bits.UpdatesAreSetUpdates | rt-thread/src/scheduler.c:591-605 | OR-ing a one-bit mask into a word adds one member, AND-ing with its complement removes one, and nothing else. |
| RtList.InsertAfter | rt-thread/include/rtservice.h:58-65 | Four pointer writes turn a ring into the ring with the node right behind the head. |
| RtList.InsertBefore | rt-thread/include/rtservice.h:73-80 | The same, with the node at the end of the list. |
| RtList.Remove | rt-thread/include/rtservice.h:86-92 | The node becomes a ring of its own, and the others stay a ring in their order; also for a node that was alone. |
| RtList.IsEmpty | rt-thread/include/rtservice.h:98-101 | One comparison decides whether the head is alone in its ring. |
| RtList.Len | rt-thread/include/rtservice.h:107-118 | The walk ends, and counts the members behind the head. |
| RtList.RotateKeepsRing | rt-thread/include/rtservice.h:47-50 | A list can be read from any of its nodes: every rotation of a ring is a ring. |
| WaitNodes.SuspendNode | rt-thread/src/ipc.c:79-122 | The loop of `rt_ipc_list_suspend` over the linked nodes of a wait queue, and the insertion before the node it stops at, put the thread where the sequence model puts it; all other links stay. |
| WaitNodes.ResumeFirst | rt-thread/src/ipc.c:133-146 | The node behind the head leaves the ring and is left alone; the others stay linked in order. |
| WaitNodes.LeaveQueue | rt-thread/src/thread.c:736-758 | A node at any place leaves the queue: on the threads, that one goes and the others keep their order. |
| UniScheduler.HighestIsMostUrgent | rt-thread/src/scheduler.c:107-124 | With up to 256 priorities, group word and table byte together lead to the least priority whose list is not empty. |
| UniScheduler.SwitchKeepsLists | rt-thread/src/scheduler.c:391-440 | After a switch to the head of a list, the lists again hold every READY thread but the running one, each once, at its priority. |
| UniScheduler.Scheduler.InsertThread | rt-thread/src/scheduler.c:625-658 | The thread is READY and, unless it is the running one, last in the list of its priority; both bitmap levels still agree with the lists. |
| UniScheduler.Scheduler.RemoveThread | rt-thread/src/scheduler.c:721-751 | The thread leaves its list; the table bit goes with the last thread of a priority, and the group bit with the last bit of a byte. |
| UniScheduler.Scheduler.constructor | rt-thread/src/scheduler.c:235-258 | With one thread started, and running, lists and both bitmaps are empty and the invariant holds. |
| UniScheduler.Scheduler.ThreadSuspend | rt-thread/src/thread.c:648-683 | A READY thread suspends itself while it still runs; it is refused otherwise; lists holding exactly the READY threads that do not run, and both bitmaps, stay right. |
| UniScheduler.Scheduler.ThreadResume | rt-thread/src/thread.c:693-758 | A suspended thread becomes READY, last in its list unless it still runs; the invariant is kept. |
| UniScheduler.Scheduler.ThreadChangePriority | rt-thread/src/thread.c:563-604 | Running, queued or suspended, the thread has the new priority; the invariant is kept. |
| UniScheduler.Scheduler.ExitCritical | rt-thread/src/scheduler.c:840-862 | At the outermost exit a most urgent READY thread runs; at inner ones nothing changes; the invariant is kept. |
| UniScheduler.Scheduler.Schedule | rt-thread/src/scheduler.c:378-475 | With the scheduler unlocked, the thread that runs afterwards is READY and at least as urgent as every thread in any list; with it locked nothing changes; if the thread changes, it was the head of its list and the old one is queued behind its equals. |
| Tiling.ReleaseIsCoalesce | rt-thread/src/memheap.c:536-591 | Freeing a block and merging with at most two neighbours gives the completely coalesced form of the tiling, as a fold over all blocks defines it. |
| Tiling.ReleaseUndoesTake | rt-thread/src/memheap.c:185-255 | Freeing what was just cut out of a free block restores the list of blocks exactly. |
| MemHeapLinks.UnlinkedSound | rt-thread/src/memheap.c:251-254 | Two pointer writes remove one block from the free ring; every other pointer of both rings, and every payload byte, is as before. |
| MemHeapLinks.PushedSound | rt-thread/src/memheap.c:582-586 | Writing a block in behind the list head puts it first in the free ring, and disturbs nothing else. |
| MemHeapLinks.ClearedSound | rt-thread/src/memheap.c:251-254 | Setting the free links of a block that has left the free list to NULL disturbs nothing. |
| MemHeapLinks.InsertedSound | rt-thread/src/memheap.c:193-213 | A new header inside a block splits it in two: physical ring, free ring and all payloads outside the new header are sound. |
| MemHeapLinks.DroppedSound | rt-thread/src/memheap.c:549-573 | Bypassing a header that is on no free list joins the two blocks, and keeps all other links and payloads. |
| MemHeapLinks.FlaggedSound | rt-thread/src/memheap.c:257-258 | Changing one used flag changes one block of the tiling and no pointer. |
| MemHeapLinks.CopiedSound | rt-thread/src/memheap.c:408-414 | Copying into the payload of a block disturbs no pointer and no other block. |
| MemHeap.Heap.constructor | rt-thread/src/memheap.c:50-121 | The pool starts as one free block and a used tail that stops merging around the ring; all of the heap's invariant holds. |
| MemHeap.Heap.Alloc | rt-thread/src/memheap.c:138-281 | It fails exactly if the rounded size is not below `available_size` or no free block is large enough, and then changes nothing; otherwise it gives out the first fit of the free list, split if the rest can hold a block, so that it has room for the rounded size and less to spare than makes a block, with the contents of all live blocks intact. The invariant covers both rings, the coalescing, the exact `available_size` and the bound by `max_used_size`; `max_used_size` is the most that was in use. |
| MemHeap.Heap.Free | rt-thread/src/memheap.c:495-595 | The blocks are the coalesced form of the old ones with this one unused, all other live payloads are intact, and the invariant holds. |
| MemHeap.Heap.Grow | rt-thread/src/memheap.c:350-401 | Growing in place moves the free neighbour's header up; the block's own bytes and all other live blocks are kept. |
| MemHeap.Heap.Shrink | rt-thread/src/memheap.c:432-485 | Cutting in place frees the end, merged with a free block behind it; the kept prefix and all other live blocks are intact. |
| MemHeap.Heap.Resize | rt-thread/src/memheap.c:310-491 | Which of the four things happens (grown, unchanged, cut, or moved to the first fit and the old block freed) follows from sizes alone, and the resulting blocks are given for each; the address stays exactly when the block fits in place; the kept prefix is found at the result; failure changes nothing and means that no block was large enough. |
| MemHeap.Heap.Realloc | rt-thread/src/memheap.c:284-492 | The same for unrounded sizes, with size 0 freeing, NULL allocating, and every other live block's bytes unchanged in all cases; while a block moves, `max_used_size` counts both places. |
| SmallHeap.RunsGood | rt-thread/src/mem.c:272-410 | Over any run of malloc, free and realloc the blocks tile the heap, no two neighbours are free, sizes are aligned, `used_mem` is the span of the used blocks and bounded by `max_mem`, and `lfree` is the end or a free block. |
| SmallHeap.MallocPromise | rt-thread/src/mem.c:272-410 | A failing malloc changes nothing; otherwise a free block has become a used one with room for the bytes, whole or cut: what it has to spare would not make a block, and what was cut off does; the used blocks are otherwise the same. |
| SmallHeap.FreePromise | rt-thread/src/mem.c:546-609 | The freed block is no longer in use, and the used blocks are otherwise the same, however far it merges. |
| SmallHeap.ReallocPromise | rt-thread/src/mem.c:421-509 | For a size other than 0: NULL, and nothing has changed; or a used block with room for the bytes, in the old place or in a place that was not in use, with the old block then given up; all other used blocks are the same. |
| SmallHeap.RunsKeepLow | rt-thread/src/mem.c:421-609 | Over any run of malloc, free and realloc in which no in-place shrink hides its end below `lfree`, every block below `lfree` is used. |
| SmallHeap.StepLow | rt-thread/src/mem.c:421-609 | From a state in which everything below `lfree` is used, each single malloc, free or realloc (refused, kept, moved or cut) leaves it so if and only if it is not an in-place shrink that hides its end. |
| SmallHeap.MallocExactly | rt-thread/src/mem.c:302-311 | In every state: malloc fails if and only if the request is 0, or larger than the heap, or all blocks that serve lie below `lfree`; otherwise it takes the first of those that do not. |
| SmallHeap.SearchIsFirstFit | rt-thread/src/mem.c:305-311 | After any such run, and so after any run of malloc and free, the search from `lfree` gives what a first-fit scan of all blocks gives, and fails exactly if no free block serves, where an exact fit at the very end does not serve. |
| SmallHeap.BoundMissesOnlyExactEnd | rt-thread/src/mem.c:305-307 | The strict bound shuts out precisely the last block when it fits exactly. |
| SmallHeap.EndNotUsed | rt-thread/src/mem.c:305-307 | An instance: a heap that is one free block does not give it away whole. |
| SmallHeap.FreeUndoesMalloc | rt-thread/src/mem.c:546-609 | Freeing what was just allocated restores blocks, `lfree` and `used_mem`; only the high-water mark remembers. |
| SmallHeap.ReallocGood | rt-thread/src/mem.c:421-509 | Every path of realloc (refuse, free, keep, cut, move) leaves a well-formed heap with exact accounting. |
| SmallHeap.ReallocFailsExactly | rt-thread/src/mem.c:461-509 | A request the block could already hold is refused if and only if the surplus is positive but at most a header plus the minimum size, and no other block can be had. |
| SmallHeap.ReallocExactly | rt-thread/src/mem.c:421-509 | In every state and for every size but 0: the block stays where it is if and only if it has the size or is cut to it, and then has it exactly; else it moves to the first block at or above `lfree` that serves, and the call fails, without effect, if and only if there is none or the heap is smaller than the request. |
| SmallHeap.ReallocToNothing | rt-thread/src/mem.c:438-442 | Size 0 frees the block, and no other, and returns NULL. |
| SmallHeap.PeakIsHighest | rt-thread/src/mem.c:421-509 | Over every run `max_mem` is the most that was in use at any moment, a block that moves being held twice until the old one is freed. |
| SmallHeap.SameSizeFails | rt-thread/src/mem.c:461-509 | An instance: reallocating a block to the size it was allocated with returns NULL. |
| SmallHeap.ShrinkLow | rt-thread/src/mem.c:471-498 | After cutting a block in place, everything below `lfree` is used if and only if it was before and the end cut off is not hidden below `lfree`. |
| SmallHeap.StrandedExample | rt-thread/src/mem.c:471-498 | An instance: after one shrink an allocation fails although a free block would serve. |
| SmallHeapLists.Heap.constructor | rt-thread/src/mem.c:204-257 | One free block and the sentinel; the offsets link the tiling. |
| SmallHeapLists.Heap.PlugHoles | rt-thread/src/mem.c:156-194 | Two tests on the neighbours' headers merge the block with both sides in the linked offsets, and `lfree` moves to the merged block exactly if it stood on a block that vanished. |
| SmallHeapLists.Heap.Malloc | rt-thread/src/mem.c:272-410 | The loop over offsets, the split and the advance of `lfree` have exactly the model's effect; `prev` inverts `next` except at the sentinel; no used block loses a byte, though headers are written over bytes. |
| SmallHeapLists.Heap.Free | rt-thread/src/mem.c:546-609 | The same for free, where no other used block loses a byte; NULL and addresses outside the heap change nothing. |
| SmallHeapLists.Heap.Realloc | rt-thread/src/mem.c:421-509 | The same for realloc, with NULL allocating and addresses outside the heap coming back unchanged; the bytes that fit are found at the result, whether it stays or moves, and no other used block loses a byte. |
| SmallHeapLists.Heap.ShrinkAt | rt-thread/src/mem.c:471-498 | The in-place cut writes the new header and merges to the right. |
| PageList.AllocLowest | rt-thread/src/slab.c:236-270 | `rt_page_alloc` returns NULL if and only if no n consecutive pages are free; otherwise it removes exactly n consecutive free pages, the lowest there are, and the list stays sorted, maximal and non-touching. |
| PageList.FreeAdds | rt-thread/src/slab.c:272-322 | `rt_page_free` adds exactly the freed pages, and the list stays sorted, maximal and non-touching. |
| PageList.Unique | rt-thread/src/slab.c:236-322 | A set of free pages has only one such list. |
| PageList.FreeUndoesAlloc | rt-thread/src/slab.c:236-322 | Freeing what was just allocated restores the very same list. |
| PageList.FreesCommute | rt-thread/src/slab.c:272-322 | The order of two frees does not matter. |
| PageLinks.Pages.PageAlloc | rt-thread/src/slab.c:236-270 | The walk with a pointer to the link that leads here, and the header written behind the taken pages, change the linked list as the model says. |
| PageLinks.Pages.PageFree | rt-thread/src/slab.c:272-322 | The same for the three ways of putting a run back: extend a run (and perhaps join two), prepend to a run, or insert a node. |
| SlabZones.Classes | rt-thread/src/slab.c:401-459 | For every size below the limit the index is one of the 72, the size it stands for is the rounded one, and rounding adds less than one grain. |
| SlabZones.IndexIsSize | rt-thread/src/slab.c:401-459 | Two sizes share an index if and only if they share a chunk size. |
| SlabZones.ChunkTwice | rt-thread/src/slab.c:710-718 | Rounding a rounded size changes nothing, so `rt_realloc` recognises its own chunks. |
| SlabZones.MaskClears | rt-thread/src/slab.c:401-459 | On words of any width, and with the complement of a power of two less one clears exactly the remainder. |
| SlabZones.MasksRound | rt-thread/src/slab.c:401-459 | All eight add-and-mask branches of `zoneindex` give the chunk size, for every size it accepts. |
| SlabZones.PowerTest | rt-thread/src/slab.c:631-638 | The bit trick of `rt_malloc` is true exactly for the powers of two among the chunk sizes. |
| SlabZones.NewZoneOk | rt-thread/src/slab.c:625-648 | Every freshly built zone holds at least three chunks within its pages behind its header, and exactly the first one is live. |
| SlabZones.ChunksAddUp | rt-thread/src/slab.c:543-568 | Live chunks, free list and never-used tail partition the chunk array: live plus `z_nfree` is `z_nmax`, and a zone counts as wholly free exactly when nothing is live. |
| SlabZones.TakeChunkOk | rt-thread/src/slab.c:543-568 | A chunk handed out, from the tail or the free list, was not live before, and becomes the only new live one. |
| SlabZones.GiveChunkOk | rt-thread/src/slab.c:830-842 | A chunk given back leaves the live ones, and only it does. |
| SlabZones.LiveInZone | rt-thread/src/slab.c:628-648 | Every live chunk lies behind the header and inside the pages of its zone. |
| SlabZones.ChunksApart | rt-thread/src/slab.c:556-559 | Two chunks of a zone do not overlap. |
| Slab.MallocKeeps | rt-thread/src/slab.c:478-667 | The whole invariant survives `rt_malloc`: page list, zones, size lists holding exactly the zones with free chunks, `memusage` leading back to each zone and run, idle zones counted, and no page lost. |
| Slab.NoRunIsNone | rt-thread/src/slab.c:236-270 | Page allocation in a heap fails exactly if no n consecutive pages belong to nobody. |
| Slab.MallocPromise | rt-thread/src/slab.c:478-667 | It returns NULL exactly for size 0 or if nothing is left to take from (and then changes nothing); otherwise the result is at least as large as asked, no byte of it was live before, and it is the one allocation that is added. |
| Slab.MapsBack | rt-thread/src/slab.c:825-828 | From any live chunk, `memusage` of its page leads to its zone. |
| Slab.LiveApart | rt-thread/src/slab.c:478-667 | Two live allocations that share a byte are the same. |
| SlabBytes.RecordsApart | rt-thread/src/slab.c:236-904 | No live allocation holds a byte of the allocator's own records: page headers, page table, zone headers, idle zones, links of free chunks. |
| Slab.FreePromise | rt-thread/src/slab.c:771-904 | Freeing a live allocation ends it and no other, and keeps the invariant, through retiring a zone and releasing an idle one. |
| Slab.ReallocPromise | rt-thread/src/slab.c:678-735 | For a size other than 0: it keeps the address if and only if the allocation is a chunk of the rounded size; else it returns NULL, without effect, if and only if nothing can be had for the request, and otherwise trades the allocation for at least n bytes nobody held; all others stay live. |
| Slab.ReallocToNothing | rt-thread/src/slab.c:686-691 | Size 0 ends exactly this allocation and returns NULL. |
| Slab.ReallocOfNothing | rt-thread/src/slab.c:684-685 | A NULL block makes it an allocation of n bytes, which fails exactly if nothing can be had for them. |
| Slab.SlackBounded | rt-thread/src/slab.c:854-901 | At most `NZONES` wholly free zones on the size lists and `ZONE_RELEASE_THRESH` on the idle list, together. |
| Slab.InitialInv | rt-thread/src/slab.c:344-395 | After initialisation the invariant holds, with the `memusage` table in the first pages and nothing live, whatever the table's memory held. |
| Slab.RunsKeepInv | rt-thread/src/slab.c:344-904 | Over every run of malloc, free and realloc from initialisation the invariant and the bound on idle zones hold. |
| SlabKernel.Allocator.constructor | rt-thread/src/slab.c:344-395 | `rt_system_heap_init` builds the model's initial heap over the real page list. |
| SlabKernel.Allocator.Malloc | rt-thread/src/slab.c:478-667 | All three ways (pages, listed zone, idle or new zone), with the loop that marks `memusage`, give the model's heap and address; whatever happens to the records, no live allocation loses a byte. |
| SlabKernel.Allocator.Free | rt-thread/src/slab.c:771-904 | The same for free, finding pages or zone through `memusage` alone, with relinking, retiring and releasing of zones; no other live allocation loses a byte. |
| SlabKernel.Allocator.Realloc | rt-thread/src/slab.c:678-735 | The same for realloc; the bytes that fit are found at the result, and no other live allocation loses one. |
| Timers.LaterExactly | rt-thread/src/timer.c:347-354 | For true times less than a full turn apart, the wrapped comparison of the insertion search gives the true order if and only if the first is less than half a turn ahead and at most half a turn and two ticks behind. |
| Timers.FourTicksLate | rt-thread/src/timer.c:347-354 | An instance: with a deadline four ticks overdue and a longest delay the comparison is wrong, so the bound of three is exact. |
| Timers.ReachedExactly | rt-thread/src/timer.c:500-504 | The expiry test is "deadline not after now" for deadlines within half a turn. |
| Timers.InsertIsSplice | rt-thread/src/timer.c:333-355 | Any place with no later deadline before it and a later one behind it is where stable sorted insertion puts the timer; equal deadlines stay first in, first out. |
| Timers.InsertBoth | rt-thread/src/timer.c:367-379 | Inserting into a row and the row below keeps the one a sublist of the other. |
| Timers.InsertBelow | rt-thread/src/timer.c:367-379 | A row that is left out stays a sublist of a row that takes the timer. |
| Timers.RemoveBoth | rt-thread/src/timer.c:109-117 | So does removal from both. |
| TimerModel.StartKeeps | rt-thread/src/timer.c:284-400 | Starting or restarting a timer keeps the skip list (every row a sublist of the next, the full row sorted by true deadline), for any number of rows and any height; the full row is the old one with the timer inserted behind all that are due no later; its timeout is its deadline, and no other timer changes. |
| TimerModel.StopKeeps | rt-thread/src/timer.c:410-435 | Stopping removes that timer from every row and keeps all others; it is refused, without effect, exactly for an inactive timer. |
| TimerModel.HeightIsPower | rt-thread/src/timer.c:364-380 | A started timer is in the row h above the full one if and only if the start counter is divisible by 4 to the power of h. |
| TimerModel.CheckPromise | rt-thread/src/timer.c:482-540 | The check ends; nothing due is left; it fires due timers only, each once and in order of deadline; every due timer that no callback stops is fired; a periodic one is set one period on, a one-shot one is gone, and all others keep their deadlines. |
| TimerModel.StepKeeps | rt-thread/src/timer.c:284-540 | With the check completed at each tick nothing is overdue between ticks, through any starts, stops and ticks, across the wrap. |
| TimerModel.NeverEarly | rt-thread/src/timer.c:482-540 | While fewer ticks pass than are left, an untouched timer waits and does not fire, whatever else is started, stopped or fired. |
| TimerModel.FiresExactly | rt-thread/src/timer.c:284-540 | A timer started at tick S with `init_tick` k > 0 fires in the check of tick S + k and in no earlier one, and is then re-armed or gone. |
| TimerModel.NextIsEarliest | rt-thread/src/timer.c:96-107 | The next timeout is the tick of the earliest deadline of all active timers, or the last tick of all if none is active. |
| TimerEnds.EndsExactly | rt-thread/src/timer.c:495-534 | From every state, with any periods and any callbacks that stop timers: the loop ends after some number of rounds if and only if each due periodic timer of period 0 that gets its turn is stopped by one that does; who gets a turn is computed from the due timers and the callbacks alone. |
| TimerEnds.EndsWithoutStops | rt-thread/src/timer.c:495-534 | With callbacks that stop nothing, it ends if and only if every due periodic timer has a period. |
| TimerEnds.ZeroPeriodSpins | rt-thread/src/timer.c:519-524 | In any state, starting a periodic timer of period 0 that no callback stops leads to a state from which no number of rounds ends the loop. |
| TimerEnds.CheckIsRounds | rt-thread/src/timer.c:495-534 | Where all periods are positive, the completed check is the state after as many rounds as timers fired, and there the loop has ended. |
| TimerKernel.TimerList.RemoveTimer | rt-thread/src/timer.c:109-117 | The loop over rows takes the timer out of every row. |
| TimerKernel.TimerList.FindPlaces | rt-thread/src/timer.c:330-358 | The search from the sparsest row down, each row starting where the one above stopped and comparing only wrapped ticks, finds in every row a place between the no-later and the later deadlines. |
| TimerKernel.TimerList.InsertAtPlaces | rt-thread/src/timer.c:364-379 | Splicing at those places, as high as the start counter says, is insertion into the lowest rows of the model. |
| TimerKernel.TimerList.Start | rt-thread/src/timer.c:284-400 | `rt_timer_start`, from unlinking to the active flag, is the model's start. |
| TimerKernel.TimerList.Stop | rt-thread/src/timer.c:410-435 | `rt_timer_stop` is the model's stop, refusing an inactive timer. |
| TimerKernel.TimerList.CheckTimers | rt-thread/src/timer.c:482-540 | The expiry loop ends, and is the model's check, for callbacks that stop any timers. |
| WaitQueue.EnqueueKeeps | rt-thread/src/ipc.c:79-122 | Queueing adds one thread once, and keeps a priority queue sorted. |
| WaitQueue.EnqueueJoins | rt-thread/src/ipc.c:79-122 | The thread is last of a first-come queue, and in a priority queue behind all that are as urgent and before all that are less urgent; the others stay in order. |
| WaitQueue.LeaveKeeps | rt-thread/src/ipc.c:133-146 | Leaving, by resumption or time-out, removes one thread once and keeps the order. |
| WaitQueue.LeaveIsLeft | rt-thread/src/thread.c:736-758 | One waiter goes, and those before and behind it close up in order. |
| WaitQueue.Suspend | rt-thread/src/ipc.c:79-122 | The loop puts the thread behind all that are at least as urgent, or last in a first-come queue. |
| MutexModel.StepKeeps | rt-thread/src/ipc.c:651-776 | Every take, release, time-out and hand-off, of any of several mutexes, keeps: value, hold and owner agree; queues are sorted and disjoint from owners; the owner is as urgent as each waiter; a thread that owns nothing has its own priority. |
| MutexModel.TakePromise | rt-thread/src/ipc.c:651-776 | Take succeeds if and only if nobody else owns the mutex; otherwise the thread gives up without effect or joins the queue at its place, and the owner becomes exactly as urgent as the more urgent of the two; nobody else changes priority. |
| MutexModel.ReleaseOk | rt-thread/src/ipc.c:787-878 | Release by anybody but the owner is refused without effect; an inner release counts down only; the last one gives the owner its own priority back and the mutex, held once, to the first who waits, or frees it. |
| MutexModel.NoInversion | rt-thread/src/ipc.c:651-878 | In every reachable state, a mutex with priority queue has an owner at least as urgent as every waiter; `value == 1` iff no owner iff `hold == 0`; nobody waits for a free mutex; whoever owns no mutex has exactly the priority it had. |
| MutexModel.StepInherits | rt-thread/src/ipc.c:651-878 | For mutexes of either kind: if every owner is as urgent as its waiters, a step keeps that if and only if it is not a hand-over to a first waiter that is less urgent than another. |
| MutexModel.FairRunsInherit | rt-thread/src/ipc.c:651-878 | Over every run in which all hand-overs are of the good kind, no owner is ever less urgent than a waiter, for first-come mutexes too. |
| MutexModel.FinalRelease | rt-thread/src/ipc.c:825-868 | The last release gives the thread back the priority it had at acquisition, and the mutex to the first waiter, who holds it once, or makes it free. |
| MutexModel.HoldCounts | rt-thread/src/ipc.c:651-878 | In every reachable state `hold` is the number of the owner's takes less its releases since it became owner, where becoming owner, by a take or by a hand-over, counts as one take. |
| MutexModel.HandOverReleasesOnce | rt-thread/src/ipc.c:825-852 | Over every run: a thread that got the mutex, by a take or by a hand-over, owns it, whatever others do, until it releases it, and one release ends that. |
| MutexModel.ReleaseUndoesTake | rt-thread/src/ipc.c:678-682 | A release undoes a recursive take: mutex and priorities are as before. |
| MutexModel.TakesBalanceReleases | rt-thread/src/ipc.c:651-878 | k more takes by the owner and k + 1 releases lead back to the free mutex and the same priorities, for every k. |
| MutexModel.FirstComeHandOver | rt-thread/src/ipc.c:838-868 | With a first-come queue, the new owner is as urgent as the remaining waiters if and only if the first waiter is at least as urgent as every waiter. |
| MutexModel.FirstComeInversion | rt-thread/src/ipc.c:838-868 | A run of one take, two threads that come to wait, and a release, after which a waiter is more urgent than the owner. |
| MutexKernel.MutexObject.Take | rt-thread/src/ipc.c:651-776 | The code of take, with its call to change the owner's priority and the queue insertion, is the model's take. |
| MutexKernel.MutexObject.Release | rt-thread/src/ipc.c:787-878 | The code of release, with restoring the priority and the hand-off, is the model's release; a thread that is not the owner is refused. |
| MutexKernel.MutexObject.TimeOut | rt-thread/src/thread.c:736-758 | The thread waits no longer, the other waiters keep their order, owner, hold, value and all priorities are unchanged, and the invariant of the mutex is kept. |
| MailboxModel.SendIsAppend | rt-thread/src/ipc.c:1439-1558 | A send succeeds exactly if the box is not full, and then the contents are the old ones with the mail appended; a refusal leaves them unchanged. A success wakes the first waiting receiver; a blocked sender joins its queue at its place. |
| MailboxModel.RecvIsPop | rt-thread/src/ipc.c:1587-1711 | A receive succeeds exactly if the box is not empty, and then returns the oldest mail; a refusal leaves the contents unchanged. A success wakes the first waiting sender; a blocked receiver joins its queue at its place. |
| MailboxModel.OffsetsModulo | rt-thread/src/ipc.c:1532-1539 | `in_offset` is `out_offset + entry` modulo the size. |
| MailboxModel.StepKeeps | rt-thread/src/ipc.c:1439-1711 | Every pass of every sender or receiver, first or repeated, every time-out and every reset keeps the ring well-formed, the order of mails, and that no wakeup is lost. |
| MailboxModel.FirstInFirstOut | rt-thread/src/ipc.c:1439-1755 | In every reachable state the mails accepted are those received followed by those in the ring, in order; waiting receivers mean at most as many mails as woken receivers still to run, waiting senders at most as many free places as woken senders; with nobody on the way, receivers wait only at an empty box and senders only at a full one. |
| MailboxKernel.Mailbox.SendPass | rt-thread/src/ipc.c:1439-1558 | The critical section of send, on the message array and its offsets, is the model's send. |
| MailboxKernel.Mailbox.RecvPass | rt-thread/src/ipc.c:1587-1711 | The same for receive. |
| MailboxKernel.Mailbox.ResetBox | rt-thread/src/ipc.c:1723-1755 | A reset empties the ring, and sends all receivers and then all senders away, in queue order. |
| QueueModel.PopFreeOk | rt-thread/src/ipc.c:1981-1992 | Claiming takes the first slot of the free chain, unless there is none; the queue is untouched. |
| QueueModel.LinkOk | rt-thread/src/ipc.c:2004-2102 | Linking a filled slot appends its message (send) or prepends it (urgent) to the messages in the queue; both chains stay well-formed, head and tail NULL together. |
| QueueModel.PopHeadOk | rt-thread/src/ipc.c:2235-2245 | Receiving unlinks the first message and leaves the rest in order; head and tail are NULL exactly for the empty queue. |
| QueueModel.PushFreeOk | rt-thread/src/ipc.c:2255-2257 | Returning a slot puts it on the free chain, and leaves the messages alone. |
| QueueModel.DrainOk | rt-thread/src/ipc.c:2294-2312 | A reset moves all queued slots to the free chain. |
| QueueRuns.StepKeeps | rt-thread/src/ipc.c:1961-2264 | However the two halves of sends, urgent sends and receives interleave, with time-outs and resets: every slot is in exactly one of free chain, claimed, filled, queue, taken; what a claimed or taken slot holds is nobody else's; no wakeup is lost. |
| QueueRuns.DequeSteps | rt-thread/src/ipc.c:1961-2264 | Each step acts on the messages as on a deque: link appends or prepends the message that was sent, receive takes the first, a taken slot still holds that message when it is copied, and every other step leaves the deque alone. |
| QueueRuns.Conserved | rt-thread/src/ipc.c:1961-2323 | In every reachable state free slots, queued ones and those in flight are `max_msgs` together; messages linked are those received, those dropped by resets and those still queued, as multisets; waiting receivers mean at most as many messages as woken ones. |
| QueueKernel.MessageQueue.constructor | rt-thread/src/ipc.c:1778-1825 | Initialisation strings all slots into the free chain. |
| QueueKernel.MessageQueue.Claim | rt-thread/src/ipc.c:1981-1995 | First section of sending: a slot, or full. |
| QueueKernel.MessageQueue.LinkLast | rt-thread/src/ipc.c:2003-2034 | Second section of `rt_mq_send`: the message is last, and the first waiting receiver is woken. |
| QueueKernel.MessageQueue.LinkFirst | rt-thread/src/ipc.c:2091-2118 | Second section of `rt_mq_urgent`: the message is first. |
| QueueKernel.MessageQueue.RecvPass | rt-thread/src/ipc.c:2158-2245 | One pass of receiving: the head, or queue up, or empty. |
| QueueKernel.MessageQueue.FreeSlot | rt-thread/src/ipc.c:2250-2259 | The copy and the second section of receiving. |
| QueueKernel.MessageQueue.ResetQueue | rt-thread/src/ipc.c:2277-2323 | The reset loops end, with an empty queue and nobody waiting. |
| EventModel.SameRule | rt-thread/src/ipc.c:1061-1089 | For one satisfied waiter the rule of the send loop and the immediate branch of receive give the same received value and the same remaining flags. |
| EventModel.SendPromise | rt-thread/src/ipc.c:1026-1108 | Sending is OR-ing into the flags and then letting every waiter in queue order receive without blocking: same threads woken, same values told, same flags left; afterwards no waiter is satisfied, in spite of flags cleared on the way. |
| EventPromise.RecvPromise | rt-thread/src/ipc.c:1124-1226 | A receive that does not wait is told a bit if and only if it is set and was asked for, and so all of an AND wish that is met; exactly the told bits of a CLEAR wish are lost. It succeeds if and only if the wish is met; otherwise it gives up without effect, or waits with just this wish at its place in the queue. |
| EventPromise.SendHandsOut | rt-thread/src/ipc.c:1026-1108 | A send hands out in queue order: every waiter whose wish is met at its turn is told exactly the bits it asked for that are set then, and goes; the others stay; each woken thread finds in its `event_set` what it was told. |
| EventPromise.NothingInvented | rt-thread/src/ipc.c:1054-1097 | However many are woken: every bit told was set before or sent, and asked for; an AND wish is told all of it; a bit is lost if and only if a thread with CLEAR was told it. |
| EventModel.LeftUnsatisfied | rt-thread/src/ipc.c:1054-1097 | While events are handed out they only get fewer, and whoever is left over is left because its wish does not hold at the end. |
| EventModel.RecvKeeps | rt-thread/src/ipc.c:1124-1234 | A receive, blocking or not, leaves no waiter whose wish holds. |
| EventModel.NobodyMissesEvents | rt-thread/src/ipc.c:1026-1274 | After any sequence of sends, receives, time-outs and resets nobody waits for events that are there. |
| EventKernel.EventObject.SendEvents | rt-thread/src/ipc.c:1026-1108 | The loop that walks the queue while it wakes and clears is the model's send; an empty set is refused. |
| EventKernel.EventObject.RecvEvents | rt-thread/src/ipc.c:1124-1226 | The code of receive is the model's receive, with its refusals and the queueing. |
| EventKernel.EventObject.ResetEvents | rt-thread/src/ipc.c:1246-1274 | A reset clears all flags and sends all waiters away, in order. |
| KconfigExpr.ValueIsMinMax | rt-thread/tools/kconfiglib.py:4986-5041 | In spite of the short cuts, conjunction is the minimum and disjunction the maximum, and values are tristate. |
| KconfigExpr.NestedIsNested | rt-thread/tools/kconfiglib.py:2737-2787 | The right-nested form is right-nested, and leaves expressions that are so already alone. |
| KconfigExpr.NestedValue | rt-thread/tools/kconfiglib.py:4986-5041 | Nesting to the right changes no value, under any assignment. |
| KconfigExpr.PrintThenParse | rt-thread/tools/kconfiglib.py:2737-2821 | For every expression, and with or without the rewriting of `m`, parsing the printed tokens consumes all of them and gives the right-nested form, with `m` rewritten; without rewriting that is the expression itself if it was right-nested, with the same value under every assignment. |
| KconfigExpr.RewrittenValue | rt-thread/tools/kconfiglib.py:2802-2807 | The rewriting of plain `m` to `m && MODULES` gives the value that the expression has where `m` counts for no more than MODULES. |
| KconfigExpr.NestedPrintsSame | rt-thread/tools/kconfiglib.py:5059-5100 | The right-nested form prints as the expression does. |
| KconfigExpr.PrintedAlike | rt-thread/tools/kconfiglib.py:5059-5100 | Two expressions print alike if and only if they have the same right-nested form: printing loses nothing but nesting. |
| KconfigGrammar.ParsesIffDerives | rt-thread/tools/kconfiglib.py:2737-2821 | A line of tokens is parsed to its end as e if and only if the grammar (disjunctions of conjunctions of factors) derives e from it by some division of the tokens; with or without the rewriting of `m`. |
| KconfigGrammar.ParsedIsDerived | rt-thread/tools/kconfiglib.py:2737-2821 | Whatever the parser takes from the front of any tokens is derived by the grammar, and the rest is left as it is. |
| KconfigGrammar.DerivedIsParsed | rt-thread/tools/kconfiglib.py:2737-2821 | What the grammar derives is parsed as just that, whatever follows that does not continue it. |
| KconfigGrammar.OneReading | rt-thread/tools/kconfiglib.py:2737-2787 | The grammar is unambiguous: no tokens have two readings. |
| KconfigGrammar.AndBindsTighter | rt-thread/tools/kconfiglib.py:2737-2787 | `A && B` or-ed with another conjunction needs no parentheses to be read as their disjunction, and parentheses around a conjunction change nothing. |
| KconfigParser.Parser.CheckToken | rt-thread/tools/kconfiglib.py:2009-2015 | The index moves on exactly if the next token is the wanted one. |
| KconfigParser.Parser.ParseExpr | rt-thread/tools/kconfiglib.py:2737-2777 | The three mutually recursive methods over the moving token index end, and parse what the grammar's functions on token lists parse. |
| KconfigParser.Parser.ParseAnd | rt-thread/tools/kconfiglib.py:2779-2787 | The same for `&&`. |
| KconfigParser.Parser.ParseFactor | rt-thread/tools/kconfiglib.py:2789-2821 | The same for symbols, relations, negation and parentheses. |
| KconfigParser.Parser.ExpectExprAndEol | rt-thread/tools/kconfiglib.py:2001-2007 | It accepts a line exactly if an expression can be parsed and no token is left after it. |
| KconfigParser.ReadBack | rt-thread/tools/kconfiglib.py:2001-2007 | Whatever expression a line was printed from, it is read to the end of the line as its right-nested form with `m` rewritten. |
| KconfigCache.TriLocal | rt-thread/tools/kconfiglib.py:3585-3662 | A value depends on nothing but the symbols its evaluation looks at, short cuts included. |
| KconfigCache.TriSees | rt-thread/tools/kconfiglib.py:3585-3662 | Evaluation looks only at symbols named in the definition and, for a tristate, at MODULES; visibility looks at no more than the value does. |
| KconfigCache.EvalIsValue | rt-thread/tools/kconfiglib.py:4986-5041 | Evaluation that records what it reads has the value of `expr_value`, for relations between bool and tristate symbols too. |
| KconfigCache.NestedEval | rt-thread/tools/kconfiglib.py:4986-5041 | So an expression and its right-nested form have one value in every configuration. |
| KconfigCache.TruthSolves | rt-thread/tools/kconfiglib.py:3585-3662 | Uncached evaluation solves the equations of all symbols at once. |
| KconfigCache.TruthUnique | rt-thread/tools/kconfiglib.py:3585-3662 | And it is the only solution. |
| KconfigCache.TruthFair | rt-thread/tools/kconfiglib.py:3585-3662 | In the solution every symbol is tristate, never m where its type (or MODULES being off) makes it a bool, and no less than its selects; a user value never raises it over visibility and selects unless it is implied; and a user value within these bounds is the value. |
| KconfigMeaning.TruthExactly | rt-thread/tools/kconfiglib.py:3585-3662 | Values are the uncached ones if and only if each symbol has: the user's value if it is visible and has one, for no more than the visibility, else the first default whose condition is not n, for no more than that condition, raised to its imply where the direct dependencies hold; raised to its select; with m promoted to y exactly for a bool (or with modules off) or an imply of y. |
| KconfigMeaning.PlainDefault | rt-thread/tools/kconfiglib.py:3617-3627 | A symbol that is not set, selected or implied has the value of its first open default, for no more than its condition. |
| KconfigMeaning.CappedUser | rt-thread/tools/kconfiglib.py:3613-3615 | A user's value above the visibility counts as the visibility: y where m is visible gives m, unless the symbol is selected or implied by y. |
| KconfigMeaning.VisSays | rt-thread/tools/kconfiglib.py:5215-5242 | Visibility is the greatest of the prompt conditions, n without prompt, and y in place of m for what cannot be m. |
| KconfigMeaning.EvalSays | rt-thread/tools/kconfiglib.py:4986-5041 | A conjunction is the least and a disjunction the greatest of its operands, `!` swaps n and y and keeps m, and a relation is y where the values compare so and n elsewhere. |
| KconfigCache.InvalidationSuffices | rt-thread/tools/kconfiglib.py:3995-4030 | After the user value of s changes, dropping s and whatever depends on a dropped symbol leaves every remaining cached value right, although the recursion stops at symbols without cached visibility. |
| KconfigCache.PromptlessSuffices | rt-thread/tools/kconfiglib.py:4032-4048 | For a symbol without prompt nothing need be dropped: no value depends on its user value. |
| KconfigStore.Kconfig.constructor | rt-thread/tools/kconfiglib.py:2827-2872 | A new configuration has a valid, empty cache, and x is a dependent of r exactly if x's definition mentions the non-constant r. |
| KconfigStore.Kconfig.BuildDep | rt-thread/tools/kconfiglib.py:2827-2872 | The loops over prompts, defaults and dependencies collect exactly these pairs. |
| KconfigStore.Kconfig.RecInvalidate | rt-thread/tools/kconfiglib.py:4001-4030 | The recursion ends on every dependency graph, cyclic or not. A cached symbol is dropped if and only if it can be reached from s over dependents with cached values, or MODULES can; the other cached values stay as they are. |
| KconfigStore.Kconfig.InvalidateAll | rt-thread/tools/kconfiglib.py:2902-2911 | Nothing stays cached. |
| KconfigStore.Kconfig.SetValue | rt-thread/tools/kconfiglib.py:3713-3796 | The value is accepted exactly if the type has it (or it is set already), and every value still cached is the uncached one under the new user values. |
| KconfigStore.Kconfig.UnsetValue | rt-thread/tools/kconfiglib.py:3798-3805 | The same for removing a user value. |
| KconfigStore.Kconfig.TriValue | rt-thread/tools/kconfiglib.py:3585-3662 | The cached property equals uncached evaluation under the current user values; reading only ever adds right values to the cache. |
| KconfigStore.Kconfig.Visibility | rt-thread/tools/kconfiglib.py:3675-3682 | The same for visibility. |
| KconfigStore.Kconfig.ExprValue | rt-thread/tools/kconfiglib.py:4986-5041 | Evaluation over cached properties, which fills the cache as it goes, gives the uncached value. |

## Left out

Scheduler and threads

- SmpKernel.Kernel.CriticalExit: the `rt_schedule` that ends `rt_exit_critical` is a step of its own, as are those that end startup and unlock; an exit without a matching enter is excluded, since the counters would no longer mean anything.
- SmpProof.LocksAreExclusive: freedom from deadlock of the two spin locks is not claimed; spinning is a step that is enabled when the lock is free.
- SMP with more than 32 priorities: `rt_schedule_remove_thread` tests the global table for a bound thread there; the two-level bitmap is modelled for one CPU.
- Context-switch assembly, IPIs, stacks, thread exit and the defunct list: a switch is one step that changes the current thread and restores its lock state.
- Threads are records in a table, and ready lists are sequences of their numbers; `RtList` has the node operations that the sequences stand for, and `WaitNodes` carries them through for wait queues. Entering and leaving interrupts, binding and the boot lock are steps of `SmpModel` without a method of their own.

Memory managers

- Overflow of `RT_ALIGN` on huge sizes is excluded; pools are aligned and hold at least one block.
- MemHeap.Heap.Alloc: failing of the heap's semaphore, and the assertions on magic and pool pointer, are not modelled; header bytes read as zero in the payload map; the order in which a merged neighbour is taken off the two rings is free list first.
- SmallHeap.ReallocPromise: speaks of blocks only; the bytes are in `SmallHeapLists.Heap.Realloc`, where a write to a header spoils all of its bytes.
- Slab.ReallocPromise: speaks of allocations only; the bytes are in `SlabKernel.Allocator.Realloc`, where each call may spoil every byte of the allocator's records.
- SlabKernel.Allocator.Malloc: each call is one step. The code releases the heap semaphore around its calls of the page allocator (slab.c:598-610 and 893-897, and for large blocks), and calls of other threads in these windows are not interleaved. `z_next` and `c_next` chains are sequences, while the page list has its real links.
- The multi-heap `rt_malloc` of memheap.c, `rt_calloc`, hooks and statistics counters: they add no state that the invariants depend on.

Timers

- TimerModel.FiresExactly: callbacks may stop any timers but start none, and periodic timers have `init_tick` at least 1 (`TimerEnds.EndsExactly` says what becomes of the others).
- Soft timers, hooks and `rt_timer_control`; rows are sequences.

IPC

- MutexModel.NoInversion: a thread owns or waits for at most one mutex at a time; the code boosts only the direct owner and restores per mutex, so chains of mutexes have no such bound. Signals and the `-RT_EINTR` retry are left out.
- A time-out may happen at any moment; tick counting is in the timer model. The effect of a changed priority on the ready lists is in `SmpModel`.
- Event flags are sets of bit numbers; counters (`value`, `hold`, `entry`) do not overflow.
- Semaphores, memory pools, detaching and deleting of objects: they would add only easy members.

Kconfig

- KconfigStore.Kconfig.TriValue: symbols are numbered so that each reads only smaller ones, which is the tool's own demand that dependencies have no loops; invalidation is proved to end without it.
- Choices, int, hex and string symbols, the caches of `str_value` and `assignable`, tokenising, macros, warnings and files.

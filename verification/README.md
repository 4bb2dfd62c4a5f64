# Verified model of the kernel's memory, messages and scheduling

These files model the parts of an ARM SMP microkernel that keep linked structures, page tables, queues and
locks consistent, and prove what those structures promise. Concrete code - lists linked through memory, arrays,
loops, in-place updates - is modelled as classes and methods. Each method is proved against functions on
sequences, sets and maps, and what the kernel promises is proved about these functions, mostly over every
reachable state or every run.

| Part | Files | What is proved |
|---|---|---|
| Buddy allocator | `BuddyPages`, `BuddyLists`, `BuddyLinks`, `Buddy` | The eleven free lists are at all times a function of the set of free pages: list k is the address-sorted list of the maximal free aligned blocks of 2^k pages |
| Page tables | `PageAccess`, `PageLookup`, `PageWrites`, `L2Tables`, `Mmu` | Mapping, translating and unmapping agree with a flat map from virtual to physical addresses, for any mix of supersections, sections, large and small pages, and each page grants the access that was asked for |
| Message passing | `PrioQueue`, `Glist`, `IpcState`, `IpcSteps`, `IpcRuns`, `IpcEffects`, `Ipc`, `IpcCopy` | Rendezvous is exactly once; no notification is lost or delivered twice; receives take the highest and oldest item; the page-wise copy between address spaces is the flat copy |
| Kernel heap | `WordBits`, `HeapBlocks`, `Owners`, `HeapOwned`, `KHeap` | The free list is the list of the maximal runs of free bytes; every byte has one owner |
| Memory pools | `PoolRing`, `RingLinks`, `MPool` | The ring is one circular list of disjoint blocks; every byte of the pool is free, live or lost, and none is ever lost if the alignment is at least a header |
| Scheduler | `SchedState`, `SchedSteps`, `SchedRuns`, `SchedEffects`, `Scheduler` | Every task has one place, and each operation moves exactly the tasks that it should; no dispatch finds an empty ready list; the cpu of least priority is known |
| Sleeping tasks | `SleepTimers`, `SleepRuns`, `Sleep` | The list of time differences refines a list of deadlines; each timer fires on its tick, ties in order |
| Locks | `Klock`, `MutexState`, `MutexRuns`, `MutexEffects`, `Mutex` | Mutual exclusion in every interleaving; a call that returns with a lock owns it until its unlock; exact priority inheritance and hand-off |
| Containers | `VectorSlots`, `Vector`, `LazyList`, `ChunkIds`, `Allocator` | A vector is a partial map; an allocator hands out free objects only, under ids that lead back to them |
| Virtual spaces | `GetPages`, `VSpaceState`, `VSpace` | Memory is split into the powers of two of its size, the parts fill their space exactly, and releasing the space undoes it |

`Utils` and `Arith` hold what the parts share.

Addresses are naturals, and pointers in linked structures are addresses or object references. Where several
calls share state (a channel, the scheduler, the mutexes), one call is one atomic step; the kernel lock itself is
modelled access by access. Answers of other parts of the kernel - what the memory manager or `kmalloc` gives, the
address of a reserved range - are parameters. Where the code meets a promise only under a condition, the condition
is proved to be exact, or an input is given that shows that it is needed:

* `HeapBlocks.InsertExactly`: a run of 4 bytes has no room for a header. Unless it extends the block before it, its
  header overwrites the size of the block behind it with that block's address, so the list takes in the run exactly
  if the two happen to be equal (`memory/kheap.c:134-145`).
* `HeapBlocks.GrowthRemainder` and `HeapBlocks.GrowthWithoutRoom`: growing the heap can
  leave 4 bytes, too few for a block header (`memory/kheap.c:192-216`), exactly when the request is 4 bytes short of
  a power of two and does not fit the usual growth.
* `HeapBlocks.FreeUndoesTake`: `kmalloc` may hand out a block 4 bytes larger than `kfree` takes back.
* `PoolRing.FreeRestoresBytes`: giving an allocation back restores the free bytes exactly if its block had just the
  size requested or room for a header behind it; `PoolRing.SmallAlignmentLoses` loses 12 bytes at an alignment of 4.
* `Vector.Expands`: a vector grows exactly below its maximal size 0xFFFE and is refused at it. `VectorInit` makes one
  slot more for every size from 0xFFFE on; such a vector, once full, is copied to an array that is too small
  (`lib/vector.c:73-87`, `lib/vector.c:111-136`). The model ends there, with `Overrun`.
* `PageAccess.FlagsGrant`: a page grants the access asked for exactly unless that is read-only for the kernel alone: it
  is encoded by AP[2:0] = 100, which is reserved (`arch/arm/mmu.c:139-147`). Kernel text asks for it
  (`memory/virtual/vpage.c:31`).
* `IpcEffects.SendReturnEffect`: a send gives its message id back exactly unless the reply's status is the one that
  stands for a dead channel; a server that responds with that status keeps the slot taken.
* `SchedEffects.ScheduleTakesTurns`: at a scheduler interrupt a task gives way to its equals exactly if its priority is
  above 1, since the ready list puts tasks of priority 0 and 1 before their equals.
* `SleepTimers.InsertFront` and `SleepTimers.ZeroWraps`: a time of 0 makes the list wait for 2^32 ticks.
* `SchedRuns.YieldNeedsTask` and `SchedRuns.IdleMayNotYield`: only idle tasks can find nothing to yield to.
* `IpcRuns.ReceiveNeedsNoClient`: a receive keeps the protocol's invariant exactly if the server has no client or
  takes a notification; a server in the state of `IpcRuns.ServerMayLoseClient` loses its client.
* `PageWrites.MappedBytes`: each byte of a mapped range translates to its place exactly if the range and the memory
  begin at the same offset in a page.
* `IpcCopy.StoreView`: a buffer whose pages share a frame ends up with what was sent exactly if the shared bytes agree.
* `VSpace.VSpace.MapThenUnmapSection`: unmapping the section just mapped takes it off the list exactly if it is not empty.
* `VSpace.VSpace.vSpaceUnmap`: unmapping a whole space needs second-level tables at the edges of its range, which a
  full space has (`VSpaceState.FullEdges`), and a space never used has exactly if its range begins and ends at section
  borders (`VSpaceState.UnusedEdges`); otherwise `MemoryUnmap` would follow an entry that is no table.
* `VSpaceState.OffsetCountsTwice`: the offset of an unaligned physical address is added twice on the way to the page
  tables (`memory/virtual/vmap.c:303`, `memory/virtual/vpage.c:50`).

## Model

| member | source | states |
|---|---|---|
| Buddy.GetOrder | memory/buddy_2.c:37-46 | the order of an address or size is fixed by its lowest bit, at most 10 |
| Buddy.GetMaxOrder | memory/buddy_2.c:53-65 | the order of the largest block that a size has room for |
| Buddy.Buddy.BlockGet | memory/buddy_2.c:67-79 | takes the lowest block of a list, or null exactly if the list is empty; the links stay consistent |
| Buddy.Buddy.BlockRemove | memory/buddy_2.c:81-100 | any block leaves its list, and only its list changes |
| Buddy.Buddy.IsBuddy | memory/buddy_2.c:102-117 | true exactly if, below order 10, the left block is aligned to the next order and the right one follows it |
| Buddy.Buddy.BlockInsert | memory/buddy_2.c:119-166 | the block joins its list in order of address |
| Buddy.Buddy.BlockInsertMerge | memory/buddy_2.c:168-242 | the in-place merge makes the lists of InsertMerge, for every cascade of merges |
| Buddy.Buddy.buddyInit | memory/buddy_2.c:273-295 | after initialization exactly the managed pages are free, and the lists are the canonical ones |
| Buddy.Buddy.buddyGetMemory | memory/buddy_2.c:300-339 | null exactly if no aligned run of the requested order is wholly free; otherwise the run was wholly free, is aligned, and leaves the free set |
| Buddy.Buddy.buddyFreeMemory | memory/buddy_2.c:344-369 | the range joins the free set, however it is cut into blocks, and the lists stay canonical |
| BuddyLists.FreeBuddyIff | memory/buddy_2.c:102-117 | the lists hold the buddy of a block exactly if all its pages are free |
| BuddyLists.InsertCanonical | memory/buddy_2.c:168-242 | inserting a block with all its merges gives the canonical lists of the larger free set |
| BuddyLists.TakeCanonical | memory/buddy_2.c:300-339 | taking fails exactly if nothing suitable is free, and otherwise leaves the canonical lists of the smaller free set |
| BuddyLists.ChunkFits | memory/buddy_2.c:344-369 | each chunk of the greedy decomposition is aligned and within the range |
| BuddyLists.FreeCanonical | memory/buddy_2.c:344-369 | freeing any range of pages gives the canonical lists of the larger free set |
| BuddyLists.CanonicalUnique | memory/buddy_2.c:168-242 | the free set alone determines the lists |
| BuddyLists.RunCanonical | memory/buddy_2.c:300-369 | the lists are canonical in every run of gets and frees |
| BuddyLists.HistoryForgotten | memory/buddy_2.c:300-369 | two histories with the same free pages left have the same lists |
| BuddyLists.AllFreedRestores | memory/buddy_2.c:273-369 | freeing everything, in any order and any cuts, restores the lists of initialization |
| BuddyPages.Laminar | memory/buddy_2.c:168-242 | two aligned blocks are disjoint or one contains the other |
| BuddyLinks.ByteOrderOfPage | memory/buddy_2.c:37-46 | the order of an address is that of its page |
| PageAccess.GetPteFlags | arch/arm/mmu.c:237-248 | the flags leave the two type bits and the base address free |
| PageAccess.LargePageFlags | arch/arm/mmu.c:287-300 | rearranged flags fit below a large page base and leave the type bits free |
| PageAccess.SmallPageFlags | arch/arm/mmu.c:305-316 | rearranged flags fit below a small page base and never set the type bit |
| PageAccess.FlagsGrant | arch/arm/mmu.c:117-147 | decoded bit by bit, the flags grant the rights, memory type, sharing, execution and scope that the configuration asks for, exactly unless that is read-only for the kernel alone |
| PageAccess.SectionGrants | arch/arm/mmu.c:253-282 | a section or supersection descriptor grants what its flags do, whatever its base address |
| PageAccess.LargePageGrants | arch/arm/mmu.c:87-103 | the rearranged flags of a large page grant the same |
| PageAccess.SmallPageGrants | arch/arm/mmu.c:105-121 | and those of a small page |
| PageAccess.MemTypesGrant | memory/virtual/vpage.c:28-38 | users may not write their text nor execute data and devices, and get nothing of the kernel's pages; but the rights to kernel text are reserved ones |
| PageLookup.SuperSectionEntry | arch/arm/mmu.c:253-266 | a supersection descriptor translates all its pages to consecutive frames, whatever its flags |
| PageLookup.SectionEntry | arch/arm/mmu.c:271-282 | so does a section descriptor |
| PageLookup.LargePageEntry | arch/arm/mmu.c:287-300 | so does a large page descriptor |
| PageLookup.SmallPageEntry | arch/arm/mmu.c:305-316 | a small page descriptor translates its page to its frame |
| PageLookup.TableEntry | arch/arm/mmu.c:321-330 | a table descriptor leads back to the table it was made for |
| Mmu.PageTables.L2PageTableAlloc | arch/arm/mmu.c:157-203 | a table of 256 zero words that no entry points to; no translation changes |
| Mmu.PageTables.L2PageTableDealloc | arch/arm/mmu.c:210-225 | the table is zero but for its link to the old top, and is the top of the free tables |
| L2Tables.InvAfterAttach | arch/arm/mmu.c:321-330 | attaching a zero table to an empty entry changes no translation; the entry leads to it and no other entry does |
| Mmu.PageTables.mmu_16M_page_map | arch/arm/mmu.c:253-266 | writes 16 equal descriptors for each supersection, in ascending frames, and no other word |
| Mmu.PageTables.mmu_1M_page_map | arch/arm/mmu.c:271-282 | writes one descriptor for each section, in ascending frames, and no other word |
| Mmu.PageTables.mmu_64K_page_map | arch/arm/mmu.c:287-300 | writes 16 equal words for each large page, in ascending frames, and no other word of any table |
| Mmu.PageTables.mmu_4K_page_map | arch/arm/mmu.c:305-316 | writes one word for each small page, in ascending frames, and no other word of any table |
| Mmu.PageTables.MapChunk | arch/arm/mmu.c:519-621 | one chunk makes progress, stays within its table and maps exactly its pages |
| Mmu.PageTables.MemoryMap | arch/arm/mmu.c:519-621 | every page of the range translates to its place, with the access that PageAccess.FlagsGrant says of the configuration, and every other page as before, access included, whatever mix of entries was chosen; partly covered entries are tables |
| Mmu.PageTables.MemoryVirtual2physical | arch/arm/mmu.c:695-732 | the result is the frame that the tables mean plus the offset in the page, 0 for an unmapped address |
| Mmu.PageTables.MemoryUnmap | arch/arm/mmu.c:626-690 | the range maps nowhere and every other page as before; second-level tables are reached only where one is attached |
| Mmu.PageTables.MapThenTranslate | arch/arm/mmu.c:519-621 | after a mapping, an address a of the range translates to p_addr + (a - v_addr) if both begin at the same offset in a page; outside a range of whole pages every address translates as before |
| PageWrites.MappedBytes | arch/arm/mmu.c:695-732 | the same for every byte, exactly if both ranges begin at the same offset in a page |
| Mmu.PageTables.MapThenUnmap | arch/arm/mmu.c:519-690 | unmapping what was mapped leaves every translation as it was before |
| PageWrites.UnmapUndoesMap | arch/arm/mmu.c:626-690 | mapping an unmapped range and unmapping it is the identity on translations |
| PageWrites.SuperSectionsMap | arch/arm/mmu.c:253-266 | writing n supersection entries maps exactly 4096 * n pages |
| PageWrites.SectionsMap | arch/arm/mmu.c:271-282 | writing n section entries maps exactly 256 * n pages |
| PageWrites.LargePagesMap | arch/arm/mmu.c:287-300 | writing 16 * n words maps exactly 16 * n pages |
| PageWrites.SmallPagesMap | arch/arm/mmu.c:305-316 | writing n words maps exactly n pages |
| L2Tables.PopTable | arch/arm/mmu.c:157-203 | the free tables stay zero but for their links, and apart from the attached ones, when one is taken |
| L2Tables.PushTable | arch/arm/mmu.c:210-225 | and when one is given back; no translation changes |
| PrioQueue.MsgInsertOrdered | kernel/ipc_2.c:59-85 | message and notification queues stay in order of priority and, among equals, of age |
| PrioQueue.ReadyInsertDescending | kernel/scheduler.c:69-78 | the ready list stays in order of priority |
| PrioQueue.ReadyInsertAmongEquals | kernel/scheduler.c:69-78 | priorities above 1 queue behind their equals, 0 and 1 before them |
| PrioQueue.InsertElements | lib/glist.c:30-79 | insertion adds the new object and keeps every other |
| PrioQueue.RemoveItemHolds | lib/glist.c:176-197 | removal takes out exactly the given object |
| Glist.Glist.GlistInsertObject | lib/glist.c:312-331 | the linked list becomes the queue with the object at its place, or at the end of a fifo |
| Glist.Glist.GlistInsert | lib/glist.c:30-79 | the walk and the relinking insert where the comparison function stops |
| Glist.Glist.GqueueInsert | lib/glist.c:128-148 | the object joins at the end |
| Glist.Glist.GlistRemoveNode | lib/glist.c:176-197 | the node leaves, the others keep their order and links |
| Glist.Glist.GlistRemoveSpecific | lib/glist.c:406-436 | refused exactly for a node that is in no list |
| Glist.Glist.GlistRemoveFirst | lib/glist.c:485-506 | the head, or null exactly if the list is empty |
| IpcState.RcvidRoundTrip | kernel/ipc_2.c:44-46 | message ids survive the round trip through an rcvid, which is never a reserved value |
| Ipc.Channel.MsgSend | kernel/ipc_2.c:777-866 | direct hand-over to a waiting receiver or queueing up, as one step of the protocol |
| Ipc.Channel.MsgSendReturn | kernel/ipc_2.c:866-881 | the woken sender returns its status and gives back its message id |
| Ipc.Channel.MsgGet | kernel/ipc_2.c:96-116 | a message exactly if it outranks every notification |
| Ipc.Channel.MsgReceive | kernel/ipc_2.c:886-993 | takes the next item or waits, as one step of the protocol |
| Ipc.Channel.MsgRespond | kernel/ipc_2.c:998-1063 | wakes the client, or is refused exactly if there is none |
| Ipc.Channel.MsgNotify | kernel/ipc_2.c:1163-1215 | wakes the first receiver or queues up, as one step of the protocol |
| IpcRuns.StepKeeps | kernel/ipc_2.c:777-1215 | every legal call keeps the protocol invariant |
| IpcRuns.RunKeeps | kernel/ipc_2.c:777-1215 | the invariant holds after every run |
| IpcRuns.InitialInv | kernel/ipc_2.c:434-500 | and at the beginning |
| IpcRuns.Rendezvous | kernel/ipc_2.c:777-1063 | after any run each message is answered, or queued, or held by exactly one server, and only one of these |
| IpcRuns.RunPastStays | kernel/ipc_2.c:777-1215 | what was sent, answered, notified or taken stays so: a message is never answered a second time, nor a notification taken by a second receiver |
| IpcEffects.NotifyIsKept | kernel/ipc_2.c:1163-1215 | after any run each notification sent is in the queue with its priority and age, or was taken by one receiver, and only one of these |
| IpcEffects.TakenIsDelivered | kernel/ipc_2.c:911-948 | who takes a notification gets that one, with its priority and NOTIFY_RCVID, in that very call |
| IpcEffects.NotifyEffect | kernel/ipc_2.c:1163-1215 | with a receiver waiting the first one alone is woken with the notification; otherwise the queue gains exactly that entry, and nothing else changes |
| IpcEffects.SendDirectEffect | kernel/ipc_2.c:777-866 | the first receiver alone is woken with the sender's rcvid and priority, the sender waits for its reply, and nothing else changes |
| IpcEffects.SendQueuedEffect | kernel/ipc_2.c:777-866 | with nobody receiving the queue gains exactly the sender, at its priority |
| IpcEffects.ReceiveMessageEffect | kernel/ipc_2.c:886-993 | a receive returns the sender's rcvid and takes over its priority; the sender then waits for its reply |
| IpcEffects.ReceiveNotificationEffect | kernel/ipc_2.c:886-993 | a receive of a notification takes the first of the queue, and nothing else changes |
| IpcEffects.ReceiveWaitEffect | kernel/ipc_2.c:886-993 | with nothing pending the receiver waits behind the others |
| IpcEffects.SendReturnEffect | kernel/ipc_2.c:866-881 | the message id is given back exactly unless the status is that of a dead channel; no other id changes |
| IpcRuns.LiveIdsDiffer | kernel/ipc_2.c:809-812 | tasks inside MsgSend have different message ids |
| IpcRuns.ReceiveTakesHighest | kernel/ipc_2.c:96-116 | a receive takes the highest priority over both queues, the oldest among equals, a notification before an equal message |
| IpcRuns.RespondWakesItsClient | kernel/ipc_2.c:998-1063 | a respond wakes exactly the client whose message the server received, with the given status |
| IpcRuns.SendReturnsStatus | kernel/ipc_2.c:866-881 | MsgSend returns the status of the reply to its own message |
| IpcRuns.ReceiveNeedsNoClient | kernel/ipc_2.c:911-948 | a receive by any free task keeps the invariant exactly if the task has no client or takes a notification |
| IpcRuns.ServerMayLoseClient | kernel/ipc_2.c:777-948 | a server that received a message and receives again, which is a reachable state, waits and gets another client |
| IpcCopy.MsgMapReceiverCopy | kernel/ipc_2.c:303-338 | the page-wise copy is the byte-by-byte copy through the page tables |
| IpcCopy.MsgMapSenderCopy | kernel/ipc_2.c:340-375 | the page-wise copy gives the bytes that the sender sees, and changes no others |
| IpcCopy.StoreView | kernel/ipc_2.c:303-338 | the receiver then sees what was sent exactly if addresses that share a byte got the same |
| IpcCopy.StoreElsewhere | kernel/ipc_2.c:303-338 | no byte outside the buffer changes |
| IpcCopy.CopyRoundTrip | kernel/ipc_2.c:303-375 | with distinct frames, what was copied in is what is copied out |
| WordBits.msb32 | memory/kheap.c:44-52 | spreading the top bit downwards finds the highest power of two in a word |
| WordBits.MsbBounds | memory/kheap.c:44-52 | which lies between half the number and the number |
| KHeap.KHeap.constructor | memory/kheap.c:151-163 | one free block, all of the memory |
| KHeap.KHeap.BlockMerge | memory/kheap.c:63-70 | a block takes in its successor exactly if they touch |
| KHeap.KHeap.BlockExpand | memory/kheap.c:72-82 | a block grows exactly if the run begins at its end, and then meets its successor |
| KHeap.KHeap.HeapBlockInsert | memory/kheap.c:84-146 | a run of bytes that has room for a header or extends a block joins the sorted list, merged on both sides, with or without the hint |
| KHeap.KHeap.kmalloc | memory/kheap.c:165-237 | first fit from the list or growth; the result is disjoint from every live allocation and every byte keeps one owner; null exactly if the heap is disabled or cannot grow |
| KHeap.KHeap.kfree | memory/kheap.c:239-257 | the bytes are free again and every byte keeps one owner |
| HeapBlocks.BlocksAreRuns | memory/kheap.c:84-146 | the blocks are exactly the maximal runs of free bytes |
| HeapBlocks.HeapUnique | memory/kheap.c:84-146 | the free bytes alone determine the list |
| HeapBlocks.InsertCovers | memory/kheap.c:84-146 | insertion adds exactly the bytes of the run |
| HeapBlocks.InsertHeap | memory/kheap.c:84-146 | the list stays well-formed if the run has room for a header or extends a block |
| HeapBlocks.InsertExactly | memory/kheap.c:84-146 | the list takes in the run, well-formed, exactly then, or if the size that its header overwrites is by chance the same |
| HeapBlocks.InsertsCommute | memory/kheap.c:239-257 | the order of two releases does not matter |
| HeapBlocks.TakeKeeps | memory/kheap.c:183-236 | an allocation removes exactly its bytes and at most 4 more |
| HeapBlocks.FreeUndoesTake | memory/kheap.c:165-257 | kfree undoes kmalloc exactly if the block did not have 4 bytes to spare |
| HeapBlocks.GrowthRemainder | memory/kheap.c:192-216 | exactly when new memory leaves room for a header |
| HeapBlocks.GrowthWithoutRoom | memory/kheap.c:192-216 | a request for which it does not |
| HeapOwned.OwnedTake | memory/kheap.c:183-236 | allocating from the list keeps live allocations disjoint and every byte owned once |
| HeapOwned.OwnedGrow | memory/kheap.c:192-216 | so does allocating from new memory |
| HeapOwned.OwnedFree | memory/kheap.c:239-257 | so does releasing, which never finds the bytes already free |
| HeapOwned.HistoryForgotten | memory/kheap.c:165-257 | what is live and lost determines the list, whatever happened before |
| MPool.MPool.pmmInsert | memory/mpool.c:250-334 | the circular links become those of the ring with the run in it, for all merges and moves of the head |
| MPool.MPool.pmmSearch | memory/mpool.c:339-356 | the first block large enough, or null exactly if there is none |
| MPool.MPool.pmmGet | memory/mpool.c:361-400 | the block leaves the ring whole or is trimmed if a header remains |
| MPool.MPool.MemoryBlockAlloc | memory/mpool.c:405-443 | null exactly if every block is too small; otherwise the result is disjoint from everything live; the full flag is set exactly if the ring is empty |
| MPool.MPool.MemoryBlockFree | memory/mpool.c:448-473 | the bytes are free again, each still with one owner, and the pool is not full |
| PoolRing.RingInsertCovers | memory/mpool.c:250-334 | insertion adds exactly the bytes of the run |
| PoolRing.RingInsertRing | memory/mpool.c:250-334 | blocks stay disjoint, aligned and large enough |
| PoolRing.RingTakeKeeps | memory/mpool.c:361-400 | an allocation removes exactly the bytes it uses, less than a header more than requested |
| PoolRing.TakeIsExact | memory/mpool.c:361-400 | none more, if the alignment is at least a header |
| PoolRing.FreeRestoresBytes | memory/mpool.c:361-400 | giving the allocation back restores the free bytes exactly if the block had no more than was requested or room for a header behind it |
| PoolRing.SmallAlignmentLoses | memory/mpool.c:361-400 | a block of 28 bytes from which 12 are lost |
| MPool.MPool.MakeUpPool | memory/mpool.c:405-473 | in every state of a pool whose alignment is at least a header and whose ends are aligned, each byte is in a free block or a live allocation, and only one of these |
| PoolRing.InsertIsExact | memory/mpool.c:250-334 | sizes stay multiples of the alignment |
| PoolRing.OwnedRingTake | memory/mpool.c:405-443 | every byte of the pool keeps one owner when a block is allocated |
| PoolRing.OwnedRingFree | memory/mpool.c:448-473 | and when one is given back |
| Scheduler.Scheduler.SchedSortLowPriority | kernel/scheduler.c:95-112 | the scan computes what is shown to be a cpu of least priority |
| Scheduler.Scheduler.SchedHoldTask | kernel/scheduler.c:126-133 | dead tasks are not held, others join the ready list at their priority |
| Scheduler.Scheduler.SchedulerStart | kernel/scheduler.c:191-240 | the first dispatch of a cpu, as a step |
| Scheduler.Scheduler.Schedule | kernel/scheduler.c:262-313 | keep or replace the running task, as a step |
| Scheduler.Scheduler.SchedTerminateRunningTask | kernel/scheduler.c:378-415 | the task dies and another runs, as a step |
| Scheduler.Scheduler.SchedStopRunningTask | kernel/scheduler.c:417-481 | another task runs before a yielding one is held again |
| Scheduler.Scheduler.SchedAddTask | kernel/scheduler.c:484-502 | the task is ready, and a cpu is triggered exactly if the task outranks lprio |
| Scheduler.Scheduler.SchedYield | kernel/scheduler.c:505-522 | yields only to tasks of at least its priority, as a step |
| SchedRuns.InitialInv | kernel/procmgr.c:158-165 | the kernel starts with an idle task for each cpu in the ready list |
| SchedRuns.StepKeeps | kernel/scheduler.c:126-522 | every operation finds a task whenever it dispatches, and keeps the invariant |
| SchedRuns.RunKeeps | kernel/scheduler.c:126-522 | the invariant holds after every run |
| SchedRuns.OnePlace | kernel/scheduler.c:126-522 | after any run each living task is on exactly one cpu, or ready once, or blocked; lcpu is a cpu of least priority |
| SchedRuns.DispatchTakesHighest | kernel/scheduler.c:121-124 | a dispatch takes a task of maximal priority and touches no other cpu |
| SchedRuns.ScheduleSettles | kernel/scheduler.c:262-313 | after the scheduler interrupt no ready task outranks the cpu |
| SchedRuns.AddTriggersLowest | kernel/scheduler.c:484-502 | comparing with lprio alone is the same as looking for a cpu of lower priority, and finds the lowest |
| SchedRuns.YieldNeedsTask | kernel/scheduler.c:505-522 | a yield finds an empty list only from an idle task |
| SchedRuns.IdleMayNotYield | kernel/scheduler.c:505-522 | one cpu with its idle task, where it would |
| SchedEffects.AddEffect | kernel/scheduler.c:126-133 | a task added is ready, once in the list, behind all of higher priority and behind its equals if it is above 1; a dead one is left alone; no other task, entry or cpu changes |
| SchedEffects.BlockEffect | kernel/scheduler.c:417-481 | the task that blocks is blocked, or still dead, on no cpu and not in the list; the first ready task gets the cpu, and no other task or cpu changes |
| SchedEffects.YieldEffect | kernel/scheduler.c:505-522 | a yield takes effect exactly if a ready task has at least the priority of the cpu; then the first ready one runs, and the task is ready behind its equals |
| SchedEffects.TerminateEffect | kernel/scheduler.c:378-415 | the task that terminates is dead and has no place; the first ready task gets the cpu |
| SchedEffects.ScheduleKeepsTask | kernel/scheduler.c:262-313 | nothing changes if the cpu's priority is above 0 and above that of every ready task, and otherwise the cpu dispatches |
| SchedEffects.ScheduleEffect | kernel/scheduler.c:262-313 | then the task joins the list, whose first task gets the cpu; no other task or cpu changes |
| SchedEffects.ScheduleTakesTurns | kernel/scheduler.c:69-78 | another task gets the cpu exactly if a ready one has a higher priority, or the same above 1 |
| SchedEffects.ScheduleDeadEffect | kernel/scheduler.c:262-313 | a dead task leaves its cpu and is not held |
| SchedEffects.StartEffect | kernel/scheduler.c:191-240 | a cpu starts with the first ready task |
| SchedEffects.KillEffect | kernel/scheduler.c:347-376 | a task killed on a cpu is off it after the interrupt that is triggered there |
| SchedEffects.RunGone | kernel/scheduler.c:126-133 | a dead task that left its cpu never runs again, in any run |
| SchedSteps.PendingTask | kernel/scheduler.c:121-124 | with an idle task for each cpu, a cpu that lets go of its task always finds one |
| SchedSteps.SortLowKeeps | kernel/scheduler.c:95-112 | after one cpu changed its priority a cpu of least priority is found |
| SchedSteps.YieldIsBlockThenAdd | kernel/scheduler.c:417-481 | yielding is the same as blocking and being added again |
| Sleep.SleepStort | kernel/sleep.c:36-51 | takes the time up to the current task from the new one, or the new one's time from the current |
| Sleep.SleepHandler.GlistInsertObject | lib/glist.c:312-331 | insertion with a comparison that changes what it compares |
| Sleep.SleepHandler.SleepInsert | kernel/sleep.c:87-94 | the task joins the list of differences at its time |
| Sleep.SleepHandler.TimerSet | kernel/sleep.c:112-118 | so does a timeout |
| Sleep.SleepHandler.SleepRemove | kernel/sleep.c:130-138 | the next task waits for what the removed one would have; others are untouched |
| Sleep.SleepHandler.SleepUpdate | kernel/sleep.c:140-172 | wakes exactly the tasks without time left after the tick, in order |
| SleepTimers.InsertRefines | kernel/sleep.c:36-51 | insertion changes no other deadline, and the new one is its own time from now |
| SleepTimers.RemoveRefines | kernel/sleep.c:130-138 | removal changes no other deadline |
| SleepTimers.TickRefines | kernel/sleep.c:140-172 | a tick changes no deadline and removes exactly those that are due |
| SleepTimers.InsertFront | kernel/sleep.c:87-94 | there is time left at the front exactly if the new timer has some |
| SleepTimers.ZeroWraps | kernel/sleep.c:140-172 | a timer of zero shifts every deadline by 2^32 ticks |
| SleepRuns.StepKeeps | kernel/sleep.c:87-172 | every operation keeps the list of deadlines |
| SleepRuns.FiresOnItsTick | kernel/sleep.c:87-172 | in every run a timer has fired exactly if its deadline has come, then on that very tick and once |
| SleepRuns.RemoveEffect | kernel/sleep.c:130-138 | the pending timer of the task goes, and no other |
| SleepRuns.RunRemoved | kernel/sleep.c:130-172 | a timer that was removed never fires |
| SleepRuns.FiresInOrder | kernel/sleep.c:36-51 | timers of one tick fire in the order in which they were set |
| Klock.StepKeeps | kernel/klock.c:50-126 | every access of every cpu keeps the lock's invariant |
| Klock.RunKeeps | kernel/klock.c:50-126 | it holds in every interleaving |
| Klock.MutualExclusion | kernel/klock.c:50-97 | at most one cpu holds the lock, and the count is its outstanding acquisitions |
| Klock.LockExcludes | kernel/klock.c:50-126 | in every interleaving, while a cpu that returned from Klock or KlockEnsure with the lock has not given it back, it is the owner, and no other cpu returns from either |
| Klock.ReturnsAsOwner | kernel/klock.c:50-126 | who returns from Klock or KlockEnsure is the owner |
| Klock.SpinsWhileOwned | kernel/klock.c:65-68 | while the lock has an owner a cpu stays at its compare-and-set |
| Klock.HeldIsAcquired | kernel/klock.c:50-126 | each return from Klock, and from KlockEnsure that took the lock, adds one acquisition, each of the owner's Kunlock takes one |
| Klock.EnsureTakesLock | kernel/klock.c:102-126 | KlockEnsure of a free lock does what Klock does |
| Klock.OnlyHolderCounts | kernel/klock.c:71-84 | only the holder changes the count |
| Klock.FreeAtOutermost | kernel/klock.c:77-97 | the lock becomes free exactly when its owner's last acquisition is given back |
| Klock.OthersUntouched | kernel/klock.c:50-126 | nothing that a cpu does takes the lock or acquisitions from another |
| Klock.NoEffect | kernel/klock.c:77-126 | Kunlock by a stranger and KlockEnsure by the owner change nothing |
| Klock.UnlockUndoesLock | kernel/klock.c:50-97 | Kunlock undoes Klock |
| Mutex.Mutexes.MutexLock | kernel/mutex.c:168-232 | returns E_OK without blocking exactly if the caller became the owner; if it blocks the caller waits and the owner is the same |
| Mutex.Mutexes.MutexUnlock | kernel/mutex.c:234-305 | hands over or unlocks, and is refused exactly for others than the owner; the caller is not the owner afterwards |
| Mutex.Mutexes.MutexTrylock | kernel/mutex.c:307-334 | returns E_OK exactly if the caller became the owner by this call |
| Mutex.Mutexes.MutexResumeTimeout | kernel/mutex.c:82-120 | the waiter leaves with E_TIMED_OUT, the owner stays and falls back as far as the others allow |
| MutexRuns.StepKeeps | kernel/mutex.c:82-334 | every call keeps the invariant |
| MutexRuns.OwnerInherits | kernel/mutex.c:82-334 | in every run a mutex is locked exactly if it has an owner, nobody waits for an unlocked one, and the owner has exactly the highest priority of itself and its waiters |
| MutexEffects.OwnerUntilUnlock | kernel/mutex.c:168-334 | from the call that got a mutex to its unlock the task is the owner and nobody else is, whatever all tasks call meanwhile |
| MutexEffects.LockReturns | kernel/mutex.c:186-224 | in every run a lock that blocked returns E_OK exactly if the task owns the mutex, and E_TIMED_OUT otherwise |
| MutexEffects.StepGains | kernel/mutex.c:168-334 | a task becomes the owner only by its own call while nobody owns the mutex, or as a waiter when the owner unlocks |
| MutexEffects.LockEffect | kernel/mutex.c:168-232 | a free mutex is taken, for one that is owned the caller waits behind those of higher priority, and no other mutex or task changes |
| MutexEffects.TrylockEffect | kernel/mutex.c:307-334 | a free mutex is taken, an owned one left alone |
| MutexEffects.UnlockEffect | kernel/mutex.c:234-305 | the first waiter becomes the owner and is woken alone, or nobody owns the mutex; others than the owner change nothing |
| MutexEffects.TimeoutEffect | kernel/mutex.c:82-120 | exactly the waiter leaves the queue, and the owner stays |
| MutexRuns.UnlockHandsOver | kernel/mutex.c:234-305 | unlock hands the mutex to a waiter of highest priority, wakes it alone, and restores the caller's priority |
| Vector.Vector.constructor | lib/vector.c:69-104 | an empty vector with all slots free, within the size limits |
| Vector.Expands | lib/vector.c:109-131 | the new size exceeds the old one exactly below the maximal size; at it the expansion is refused, one above it the new array is too small |
| Vector.Vector.VectorExpand | lib/vector.c:109-187 | a full vector below the maximal size grows with every object at its index, and exactly the new slots are free; at it nothing changes, above it the array is overrun |
| Vector.Vector.VectorInsert | lib/vector.c:192-214 | the object gets an index that was free, nothing else changes; -1 exactly for an unaligned object or a full vector that does not grow |
| Vector.Vector.VectorInsertAt | lib/vector.c:219-256 | so it does, at the requested index or above |
| Vector.Vector.VectorRemove | lib/vector.c:261-283 | the object leaves its index, null if there was none |
| Vector.Vector.VectorPeek | lib/vector.c:288-296 | the object at an index, null if there is none |
| VectorSlots.TakeSlot | lib/vector.c:219-256 | the free list visits exactly the tagged slots after one was filled |
| VectorSlots.GiveSlot | lib/vector.c:261-283 | and after one was emptied |
| VectorSlots.RangeThreaded | lib/vector.c:109-187 | linking the new slots threads exactly them |
| Allocator.Allocator.constructor | lib/allocator.c:49-81 | no id is in use; the objects are large enough, and as many as fit the memory |
| Allocator.Allocator.AllocatorGetObj | lib/allocator.c:101-154 | the first chunk with a free object gives it, a chain without one grows; the id was not in use and leads to the object |
| Allocator.Allocator.AllocatorGet | lib/allocator.c:159-162 | an object that was free, under an id of its own that AllocatorToAddr maps back to it; null exactly if all are in use and the chain must not grow; other ids keep their objects |
| Allocator.Allocator.AllocatorToAddr | lib/allocator.c:242-255 | the object that an id names |
| Allocator.Allocator.AllocatorFree | lib/allocator.c:188-227 | exactly the object's id is free again, whichever chunk it is in |
| Allocator.Allocator.AllocatorFreeId | lib/allocator.c:232-237 | so it is by id |
| LazyList.TakeFirst | lib/allocator.c:101-154 | explicit links followed by the never-used objects are exactly the free objects after one was taken |
| LazyList.PutFirst | lib/allocator.c:188-227 | and after one was freed |
| LazyList.WriteUsed | lib/allocator.c:101-154 | whatever users write to their objects |
| ChunkIds.IdsDiffer | lib/allocator.c:242-255 | different ids in use have different objects |
| ChunkIds.AddrFrame | lib/allocator.c:242-255 | ids keep their addresses when chunks are added |
| ChunkIds.AddrAbove | lib/allocator.c:188-227 | comparing with the end of a chunk finds the chunk of an object |
| GetPages.GetPages | memory/mmap.c:101-137 | at most 32 parts, strictly decreasing powers of two of whole pages, that add up to the rounded size |
| GetPages.SplitMore | memory/mmap.c:107-111 | each part leaves less than itself |
| VSpace.VSpace.constructor | memory/virtual/vmap.c:136-181 | an empty space that grows from its end |
| VSpace.VSpace.vSpaceMapSection | memory/virtual/vmap.c:293-345 | refused exactly if there is no room; otherwise the section follows the ones before without gap or overlap, shows its physical pages, with the access asked for, and disturbs no other |
| VSpace.VSpace.RegisterPrivMemory | kernel/process.c:565-587 | mapping the parts in turn never runs out of room, ends at the top, and tiles the space |
| VSpace.VSpace.PageMapped | memory/virtual/vmap.c:293-345 | every page of a full space is mapped to its place in one section |
| VSpace.VSpace.vPageUnmap | memory/virtual/vpage.c:127-161 | the pages of the section map nowhere and every other page as before |
| VSpace.VSpace.PopSection | memory/virtual/vmap.c:368-380 | the latest section goes: the others still show their physical pages, and the free part of the space stays unmapped |
| VSpace.VSpace.vSpaceUnmapSection | memory/virtual/vmap.c:350-384 | the latest sections go as far as they fit the size, and exactly their pages are unmapped; null exactly if the next section is larger than the rest |
| VSpace.VSpace.MapThenUnmapSection | memory/virtual/vmap.c:293-384 | unmapping the section just mapped restores every translation and the end of the space, and the list exactly if the section is not empty |
| VSpace.VSpace.vSpaceUnmap | memory/virtual/vmap.c:266-288 | the whole range is unmapped, the space is empty again and nothing outside it changed |
| VSpace.MapAnonymous | memory/mmap.c:101-137 | splitting and mapping together fill the reserved range exactly |
| VSpace.MapThenRelease | memory/virtual/vmap.c:208-288 | releasing the space of an anonymous mapping leaves every translation as it was before the mapping |
| VSpaceState.TilesCover | memory/virtual/vmap.c:293-345 | a filled range has no gap |
| VSpaceState.TilesWithin | memory/virtual/vmap.c:293-345 | and no overlap |
| VSpaceState.FullEdges | memory/virtual/vmap.c:282-283 | a full space has tables at its edges, so that unmapping all of its range is safe |
| VSpaceState.UnusedEdges | memory/virtual/vmap.c:282-283 | for a range that no table serves it is exactly if the range begins and ends at section borders |
| VSpaceState.OffsetCountsTwice | memory/virtual/vmap.c:293-345 | as many pages are mapped as were accounted for exactly if the physical address is page-aligned |

## Left out

- Buddy.Buddy.buddyGetMemory: a request of 0 bytes without a free page, which recurses for ever, is excluded; the lock around the calls is not modelled.
- Mmu.PageTables.MemoryMap: over pages that are not mapped yet; mapping a page again, which overwrites its entry, is not modelled. Allocation of second-level tables always succeeds, and a section that replaces an attached empty table leaves that table unused, as in the source.
- Mmu.PageTables.MapThenUnmap: stated for page-aligned addresses and sizes.
- Ipc.Channel.MsgRespond: a dead channel is not modelled.
- IpcCopy.MsgMapReceiverCopy: the address one byte behind the buffer must be within the translation table, because the source looks it up as well.
- KHeap.KHeap.kmalloc: requests of 2^31 bytes and more, whose doubling wraps around, are excluded, and so is growth that leaves 4 bytes that extend no block (HeapBlocks.InsertExactly).
- MPool.MPool.pmmInsert: only mapped pools, whose headers are in the blocks, and so only runs with room for a header; pools with headers elsewhere, such as the ranges of a virtual manager (memory/virtual/vmap.c:20, memory/virtual/vmap.c:76), and pools of one block size, are not modelled.
- Scheduler.Scheduler.Schedule: time slices, process counters and the registers of tasks are not modelled.
- Sleep.SleepHandler.SleepUpdate: calling the timeout handlers is not modelled; the method returns whom to wake.
- Mutex.Mutexes.MutexResumeTimeout: only for a task that is still in the queue; hand-over stops the timers of the others.
- The queues of channels, of the scheduler and of mutexes are sequences that change as the contracts of Glist.Glist say (Insert, RemoveItem, taking the first); only the sleeping tasks are in a Glist.Glist object.
- Mutex.Mutexes.MutexLock: an owner that waits elsewhere is not queued again at its new priority, since a task holds at most one mutex.
- Vector.Vector.VectorExpand: only from a full vector; with free slots left the source links one slot fewer than it counts. That it gives back a quarter of the old array's bytes only (lib/vector.c:161) is not modelled.
- Vector.Vector.VectorInsertAt: for the same reason, only when a free slot from the index on exists or the next expansion of a full vector makes one.
- Vector.Vector.VectorRemove: an index equal to the size, which reads behind the slots, is excluded; so it is for VectorPeek.
- Allocator.Allocator.constructor: with room for one object at least; without it an allocator that may expand would look for a free object for ever.
- Allocator.Allocator.AllocatorFree: later chunks lie strictly above earlier ones; purging of chunks, which renumbers the ones behind, is not modelled. Chained allocators are a sequence of records.
- VSpace.VSpace.vSpaceMapSection: for page-aligned physical addresses (VSpaceState.OffsetCountsTwice).
- 32-bit wrap-around of sizes and addresses, except for the tick of the sleep list.
- Failure of memory allocation inside other operations, and the failure path of GetPages.
- IPC cancellation, channel destruction and detach flushing, MsgRead and MsgWrite at an offset, message headers.
- Process and task kill, priority resolution and adjustment of queued tasks: unfinished in the source.
- The reader-writer lock, and locking of lists, allocators and vectors: they are treated as sequential.
- The manager's list of spaces and its pool, vSpaceMap, vMap and vUnmap; the unmap handlers that sections may have.
- The search and circular kinds of list, AllocatorToId, AllocatorDestroy, mPoolCreate.
- Caches, translation look-aside buffers, interrupts, boot code, the board, processes, names, files and devices.

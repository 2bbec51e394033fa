# openv kernel: verified models

A Dafny model of the parts of the openv RISC-V kernel whose correctness is hard to see from the code, and
proofs about them. `dafny verify dfyconfig.toml` checks everything.

The centre is memory. Physical frames hold 512 words; page tables are frames among others; free frames carry
the links of the free list. `Memory.Inv` says what every frame is for, that tables form a tree of distinct
frames holding exactly the entries the tree calls for, and that every reference count is exact; each operation
is proved to keep it. On top of that stand the address spaces as programs see them: a page that is mapped,
swapped out or absent has contents (`Views.PageAt`), and whatever copy-on-write, demand paging and compressed
swap do, a process reads its own bytes. `Runs.Run` states this for whole runs against a model in which fork
eagerly copies every page that is not in the swap pool, and `Runs.RunUnswapped` draws the plain conclusion for
runs in which nothing is: fork copies every page. The other state machines are separate: rendezvous IPC, the
register-then-recheck sleep of channels and ports, the byte-range lock table, signal frames, the allocator under
several harts, the split virtqueue, and the driver descriptor's wire format.

| file | what it models |
|---|---|
| Words, Sv39 | machine words, little-endian bytes, page-table entries, virtual page numbers (Sv39, section 4.4 of the RISC-V Privileged Architecture, version 20211203) |
| Memory, MemorySteps, Machine | what memory holds between operations, and the steps that keep it |
| Pmm, Harts | the frame allocator, sequentially and under many harts |
| Vmm, Cow, Fork, Teardown, Unmap | page tables, copy-on-write, cloning, destroying, unmapping |
| SwapCodec, Swap, Views, Faults | the swap pool, what programs observe, page faults and the accesses that raise them |
| Processes, Runs, DataCopy, Elf | fork and clone with rollback, whole runs, cross-process copies, program loading |
| Instances | small machines, booted and run, on which the code does what its documentation rules out |
| Rendezvous, Wakeup, LockTable, Signals | IPC and blocking |
| Virtqueue, NetDriver, DriverAbi | virtio rings and buffer pages, the driver descriptor codec |

Conventions: `Machine` holds the kernel's memory globals; its ghost fields record what each frame is for.
Methods are the kernel's functions, one for one where the source has one; where a loop body was split off, the
helper is named for what it does. A `quota`, `room` or `stack` argument stands for the answer of code outside the
model (the job's memory limit, whether stack pages can be mapped, whether a kernel stack could be allocated).

## Scope

- User addresses lie in [4 GB, 2^39). The kernel masks higher ones onto the same tables (src/mm/vmm.rs:191), so they alias.
- Below 4 GB lie the kernel's own root entries, whose tables are not modelled. Where the code walks them (`sys_datacopy` with such an address, a store fault before the range test of src/mm/vmm.rs:624), the model finds no page there.
- Every leaf entry has R or X; without either the walks take it for a table (src/mm/vmm.rs:355).
- Leaf frames are RAM frames: no MMIO mappings and no VMO mappings.
- A process has its address space to itself (no `CLONE_VM`).
- Rendezvous runs have no self-send, no IRQ messages, no killed processes, and valid user buffers; a blocked call runs again only when the protocol wakes it.
- Lock requests are read or write locks.

## Where the code and its documentation differ

The model follows the code.

- src/trap/page_fault.rs:50 announces R+W+X for instruction faults; the code maps R+X, never W and X together (src/mm/vmm.rs:649-654).
- src/mm/swap.rs:28 speaks of a 0xFF terminator; the compressed form has none, and the byte 0xFF is ordinary data.
- A page fault that finds the page mapped already, or no memory for a table, counts as handled (src/mm/vmm.rs:667-673); a store to a read-only page therefore faults again for ever instead of raising a signal (`Faults.TryRefused`, and `Instances.ReadOnlyStore` for an instance).
- Fork copies resident pages only. A page of the parent in the swap pool reads as zeros in the child; `Processes.ForkCopies` says exactly when the copy is complete and `Instances.SwappedNotForked` runs into one that is not.
- `swap_in` removes the pool's entry before it knows that memory suffices (src/mm/swap.rs:267-271); a failure loses the page and leaves the counters too high (`Swap.SwapIn`, `Instances.SwapInLosesPage`).
- `unmap_range` skips a missing table by adding 1 GB or 2 MB to the address, which is the next region's start only when the address is aligned (src/mm/vmm.rs:702, 710); `Unmap.UnmapsExactly` says exactly when everything goes, and in `Instances.UnmapLeavesPage` a mapped page stays.
- `unmap_range` does not look at the swap pool: an unmapped page that was swapped out keeps its contents (`Unmap.UnmappedReads`).
- `sys_fork` promises an error when memory is out (src/posix/spawn.rs:370). It clones with the process table locked, and its error path calls `cleanup_process`, which locks the table again; the lock panics on that (src/sync.rs:143-153). `Processes.SysFork` says exactly when, and `Instances.ForkShortOfMemory` runs into it. `sys_clone_process` has the same fault (src/syscall/pm.rs:59-68); `sys_clone` lets the table go first and rolls back (`Processes.SysClone`).
- `recv` says the device no longer owns the page it copies from (src/net/virtio_mmio.rs:318-321), but it has offered that very page again before (`NetDriver.VirtioDriver.Recv`).
- `sys_datacopy` finds the source frame before it makes the target page writable. Inside one process, when both lie in a page that is marked copy-on-write and that nobody else has, the store fault frees the frame just found (src/mm/vmm.rs:468-482) and the copy reads it (src/syscall/ipc.rs:898). `DataCopy.SysDataCopy` says when the bytes are right, and `Instances.CopyReadsFreedFrame` runs into poison.
- `sendrec` hands its message over only to a process in `receive` (src/syscall/ipc.rs:548-553), while `send` also serves one that awaits a reply. A server that calls its client back before replying is queued behind the reply the client waits for, and both sleep for ever (`Rendezvous.CallBack`, `Rendezvous.CrossedForever`).
- Signals are delivered to any stack pointer with room below it, but `sigreturn` refuses frames below 4 GB (`Signals.CanReturn`).
- `sys_reap_process` destroys an address space without `evict_all`, against src/mm/swap.rs:21-22; the next process gets the root frame and reads the dead one's swapped pages (`Processes.ReapThenNew`).

## Model

| member | source | states |
|---|---|---|
| Sv39.DecodeEncode | src/mm/vmm.rs:95-112 | an entry written as a word reads back with the same frame and flags |
| Sv39.EncodeBits | src/mm/vmm.rs:99-112 | an entry is its page number above ten bits, which are, from the lowest, V, R, W, X, U, G, A, D, COW and a spare one |
| Sv39.VaSplit | src/mm/vmm.rs:191 | a user address is its three indices, at bits 30, 21 and 12, plus its offset |
| Sv39.VpnOfVa | src/mm/vmm.rs:275 | and the indices of a page's address are the page |
| MemorySteps.TreeInjective | src/mm/vmm.rs:190-223 | no two tables share a frame |
| MemorySteps.TakeKeeps | src/mm/pmm.rs:279-320 | handing out a frame keeps the invariant and every mapped page |
| MemorySteps.RetainKeeps | src/mm/pmm.rs:406-412 | one reference more keeps every count exact and every page as it was |
| MemorySteps.DropKeeps | src/mm/pmm.rs:459-481 | giving up a reference keeps exact counts; the frame is freed with the last one |
| MemorySteps.LinkKeeps | src/mm/vmm.rs:197-207 | a new table in the tree keeps the invariant and every mapped page |
| MemorySteps.BindKeeps | src/mm/vmm.rs:214-220 | a new leaf keeps exact counts and sharing rules, and adds exactly one page |
| MemorySteps.UnbindKeeps | src/mm/swap.rs:206-209 | clearing a leaf removes exactly that page |
| MemorySteps.UnlinkKeeps | src/mm/vmm.rs:520-530 | freeing an empty table keeps the invariant |
| Machines.Machine.constructor | src/mm/pmm.rs:74-88 | memory as the loader leaves it satisfies the invariant |
| Pmm.Init | src/mm/pmm.rs:179-262 | the free list is exactly the whole pages above the kernel that overlap neither the device tree nor the initrd, in order |
| Pmm.UsableBytes | src/mm/pmm.rs:227-231 | a page is left out exactly when it has a byte in common with the device tree or with an initrd that is there |
| Pmm.AllocFrame | src/mm/pmm.rs:279-320 | the head of the list, zeroed, with count one; none exactly when the list is empty |
| Pmm.FreePage | src/mm/pmm.rs:366-395 | the frame becomes the head, its first word the address of the old head and the others poison, with count zero |
| Pmm.DecrRefAndMaybeFree | src/mm/pmm.rs:459-481 | one reference less, and on the list when it was the last |
| Vmm.WalkIsLookup | src/mm/vmm.rs:274-302 | the three-level tables in memory refine a partial map from page to frame and flags |
| Vmm.HardwareFinds | src/mm/vmm.rs:274-302 | what the hardware reads for a mapped address: a word indexed by address bits 30 to 38, one by bits 21 to 29, one by bits 12 to 20, two pointers and then the leaf, its frame and each of its flags |
| Vmm.FindLow | src/mm/vmm.rs:277-291 | the walk finds the level-0 table exactly when the tree has one |
| Vmm.WalkPageTable | src/mm/vmm.rs:274-302 | reads back the map: address and flags, or unmapped |
| Vmm.DescendTo | src/mm/vmm.rs:194-212 | missing tables are allocated on the way down; it succeeds exactly when memory suffices, and no mapping changes |
| Vmm.MapPage | src/mm/vmm.rs:190-223 | adds exactly one binding, or leaves the map unchanged; fails exactly when the page is mapped or memory runs out between levels |
| Vmm.NewProcessTable | src/mm/vmm.rs:153-175 | an empty address space whose root holds the kernel's four entries and zeros |
| Cow.HandleStorePageFault | src/mm/vmm.rs:422-495 | a marked page gets a private copy with W for COW and every other flag as it was, and nobody's contents change; fails exactly when it is not marked or memory is out |
| Fork.CloneLeaf | src/mm/vmm.rs:366-391 | a page is shared on both sides with one more reference: the same frame, not writable, marked COW if it was writable or marked, every other flag as it was |
| Fork.CloneLevel | src/mm/vmm.rs:332-394 | on success the child's entries are the parent's, W turned to COW on both sides; stopped anywhere, every entry is as before or as fork makes it, and no user data moved; it takes one frame for each table and succeeds exactly when there are that many |
| Fork.RefsBound | src/posix/process.rs:502-505 | a frame has at most one reference per process, so the saturating count never saturates |
| Teardown.DestroyLevel | src/mm/vmm.rs:502-532 | all pages and tables under a table go; nothing else does |
| Teardown.DestroyUserSpace | src/mm/vmm.rs:554-594 | nothing of the process is left, everything of the others is, with the same contents |
| Unmap.UnmapRange | src/mm/vmm.rs:691-731 | clears exactly the pages its walk reaches |
| Unmap.VisitsInside | src/mm/vmm.rs:695-727 | the walk reaches no page outside the range |
| Unmap.UnmapsExactly | src/mm/vmm.rs:695-727 | it reaches every page of the range that has a table if and only if it starts in step with the tables, or inside a 2 MB region without one and no table starts in the rest of the range, or at a later 2 MB region of a gigabyte without one and no earlier table of the next gigabyte that has one starts in the range |
| Unmap.Misses | src/mm/vmm.rs:707-713 | from inside a region without a table it misses the first page of the next table |
| Unmap.Slides | src/mm/vmm.rs:699-705 | from a gigabyte without a table it lands at the same offset of the next that has one |
| Unmap.UnmapsAll | src/mm/vmm.rs:695-727 | under that condition every mapped page of the range goes |
| Unmap.StepsOver | src/mm/vmm.rs:701-713 | a mapped page it steps over |
| Unmap.UnmappedReads | src/mm/vmm.rs:715-725 | a mapped page that is cleared reads as zeros; a page in the pool, and every other page, reads as before |
| SwapCodec.CompressPage | src/mm/swap.rs:97-112 | the output is pairs of a byte and how often it comes in a row, at most 255 and no fewer than it does, 4096 bytes in all; it expands to the page |
| SwapCodec.DecompressPage | src/mm/swap.rs:119-130 | the buffer holds the expansion, cut off at its end |
| SwapCodec.SwapRoundTrip | src/mm/swap.rs:97-130 | every page is restored exactly |
| Swap.EvictLeaf | src/mm/swap.rs:197-215 | one page moves from the tables to the pool, its contents recoverable |
| Swap.TryEvictPage | src/mm/swap.rs:161-221 | evicts one page of a stopped process, unnoticed by all; fails exactly when no stopped process has a page; the frame is free again when nothing else refers to it |
| Swap.SwapIn | src/mm/swap.rs:263-285 | restores contents and flags at that page and nowhere else; the exact condition for success and the exact effect of failure |
| Swap.EvictAll | src/mm/swap.rs:294-306 | drops exactly the root's entries and keeps the counters right |
| Swap.EvictionInvisible | src/mm/swap.rs:197-215 | after an eviction every process reads every page as before, and the counters count the pool |
| Swap.SwapInInvisible | src/mm/swap.rs:263-285 | the same of a successful swap-in |
| Swap.SwapInLoses | src/mm/swap.rs:267-279 | a failed one makes that page alone read as zeros |
| Swap.EvictThenSwapIn | src/mm/swap.rs:161-285 | out and back in leaves everything as it was, but for the frame |
| Faults.HandleUserPageFault | src/mm/vmm.rs:615-675 | swap first, then a zero page; exactly when it succeeds and exactly what changes; a page mapped on demand is a readable user page, executable for a fetch and writable otherwise, with no other flag |
| Faults.HandlePageFault | src/trap/page_fault.rs:47-111 | copy-on-write, then swap-in, then demand paging, and exactly what changes, flag by flag |
| Faults.FaultInvisible | src/trap/page_fault.rs:83-109 | a handled fault changes nothing anyone reads; one that kills costs nobody else |
| Faults.WritableSole | src/mm/vmm.rs:367-380 | a writable page is mapped nowhere else |
| Faults.FaultRights | src/mm/vmm.rs:648-673 | no fault changes what may be read, written (at once or by copying) or executed, but for the page it maps on demand or loses |
| Faults.Attempt | src/trap/page_fault.rs:47-111 | an access that completes has the permission it needs, reads and writes the process's own byte and no other byte of any process, and changes no permission |
| Faults.StoreBytes | src/trap/page_fault.rs:47-111 | byte by byte: a completed store changes the byte stored to and no other of any process |
| Faults.Complete | src/trap/page_fault.rs:83-109 | with memory for two pages and the missing tables, an allowed access completes by the third try |
| Faults.RefusedFault | src/mm/vmm.rs:635-673 | a fault on a mapped page that refuses the access changes nothing; it counts as handled exactly when the quota and the free list allow a page |
| Faults.TryRefused | src/trap/page_fault.rs:83-109 | such an access, tried any number of times, never completes; the process is killed by the first try its quota or an empty free list refuses, and only then |
| Faults.TryForbidden | src/trap/page_fault.rs:83-109 | an access the page does not allow never completes, mapped or swapped out |
| Processes.Determined | src/mm/pmm.rs:279-481 | which frames are free and every count follow from what the tables map |
| Processes.ExactCounts | src/mm/pmm.rs:279-481 | a user frame's count is the number of entries naming it, it is free exactly when there are none, each process maps it at most once, and the count has room |
| Processes.CloneUserSpace | src/mm/vmm.rs:325-400 | the clone of a whole address space; it succeeds exactly when there is a free frame for each of the parent's tables |
| Processes.NewProcess | src/posix/process.rs:498-526 | a process with an empty address space, exactly when there is room in the table, a frame and a kernel stack; otherwise everything as before |
| Processes.SysClone | src/syscall/proc.rs:1179-1224 | a child with the parent's pages, exactly when there is also a frame for each of the parent's tables; otherwise, failing at any point, the same counts, the same free frames, every page reading the same, and only W turned to COW in the parent |
| Processes.SysFork | src/posix/spawn.rs:371-408 | the same child; refused cleanly exactly when the process cannot be made, and a panic exactly when it can but there are too few frames for the parent's tables |
| Processes.ForkReads | src/mm/vmm.rs:325-400 | after fork everyone reads as before; the child reads the parent's page where it is mapped and zeros elsewhere |
| Processes.ForkCopies | src/mm/vmm.rs:347-391 | fork copies every byte exactly when the parent's pages in the pool are all zero |
| Processes.Cleanup | src/posix/spawn.rs:482-521 | everything of the process goes, pool entries included |
| Processes.EndingInvisible | src/posix/spawn.rs:510-517 | the survivors read what they read before |
| Processes.ReapThenNew | src/syscall/pm.rs:308-356 | after a reap the next process has the dead one's root frame and reads its swapped pages |
| Runs.Step | src/trap/page_fault.rs:47-111 | one access, clone, fork, eviction or exit: the event is the one the machine's state calls for (which accesses complete, which kill, which calls make a child, and that a child lacks exactly the parent's pages in the pool), and what it does to every page and to what may be done with it; only a fork short of frames stops the run |
| Runs.StepAgrees | src/mm/vmm.rs:325-675 | every such step is the eager model's |
| Runs.ForkRights | src/mm/vmm.rs:366-391 | after fork everyone may do what they might before, and the child with each of the parent's mapped pages what the parent may |
| Runs.StaysNeverBoth | src/mm/vmm.rs:646-654 | no step makes a page, mapped or in the pool, that can be both executed and written, at once or by copying |
| Runs.Run | src/mm/vmm.rs:325-675 | over any run every process reads what it would if fork copied every page not in the pool and absent pages were zero; completed loads return those bytes; the swap counters stay right unless a process is killed; a run stops early only at a fork that meets too few frames, and all before it is as said |
| Runs.NeverBothEver | src/mm/vmm.rs:646-654 | so no run that begins without one ever has one |
| Runs.PureEager | src/mm/vmm.rs:347-391 | when no parent has a page in the pool as it forks, the run is the one in which fork copies every page |
| Runs.RunUnswapped | src/mm/vmm.rs:325-675 | from an empty pool and without evictions, every process reads and is given what it would if fork copied every page |
| Runs.AgreesForked | src/mm/vmm.rs:325-400 | fork agrees with an eager copy of all the parent's pages not in the pool |
| Runs.AgreesStore | src/mm/vmm.rs:422-495 | a store changes the eager space of its own process alone |
| Instances.ReadOnlyStore | src/mm/vmm.rs:667-673 | on a booted machine a store to a read-only page is tried any number of times without completing or failing |
| Instances.ForkShortOfMemory | src/posix/spawn.rs:385-389 | a fork with one frame left panics |
| Instances.UnmapLeavesPage | src/mm/vmm.rs:701-713 | a mapped page inside the unmapped range stays |
| Instances.SwappedNotForked | src/mm/vmm.rs:347-391 | a parent forks with a page in the pool; the child reads zeros there |
| Instances.CopyReadsFreedFrame | src/syscall/ipc.rs:853-899 | a copy inside a lone copy-on-write page writes poison |
| Instances.SwapInLosesPage | src/mm/swap.rs:267-279 | a swap-in with no frame left loses the page |
| DataCopy.SysDataCopy | src/syscall/ipc.rs:822-904 | on success the destination range reads as the source range did and no other byte of any process changes, inside one process unless source and target meet in a lone copy-on-write page; then, in one stretch, exactly what is written instead; stopped early, a prefix is copied and at most the page being brought in is lost; a permitted copy with room for six frames a stretch succeeds |
| DataCopy.CopyStretch | src/syscall/ipc.rs:824-901 | one stretch: copied, or garbled exactly when source and target share a lone page |
| DataCopy.FrameLeft | src/mm/vmm.rs:468-482 | the frame a page had before a store fault keeps the page's contents unless the page was lone, and then is freed |
| DataCopy.CopiedMore | src/syscall/ipc.rs:822-904 | chunks add up |
| DataCopy.CopiedChunk | src/syscall/ipc.rs:887-898 | one chunk copies exactly its bytes, at any pair of alignments |
| DataCopy.ResolveTarget | src/syscall/ipc.rs:853-886 | the frame written to is mapped nowhere else, whether writable, copied or brought in; what became of the frame before; and when it succeeds |
| Elf.FillPage | src/posix/elf.rs:186-205 | a page's bytes: file bytes below `filesz`, zeros around them |
| Elf.LoadSegment | src/posix/elf.rs:150-212 | the whole segment is in place, exactly when the file holds it and there is room |
| Elf.OnePageMore | src/posix/elf.rs:188-219 | there is room for one more page exactly when it is not mapped and frames cover it and its missing tables |
| Elf.LoadElf | src/posix/elf.rs:122-235 | it succeeds exactly when the header is well formed, some segment is loadable, the file holds them all, no page is mapped twice or already, and there is a frame for every page and missing table; then every loadable segment is in place, the pages added are those a loadable segment has a byte in, and the entry point and header count are the numbers at bytes 24 and 56 of the file and the header address that of the lowest segment; nothing mapped before changes |
| Elf.HeaderBytes | src/posix/elf.rs:122-147 | a file is taken exactly when it starts with the magic bytes and has the table of headers inside it, all told by the bytes at fixed offsets |
| Elf.NthBytes | src/posix/elf.rs:73-92 | where program header i lies and which bytes hold each of its fields, least significant first |
| Elf.PlanIs | src/posix/elf.rs:186-219 | the pages mapped are those a loadable segment has a byte in |
| Elf.SegmentReads | src/posix/elf.rs:150-212 | every byte reads as its file byte below `filesz` and zero up to `memsz`; the page may be read, written and executed as bits 2, 1 and 0 of byte 4 of its program header say |
| Harts.BootInv | src/mm/pmm.rs:179-262 | after boot, with any list of frames and any harts, everything is consistent |
| Harts.StepKeeps | src/mm/pmm.rs:279-481 | every lock step and memory access keeps the list, the counts and the locks consistent |
| Harts.RunKeeps | src/mm/pmm.rs:279-481 | so does every interleaving |
| Harts.HandedOutOnce | src/mm/pmm.rs:279-320 | no frame is handed out twice |
| Harts.AllocFinds | src/mm/pmm.rs:279-288 | an allocation comes away with nothing exactly when the list is empty, and otherwise with its first frame |
| Harts.CallsComeTo | src/mm/pmm.rs:279-481 | in any interleaving each allocation adds one reference to the frame it found, each `incr_ref` adds one and each `decr_ref_and_maybe_free` takes one away |
| Harts.CountsMoveBy | src/mm/pmm.rs:279-481 | so between two quiet moments a frame's count moves by just those calls |
| Harts.Conservation | src/mm/pmm.rs:279-481 | free, owned and moving frames always make up the same set |
| Harts.NoWaitCycle | src/mm/pmm.rs:270-276 | the two locks never form a wait cycle |
| Rendezvous.Table.Send | src/syscall/ipc.rs:327-390 | one `send`: refused when there is no such process; put in the hands of a process that awaits it, which wakes; otherwise queued last, and the sender sleeps; everything else as before, and the invariants are kept |
| Rendezvous.Table.Receive | src/syscall/ipc.rs:394-508 | one `receive` step, taking the first matching sender, and that it keeps the invariants |
| Rendezvous.Table.SendRec | src/syscall/ipc.rs:512-594 | one `sendrec`: refused when there is no such process; put in the hands of a process in `receive` that admits it, which wakes; otherwise queued last; unless refused the caller sleeps, and everything else is as before |
| Rendezvous.ReceiveTakes | src/syscall/ipc.rs:449-496 | `receive` delivers the message of the first queued sender that matches and takes it off the queue; a `send` is then done, a `sendrec` goes on to await the reply |
| Rendezvous.ReceiveSleeps | src/syscall/ipc.rs:497-507 | without one it sleeps and nothing else changes |
| Rendezvous.WokenReturns | src/syscall/ipc.rs:327-540 | a woken process returns from its call, with the message put in its hands if it was receiving |
| Rendezvous.ReplyArrives | src/syscall/ipc.rs:359-390 | a `send` to a process that awaits a reply from the sender wakes it, and its next step returns that message as the answer to its request |
| Rendezvous.OwedOnlyBySendRec | src/syscall/ipc.rs:545-590 | the process a reply is awaited from is in the waiting one's queue exactly when it is asleep in a `sendrec` to it |
| Rendezvous.CrossedForever | src/syscall/ipc.rs:545-590 | two processes in that position never take another step, whatever the others do |
| Rendezvous.CallBack | src/syscall/ipc.rs:545-590 | a server that calls its client back before it replies brings it about |
| Rendezvous.StepKeeps | src/syscall/ipc.rs:327-594 | a process is queued at t, once, exactly when it is sending to t; nobody sits in `receive` while a matching sender is queued, nor awaits a reply from a process queued to it in `send`; messages are conserved |
| Rendezvous.RunKeeps | src/syscall/ipc.rs:327-594 | in every run |
| Rendezvous.InitialInv | src/posix/process.rs:173-188 | a fresh process table satisfies the invariants |
| Rendezvous.DeliveredOnce | src/syscall/ipc.rs:327-594 | each accepted message has been delivered once or is on its way |
| Rendezvous.ServedInOrder | src/syscall/ipc.rs:445-455 | a server using only receive-any takes messages in arrival order |
| Rendezvous.ReplyIsCausal | src/syscall/ipc.rs:523-582 | a `sendrec` that returns got a message of the process it called, sent after that process had received this very request, body and all |
| Wakeup.ReaderKeeps | src/syscall/ipc.rs:1079-1121 | every step of the reader keeps the wakeup invariant |
| Wakeup.TryTakes | src/syscall/ipc.rs:1079-1121 | a try gives the reader the head of the queue exactly when there is one and it fits; otherwise no message moves |
| Wakeup.WriterKeeps | src/ipc/channel.rs:178-215 | so does every step of a writer |
| Wakeup.DropperKeeps | src/ipc/channel.rs:345-364 | and of the dropped peer |
| Wakeup.DropCloses | src/ipc/channel.rs:345-364 | a drop closes the channel, once |
| Wakeup.RunKeeps | src/ipc/port.rs:38-52 | in every interleaving a sleeping reader with something to see is in the run queue, or somebody still has to take or enqueue its pid; for ports too |
| Wakeup.WokenInTheEnd | src/syscall/ipc.rs:1203-1226 | when everybody else is done, it is in the run queue; and messages arrive in order |
| LockTable.GrantSound | src/syscall/ipc.rs:82-92 | a granted lock keeps exclusion, and one process's locks apart |
| LockTable.ByteExclusion | src/syscall/ipc.rs:67-79 | no byte is under a write lock of one process and a lock of another |
| LockTable.AskedBytes | src/syscall/ipc.rs:61-65 | the bytes a request covers, for any start and length |
| LockTable.FreeWhenGranted | src/syscall/ipc.rs:67-79 | no byte of a lock that conflicts with nothing is another's, unless both only read |
| LockTable.GrantedWhenFree | src/syscall/ipc.rs:67-79 | and a lock of which that is true conflicts with nothing, if no range is empty |
| LockTable.ReadersCoexist | src/syscall/ipc.rs:73-79 | read locks never conflict |
| LockTable.Left | src/syscall/ipc.rs:95-104 | giving up a range drops exactly the process's own locks that reach into it |
| LockTable.FirstCome | src/syscall/ipc.rs:128-152 | a queued request is granted exactly when it conflicts neither with a lock held nor with an earlier request that is granted |
| LockTable.StillQueued | src/syscall/ipc.rs:128-152 | the others stay queued in order |
| LockTable.GrantedFrom | src/syscall/ipc.rs:128-152 | every queued request is granted or conflicts with a lock held |
| LockTable.Table.TryAcquire | src/syscall/ipc.rs:82-92 | granted exactly when it conflicts with nothing, which for ranges that are not empty means that no byte of it is under another's lock unless both only read; then it replaces the process's own locks that overlap it, and every other lock stays |
| LockTable.Table.WakeWaiters | src/syscall/ipc.rs:128-152 | requests are granted in turn |
| LockTable.Table.ReleaseRange | src/syscall/ipc.rs:95-104 | the caller's overlapping locks go; then every request still queued conflicts with a lock held |
| LockTable.Table.SetLock | src/syscall/ipc.rs:719-752 | granted, refused or queued; nothing else changes |
| LockTable.Table.Serve | src/syscall/ipc.rs:61-152 | any sequence of lock calls keeps every byte's exclusion on every file |
| Signals.Process.DeliverPending | src/trap/mod.rs:485-610 | the lowest signal due is taken, with SIGCONT the stop signals too; what comes of it for each signal and disposition; when handled, each register, mask bit and stack word of the handler's context |
| Signals.Process.Sigreturn | src/syscall/proc.rs:1039-1058 | restores registers 1 to 31, the program counter and the mask from their places in the frame, or answers EFAULT and changes nothing |
| Signals.DeliverKeeps | src/trap/mod.rs:562-595 | saved frames never overlap and stay intact |
| Signals.DeliverIs | src/trap/mod.rs:562-606 | a delivery register by register, bit by bit and word by word |
| Signals.ReturnRestores | src/syscall/proc.rs:1039-1058 | a return with the delivered stack pointer restores the interrupted context |
| Signals.CanReturn | src/syscall/proc.rs:1039-1044 | of the frames delivery writes, `sigreturn` takes exactly those above 4 GB |
| Signals.Unwinds | src/trap/mod.rs:485-610 | at any depth of nesting, each return `sigreturn` accepts brings back the context its delivery interrupted |
| Virtqueue.VirtQueue.constructor | src/net/virtqueue.rs:146-190 | all descriptors free, rings empty |
| Virtqueue.VirtQueue.EnqueueChain | src/net/virtqueue.rs:220-265 | offers the buffers in order, each descriptor with its buffer's address, length and direction and the link to the next, and no other descriptor touched; fails exactly when descriptors are short; the ring always has a slot |
| Virtqueue.VirtQueue.PopUsed | src/net/virtqueue.rs:295-312 | every completion not yet seen, in order, once, across index wraps |
| Virtqueue.VirtQueue.PopOneUsed | src/net/virtqueue.rs:317-328 | the next completion, if there is one |
| Virtqueue.VirtQueue.ReadChain | src/net/virtqueue.rs:340-355 | gives the buffers back in order |
| Virtqueue.VirtQueue.FreeChain | src/net/virtqueue.rs:366-385 | returns exactly the chain's descriptors |
| Virtqueue.VirtQueue.DeviceTake | src/net/virtqueue.rs:255-262 | the device reads what was offered: no unconsumed entry is overwritten |
| Virtqueue.VirtQueue.DeviceComplete | src/net/virtqueue.rs:295-312 | a completion finds a slot no unseen completion uses |
| Virtqueue.PartitionTake | src/net/virtqueue.rs:220-252 | free list and chains partition the descriptors when a chain is made |
| Virtqueue.PartitionGive | src/net/virtqueue.rs:366-385 | and when one is freed |
| Virtqueue.RingPush | src/net/virtqueue.rs:255-262 | a new ring entry takes a slot no unconsumed entry uses |
| Virtqueue.UsedTest | src/net/virtqueue.rs:301-309 | the 16-bit comparison finds a completion exactly when there is one |
| NetDriver.VirtioDriver.ReclaimAll | src/net/virtio_mmio.rs:238-254 | each completed transmission's page is freed, once |
| NetDriver.VirtioDriver.Submit | src/net/virtio_mmio.rs:256-284 | a packet goes out in a page of its own, exactly when it fits and there is a page and a descriptor |
| NetDriver.VirtioDriver.Send | src/net/virtio_mmio.rs:237-285 | no page is lost, shared or freed twice |
| NetDriver.VirtioDriver.Recv | src/net/virtio_mmio.rs:294-332 | the set of posted pages never changes; the page handed to the caller is already offered to the device again |
| NetDriver.VirtioDriver.Prefill | src/net/virtio_mmio.rs:219-223 | posts one page a buffer while there are pages |
| DriverAbi.Serialize | user/driver-abi/src/lib.rs:67-97 | every byte of the output: the magic number, name, version, capabilities and resources at their offsets, least significant byte first, with the tags 0, 1 and 2 |
| DriverAbi.Deserialize | user/driver-abi/src/lib.rs:101-131 | reads it, or rejects |
| DriverAbi.RoundTrip | user/driver-abi/src/lib.rs:67-131 | a descriptor reads back whatever follows it |
| DriverAbi.PrefixFree | user/driver-abi/src/lib.rs:67-131 | the encoding is injective and prefix-free |

## Left out

- TLB flushes, inter-processor interrupts, CSR and SBI calls, assembly, and device probing.
- Accessed and dirty bits: the hardware's own updates of entries are not modelled.
- Megapages of the kernel's identity map, MMIO leaves and VMO mappings.
- `CLONE_VM` and the `satp_share` counts; `sys_exec` and the server-side `sys_destroy_user_space` (src/syscall/pm.rs:205-226). Like `sys_reap_process` (src/syscall/pm.rs:308-356, syscall 105) they destroy a space without `evict_all`; runs with stale pool entries of a reused root are outside the model, whose `Sane` rules them out.
- Job memory accounting: the limit check is an argument, its bookkeeping is not modelled.
- `alloc_page`'s retry after eviction; `TryEvictPage` and allocation are modelled separately.
- Pmm.FreePage: called with a RAM frame that is not on the list; the check for double frees is in debug builds only.
- Pmm.DecrRefAndMaybeFree: called with a RAM frame that is not on the list.
- Vmm.MapPage: called with a frame the caller holds, which no other entry maps writable.
- RAM beyond 2 GB, whose pages the count table does not cover.
- Processes.SysFork: trap frame copying and scheduling of the child are not modelled.
- Processes.SysClone: the same, and namespaces and thread groups.
- Vmm.WalkPageTable: addresses whose top index is one of the kernel's four are not modelled; nor are they in Vmm.MapPage.
- Faults.HandleUserPageFault: addresses between 2^39 and 2^47, which alias lower ones, are not modelled; nor are they in Faults.HandlePageFault.
- DataCopy.SysDataCopy: overlapping ranges inside one process are not modelled; the code's `copy_nonoverlapping` does not define them.
- DataCopy.ResolveSource: below 4 GB the code walks the kernel's own tables and can copy; the model has no page there and reports failure; the same holds of DataCopy.ResolveTarget and DataCopy.SysDataCopy.
- Elf.LoadSegment: requires the segment inside the user range with R or X; the code does not check this.
- Elf.LoadElf: requires loadable segments inside the user range with R or X; the code does not check this. Pages loaded before a failure stay mapped, as in the code.
- Harts: `free_page` called by a sole owner takes the same steps as the last `decr_ref_and_maybe_free` and is not a separate operation; counts are assumed to have room, which one reference per process gives.
- Rendezvous: message contents are a single value; IRQ messages, `kernel_send_msg` and process exit are not modelled.
- Wakeup: epoll, signal and async waiters of a channel are not modelled; memory is sequentially consistent.
- LockTable: `release_all_locks` and `F_GETLK` are not modelled; of a blocked `F_SETLKW` only the queue entry is.
- Signals: user memory is a flat map of words; stop, continue and default actions are outcomes without their scheduling effects.
- Virtqueue: memory barriers are not modelled; driver calls and device steps alternate as wholes.
- NetDriver: packet contents are not modelled, only who owns which page.
- The run queue and its priorities, handles, pipes, futexes, sockets, namespaces, and user programs.

# linda: a verified model of the kernel's core

linda is a small teaching kernel for the 32-bit x86. This project models its four layers of memory
management, its scheduler with spinlocks and interrupts, its formatted printing, its string tokenizer
and its console, and proves what they keep over whole runs. `dafny verify dfyconfig.toml` checks it.

| file | models |
|---|---|
| `Machine.dfy` | 32-bit words, page arithmetic |
| `ChunkList.dfy`, `ChunkLaws.dfy`, `ChunkReturns.dfy`, `Heap.dfy` | `mm/kmalloc.c`: the chunk list as a sequence, its laws, and the same allocator over byte memory with in-band headers |
| `KernelPages.dfy` | `mm/vmmgr.c`: the USED/MAPPED table |
| `FrameStack.dfy` | `mm/memory.c`: the stack of physical frames |
| `PageTables.dfy`, `Mmap.dfy`, `PagingRuns.dfy` | `mm/mmap.c`: two-level page tables over an array of words, page faults, user directories, boot, and runs of them |
| `KernelMemory.dfy`, `KernelRuns.dfy` | heap and page tables in one memory, over one table of pages, and runs of kmalloc, kmfree, mmap_do_map and mmap_do_unmap over it |
| `Scheduler.dfy`, `SchedulerInv.dfy`, `SchedulerLaws.dfy`, `SchedulerPids.dfy`, `SchedulerWitness.dfy` | `kernel/scheduler.c`, `kernel/spinlock.c`, `kernel/process.c`, `drivers/timer.c`: one statement of one thread, or one interrupt, per step |
| `Spinlock.dfy` | the same C functions in place, and that the step system does the same when nothing interrupts |
| `Numbers.dfy`, `Strtoul.dfy`, `Format.dfy` | `lib/kprintf.c` |
| `NumberLaws.dfy`, `FormatLaws.dfy` | what the printed text is, said without the functions that print it |
| `Tokens.dfy`, `Bytes.dfy` | `lib/string.c` |
| `Console.dfy`, `ConsoleLaws.dfy` | `drivers/console.c`, and where lines of text stand |

How the parts are modelled:

- `panic` never returns: it is an outcome (`Panic`, `None`, `false`), and the run has ended.
- The heap's `Stored` predicate ties byte memory to the chunk sequence; `chunks` and `taken` are ghost.
- Loads and stores of the kernel to a page table go through the linear map: `Mmap.Paging.Peek` and `Poke`
  ask that the page is where `kmap_init` put it (`Home`). `page_fault_handler` does not look at the error code,
  so a user access to the linear range moves such a page; a run goes on after that as long as the page is none
  that the kernel uses or is about to be given (`Intact`).
- `UvmInit`, `PageFault` and the allocation of frames are stated while pushed frames are left. Below them
  `phy_mem_alloc` hands out the never-pushed slot 0 and then NULL (`FrameStack.FrameStack.Alloc`).
- `umap_init` does not clear the lower part of its page; `dirs` holds the directories for which it was zero.
- In the step system a thread is a program counter, `switch_context` moves the CPU to another one, and an
  interrupt may come before any statement while IF is 1. Runs are arbitrary sequences of choices.
- A console cell beyond the 25 rows is what video memory holds there (`past`); no assumption is made about it.
- `%n` yields the column stored. Arguments are a sequence of tagged values; a list that does not fit the
  format has no meaning (`Render` is `None`), as in C.

Where the code does not do what one would expect, the exact condition is proved:

- `kmalloc` can return NULL with free pages left: `ChunkLaws.NullExactly`, `ChunkLaws.RefusedWithFreePages`.
- `chunk_split` panics on a slack of 1 to 16 bytes: `ChunkLaws.FirstFitIsUsed`.
- The scheduler's own interrupt flag is not always restored: `SchedulerLaws.SchedulerFlagExactly`,
  `SchedulerWitness.SchedulerFlagLost`.
- `kmfree` never gives back a chunk of size 0, and joins only one of two pairs: `ChunkReturns.MallocThenFree`,
  `ChunkReturns.ZeroStays`, `ChunkReturns.FreeLeavesTouch`.
- An upper-case `0X` is not parsed back: `Strtoul.RoundTripPrefix`.
- `memcmp` can order the wrong way: `Bytes.Memcmp`, `Bytes.OrderCanBeWrong`.
- A page fault in the linear range breaks the linear map: `Mmap.Paging.PageFault`, `PagingRuns.BootAndFault`.
- The storage `kvm_init` reserves covers the frame stack only if the last slot does not cross a page:
  `KernelPages.StorageIsReserved`, `KernelPages.StorageCanMiss`.
- `mmap_do_map` fails when kmalloc refuses its record, though pages are left: `KernelRuns.MapPage`,
  `KernelRuns.MapRefused`.

Where code and C99 differ, the code is followed: a negative `*` precision counts as 0 and not as absent
(section 7.19.6.1), and `simple_strtoul` takes neither sign nor white space (section 7.20.1.4).

## Model

| member | source | states |
|---|---|---|
| ChunkLaws.EveryRunIsSafe | mm/kmalloc.c:92-174 | Over every run of kmalloc, kmfree and other callers of kvm_alloc_page (stacks, tables, directories) in any order, from boot and without a panic: what the callers hold is exactly the set of used chunks, each of the size asked for; headers and payloads are pairwise disjoint; the chunks tile exactly the pages the heap obtained, whose number gives the sum of sizes and headers; every page has one owner and no chunk reaches into a page that went elsewhere. |
| ChunkLaws.LiveAllocationsDisjoint | mm/kmalloc.c:92-174 | In every such run, two live allocations share no byte, headers included. |
| ChunkLaws.MallocSound | mm/kmalloc.c:92-147 | One kmalloc, for any list, size and free pages: the layout invariant is kept, a non-NULL result adds exactly one used chunk of exactly the requested size that was not there before, NULL changes no allocation. |
| ChunkLaws.FreeSound | mm/kmalloc.c:149-174 | One kmfree: the layout is kept and exactly the allocation containing the address, if any, is dropped; every other one keeps its address and size. |
| ChunkReturns.MallocThenFree | mm/kmalloc.c:92-174 | From a list without touching free chunks, a kmalloc that finds a chunk large enough takes no page, and kmfree of its result gives back the very same list if and only if more than 0 bytes were asked for. |
| ChunkReturns.ZeroStays | mm/kmalloc.c:164-164 | A chunk of size 0 stays in use whatever address is freed. |
| ChunkReturns.FreeGlues | mm/kmalloc.c:149-174 | After kmfree there is one chunk fewer if and only if, once the chunk holding the address is free, two free chunks touch; then the first two such are one chunk of both sizes and a header, else the list is the same but for the status. |
| ChunkReturns.FreeLeavesTouch | mm/kmalloc.c:149-174 | From a list without touching free chunks, kmfree leaves two touching ones if and only if both neighbours of the chunk were free and touched it; the next glue joins them. |
| ChunkReturns.GrowsExactly | mm/kmalloc.c:131-141 | With nothing to glue, no chunk large enough and the next pages behind the free tail, kmalloc takes exactly the pages that are missing and hands out the bytes behind the tail's header; it panics exactly when too few are left or 1 to 16 bytes would be left over. |
| ChunkReturns.FirstGrowsExactly | mm/kmalloc.c:95-141 | The same from the empty heap, whose first page is the tail. |
| ChunkLaws.FirstFitIsUsed | mm/kmalloc.c:106-129 | With a fitting free chunk kmalloc uses the first one, takes no page, and panics exactly when 1 to 16 bytes would be left over (the slack chunk_split refuses). |
| ChunkLaws.NullExactly | mm/kmalloc.c:92-147 | kmalloc returns NULL if and only if no chunk fits and either the last chunk is in use (the search runs off the list without asking for a page) or growth starts and gluing absorbs the block the search stands on; the condition is computable before the call. |
| ChunkLaws.RefusedWithFreePages | mm/kmalloc.c:107-145 | The witness that NULL does not mean memory is exhausted: after a full-page allocation the next request is refused although a page is free. |
| ChunkLaws.StuckPanics | mm/kmalloc.c:131-141 | From a list whose last two chunks touch while an earlier pair is glued first, a request larger than a page consumes every page and panics. |
| ChunkLaws.GrowsNeverNull | mm/kmalloc.c:131-141 | With nothing to glue, growth over consecutive pages only widens the tail and never ends in NULL. |
| ChunkList.MergeKeeps | mm/kmalloc.c:61-67 | Joining a touching free pair keeps order, bytes covered, total size and all allocations. |
| ChunkList.GlueKeeps | mm/kmalloc.c:45-72 | chunk_glue keeps order, bytes covered, total size and all allocations. |
| ChunkList.SplitKeeps | mm/kmalloc.c:20-43 | Splitting a free chunk and using its first half keeps order, bytes covered and total size, and adds exactly that one allocation. |
| ChunkList.MarkKeeps | mm/kmalloc.c:125-129 | Changing a chunk's status keeps order, bytes covered and total size and changes exactly that one allocation. |
| ChunkList.GrowKeeps | mm/kmalloc.c:74-90 | Appending a fresh page as a chunk keeps the whole layout invariant and all allocations. |
| Heap.BootPages | mm/vmmgr.c:32-45 | While no page is given back, the pages kvm_alloc_page will return are increasing and consecutive, which is what the kmalloc laws ask for. |
| Heap.PayloadStored | mm/kmalloc.c:164-166 | The memset of a payload leaves every stored header intact. |
| Heap.GlueUntouched | mm/kmalloc.c:61-67 | A glue in memory changes no byte of a chunk in use and none outside the heap's pages. |
| Heap.GlueKeepsBlank | mm/kmalloc.c:45-72 | A payload that kmfree has zeroed is still zero after the glue, whichever pair is merged. |
| Heap.Heap.ChunkSplit | mm/kmalloc.c:20-43 | chunk_split on headers in byte memory: panics exactly when size + 16 >= the chunk's size; otherwise memory holds the list with the chunk cut in two; no byte outside the chunk changes. |
| Heap.Heap.TryMerge | mm/kmalloc.c:61-68 | The loop body of chunk_glue merges exactly when both chunks are free and touch, and then memory holds the merged list with its payload zeroed. |
| Heap.Heap.ChunkGlue | mm/kmalloc.c:45-72 | The walk over stored headers, which zeroes the absorbed header and then steps onto it, yields exactly the list with its first touching free pair merged, or the same list; at most one merge. |
| Heap.Heap.AllocFreeChunk | mm/kmalloc.c:74-90 | Stores the header of a page-sized free chunk at the next free page; panics exactly when there is none. |
| Heap.Heap.Grow | mm/kmalloc.c:131-141 | Links a fresh page behind the tail, glues once, keeps the invariant and every used byte, and says where the old block is afterwards (possibly absorbed and zeroed). |
| Heap.Heap.TakeSplit | mm/kmalloc.c:113-123 | Takes the first part of a larger block, keeping the invariant and every used byte; fails exactly at slack 1 to 16. |
| Heap.Heap.TakeWhole | mm/kmalloc.c:125-129 | Takes a block of exactly the size asked for, keeping the invariant and every used byte. |
| Heap.Heap.FirstPage | mm/kmalloc.c:95-102 | The first call turns one page into the list; panics exactly when there is no page. |
| Heap.Heap.Kmalloc | mm/kmalloc.c:92-147 | kmalloc over byte memory, every path including resuming from an absorbed block, terminates with exactly the outcome of the list model, and writes no byte of a used chunk and none outside the heap's pages. |
| Heap.Heap.Release | mm/kmalloc.c:164-167 | Marks the found chunk free and zeroes its payload; nothing else in use changes. |
| Heap.Heap.Kmfree | mm/kmalloc.c:149-174 | kmfree over byte memory frees exactly the chunk containing the address, leaves its whole payload zero and all other allocations' bytes alone; the list is one chunk shorter if and only if two free chunks then touch, the first two such being made one, and otherwise only the status has changed. |
| KernelPages.FreeTake | mm/vmmgr.c:32-45 | Marking the first available page USED takes exactly the head of the list of available pages. |
| KernelPages.PagesFromAt | mm/vmmgr.c:13-28 | The k-th page handed out after boot is the k-th page above the reserved ones: strictly increasing addresses up to MEM_NORMAL. |
| KernelPages.PrefixFree | mm/vmmgr.c:13-45 | After boot the available pages are exactly those from the first unreserved page to the end of the linear map. |
| KernelPages.InitMakesPrefix | mm/vmmgr.c:13-28 | kvm_init after kmap_init: the pages up to the one virt_kern_addr lies in are USED and MAPPED, the rest of the linear map MAPPED and free, nothing else mapped. |
| KernelPages.StorageIsReserved | mm/memory.c:64-97 | The pages kvm_init marks cover the kernel image and every free-list slot written, slot page_count included, if and only if the last slot does not cross a page end; 4-aligned kern_end suffices. |
| KernelPages.StorageCanMiss | mm/memory.c:64-97 | A kern_end and a frame count for which the last slot reaches into a page that is not reserved. |
| KernelPages.KernelPages.Init | mm/vmmgr.c:13-28 | Every entry gets its address, and USED and MAPPED exactly when its page starts at or below virt_kern_addr. |
| KernelPages.KernelPages.AllocPage | mm/vmmgr.c:31-45 | Returns the first MAPPED and not USED page and marks it alone USED; panics exactly when there is none. |
| KernelPages.KernelPages.AllocUnmappedPage | mm/vmmgr.c:48-62 | Returns the first page not MAPPED, changing nothing; panics exactly when all are mapped; after boot it is always KERNBASE + MEM_NORMAL. |
| KernelPages.KernelPages.FreePage | mm/vmmgr.c:65-78 | Clears USED alone, filling in a zero address; panics exactly below KERNBASE. |
| KernelPages.KernelPages.UnmapPage | mm/vmmgr.c:81-91 | Clears MAPPED and, because of how the mask expands, USED as well. |
| KernelPages.KernelPages.MapPage | mm/vmmgr.c:94-102 | Sets MAPPED alone; panics exactly below KERNBASE. |
| FrameStack.FrameStack.Init | mm/memory.c:61-69 | phy_mem_init pushes exactly the frames from the rounded end down to the rounded start, end frame included, lowest on top. |
| FrameStack.FrameStack.Alloc | mm/memory.c:75-83 | Pops the last pushed frame; below the pushed ones yields slot 0 once and then NULL. |
| FrameStack.FrameStack.Free | mm/memory.c:86-90 | Pushes the rounded-down address and changes no other slot. |
| FrameStack.FrameStack.Drain | mm/mmap.c:64-70 | kmap_init's drain makes exactly the pops up to the first frame above MEM_NORMAL and leaves that frame on top. |
| FrameStack.Pops | mm/memory.c:75-83 | The values of any number of phy_mem_alloc in a row, the NULLs included. |
| FrameStack.DrainEndsExactly | mm/mmap.c:64-70 | There is a first pop above MEM_NORMAL for the drain loop to stop at if and only if some slot up to the header holds such a frame; otherwise every pop is below it. |
| FrameStack.DrainKeepsHighFrames | mm/mmap.c:64-70 | What is left after the drain is exactly the set of frames of the range at or above MEM_NORMAL. |
| FrameStack.PushOrderAt | mm/memory.c:64-69 | The k-th push is end - k * PGSIZE, and their number is (end - start) / PGSIZE + 1. |
| FrameStack.InPushOrder | mm/memory.c:64-69 | Exactly the page-aligned addresses of the range are pushed. |
| FrameStack.PushedOnce | mm/memory.c:64-69 | Each frame is pushed once, in strictly falling order. |
| PageTables.SlotStored | mm/mmap.c:92-92 | Storing a page-table entry, of a user page or of any kernel page of kpgdir, the linear range included, keeps the structure of the tables, changes the translation of that page to exactly that entry and no other page's in any directory, and changes the linear map only if the page lies in it, and there only. |
| PageTables.InstallKeeps | mm/mmap.c:85-88 | Using a page just handed out as a table keeps the invariant: tables and directories stay distinct reserved pages. |
| PageTables.InstallWalk | mm/mmap.c:85-88 | Installing a cleared table changes no translation. |
| PageTables.CopiedDirWalk | mm/mmap.c:161-170 | A new directory translates as kpgdir from KERNBASE up; below it maps nothing if its page was zero there, and otherwise what the old contents of the page say; all others are unchanged. |
| PageTables.CopiedDirKeeps | mm/mmap.c:161-170 | The structure is kept, with the new page as a well-formed directory exactly when its lower part was zero. |
| PageTables.LinearWalk | mm/mmap.c:45-62 | In every directory an address of the linear range walks to what kpgtbl holds for its page. |
| PageTables.HomeWalk | mm/mmap.c:45-62 | A directory translates KERNBASE + pa to pa, present and writable, if and only if kpgtbl's entry for that page is the one kmap_init stored. |
| PageTables.AllShareLinear | mm/mmap.c:80-138 | In the linear range all directories translate alike, whatever mmap_do_map and mmap_do_unmap have done to kpgdir there. |
| PageTables.LinearFault | mm/mmap.c:21-35 | Entering a frame for a page of an intact linear map leaves it intact if and only if it is the page's own frame. |
| PageTables.KernelHalfShared | mm/mmap.c:161-170 | From KERNBASE up a directory translates as kpgdir does if its own directory entry is there and maps nothing if it is not; in the linear range the entry always is. |
| PageTables.MappedFramesNeverAlias | mm/mmap.c:22-35 | Every mapped page either lies in the linear range and is at home, or has a frame at or above MEM_NORMAL that is not on the free stack and is mapped at one page of one directory only (kernel pages are seen through several). |
| PageTables.ClearReturns | mm/mmap.c:130-138 | After an unmap the frame of that page is spare again: in no table slot. |
| PageTables.MappedAccess | mm/mmap.c:88-92 | Under the two-level walk of section 4.3 of the Intel SDM, volume 3A, with R/W and U/S at both levels, a page mapped with these flags is writable, and open to user code if and only if the flags and the directory entry have U. |
| PageTables.SidesGiveUserHalf | mm/mmap.c:27-32 | If directory entries and pages have U exactly below KERNBASE, the walk opens every mapped page below KERNBASE to user code and none from there up, all of them writable. |
| PageTables.SidesStored | mm/mmap.c:79-93 | Setting one page and its directory entry on their own side keeps all of them on theirs, in every directory that shares the page. |
| PageTables.SidesCopied | mm/mmap.c:161-170 | A new directory has its entries and pages on the right sides. |
| PageTables.BootSides | mm/mmap.c:45-62 | So has kpgdir after boot. |
| Mmap.Paging.MapLinearPage | mm/mmap.c:45-62 | One round of kmap_init's loop extends the linear map, the kpgtbl links and the MAPPED states by one page and nothing else. |
| Mmap.Paging.KmapInit | mm/mmap.c:38-70 | The whole linear map is in place with exactly its pages MAPPED, and the stack is drained to the first frame above it. |
| Mmap.Paging.Boot | init/bootstrap.c:64-66 | phy_mem_init, kmap_init and kvm_init establish the memory invariant and the full linear map; the stack then holds exactly the frames of the range at or above MEM_NORMAL, in known number, and no page not in use has been written. |
| Mmap.Paging.BootFrames | init/bootstrap.c:64-65 | The first two of these: the stack holds exactly the high frames, each once. |
| Mmap.Paging.DoUnmap | mm/mmap.c:129-138 | mmap_do_unmap on a user page or any page of kpgdir: the page has no translation afterwards, every other translation and directory entry is the same, the linear map changes only at that page, the structure is kept and all directories still share the linear range. |
| Mmap.Paging.InstallTable | mm/mmap.c:86-88 | The memset and the directory store change exactly that page and that entry. |
| Mmap.Paging.AddTable | mm/mmap.c:85-88 | A missing table becomes the next page, cleared, and the directory entry that page with P, W and the flags; no translation, no other directory entry and nothing of the linear map changes; panics exactly when no page is left. |
| Mmap.Paging.DoMap | mm/mmap.c:79-93 | mmap_do_map on a user page or any page of kpgdir: the page then translates to pa's frame, writable, and for user code if and only if PTE_U was given and the directory entry was missing or has U; everything else is as before, the linear map changes only at that page, all directories still share it, frames stay unique; it fails exactly when the pages needed are not left or the page is kpgdir's own or that of the table the entry stands in. |
| Mmap.Paging.TakeFrame | mm/memory.c:75-83 | A popped frame is mapped nowhere and no longer on the stack. |
| Mmap.Paging.PageFault | mm/mmap.c:21-35 | page_fault_handler for any address maps the top frame there, with its exact success condition, for user code if and only if the address is below KERNBASE and the directory entry was missing or has U; the invariant is kept; the linear map stays as kmap_init left it if and only if the address is outside it; the faulting directory sees the page if and only if it has the directory entry, so above the linear map a process without it faults again. |
| Mmap.Paging.UmapInit | mm/mmap.c:160-170 | umap_init on any page: the new directory shares kpgdir's upper half, its lower entries are those the page held, it is well formed exactly when they were zero and then maps nothing below KERNBASE; all other translations are unchanged; panics exactly when no page is left. |
| Mmap.Paging.CopyUpper | mm/mmap.c:165-167 | The copying loop copies exactly the entries from PDX(KERNBASE) on. |
| Mmap.Paging.CopyThroughWindow | mm/mmap.c:237-239 | Mapping and unmapping the window succeeds exactly within the page budget and leaves the frame spare, the linear map and every other translation as they were. |
| Mmap.Paging.UvmInit | mm/mmap.c:224-241 | uvm_init succeeds exactly for at most a page and within the page budget; the processor then translates address 0 to the popped frame, writable and for user code if and only if the directory entry was missing or has U; the window is unmapped again, the linear map and every other translation unchanged. |
| PagingRuns.Run | mm/mmap.c:21-241 | Over every sequence of page faults at any address, umap_init and uvm_init: within a budget of pages, frames and addresses that can be checked beforehand the run is done to the end; a panic happens only for want of pages, with the pages left accounted for, for an image of more than a page, or for a fault on the handler's own table, and every other end has its cause. In the state reached a page of the linear range is where kmap_init put it if and only if no fault has hit it; the directories are those at the start and one for each umap_init, and all share the kernel half; every mapped page below KERNBASE is open to user code and none from there up; no frame is mapped twice, or mapped and on the stack; each operation but umap_init has used one frame. |
| PagingRuns.BootAndRun | init/bootstrap.c:64-66 | The same from the state before phy_mem_init, with kpgdir as the one directory, the frames of the range above MEM_NORMAL, and the budget read off the machine before boot. |
| PagingRuns.InBudget | mm/mmap.c:21-241 | Inside its budget no operation of a run can stop it. |
| PagingRuns.Do | mm/mmap.c:21-241 | One operation of such a run: exactly when it panics, lacks a frame, meets a moved kernel page or an unclean one, and what it does otherwise. |
| PagingRuns.FaultAtKernbase | mm/mmap.c:21-35 | The concrete fault at 0xC0000000: every directory then sees a frame at or above MEM_NORMAL where the first page of memory was. |
| PagingRuns.BootAndFault | mm/mmap.c:21-35 | That state is reached from boot. |
| PagingRuns.FaultHits | mm/mmap.c:21-35 | A fault in the linear range moves exactly its page away from home. |
| PagingRuns.NoAliasFrom | mm/mmap.c:21-35 | The invariant gives the no-alias statement for all pairs of addresses and directories. |
| KernelMemory.Kmalloc | mm/kmalloc.c:92-147 | In one memory with the page tables, kmalloc changes no translation in any directory, and the pages it takes hold no table or directory. |
| KernelMemory.Kmfree | mm/kmalloc.c:149-174 | The same for kmfree. |
| KernelMemory.TablePage | mm/mmap.c:85-88 | A page taken for a table or directory is not the heap's, and the heap is otherwise unaffected. |
| KernelMemory.TableStore | mm/mmap.c:92-92 | A store into a page that is not the heap's is exactly that word of memory and changes no byte of the heap. |
| KernelRuns.Run | mm/mmap.c:79-158 | Over one memory and one table of pages, any run of kmalloc, kmfree, mmap_do_map and mmap_do_unmap outside the linear range succeeds exactly when the run of the abstract kernel does, and then the heap is its chunk list and every directory translates as its flat map from pages to entries says, the directory entries having U where its tables do. |
| KernelRuns.BootAndRun | init/bootstrap.c:64-66 | The same from the state before phy_mem_init, with an empty heap and an empty map. |
| KernelRuns.StartHeap | init/bootstrap.c:64-66 | The memory that boot leaves shows the abstract kernel with nothing allocated and nothing mapped. |
| KernelRuns.Do | mm/mmap.c:79-158 | One such operation in memory does what the abstract kernel does and fails exactly where it fails. |
| KernelRuns.MapPage | mm/mmap.c:79-125 | mmap_do_map with the kmalloc of its record: it succeeds exactly when a page is left for a missing table and kmalloc gives the record, neither panicking nor refusing; then the page translates to pa's frame, open to user code if and only if PTE_U was given and the directory entry was missing or has U, the record holds the two addresses and `mapped`, nothing else is changed, and every chunk in use keeps its bytes. |
| KernelRuns.MapRefused | mm/mmap.c:95-121 | With no free chunk for the record and the last chunk in use a mapping fails, whatever pages are left. |
| KernelRuns.ShownReach | mm/mmap.c:79-93 | In a state shown, a page is translated if and only if the flat map has it, to the frame there, and is open to user code if and only if its entry and its table's are. |
| KernelRuns.UnmapSlot | mm/mmap.c:129-138 | mmap_do_unmap on the shared memory: the page is unmapped, all else and every byte of the heap stays. |
| KernelRuns.AddTable | mm/mmap.c:85-88 | A missing table made from a page that the heap does not own; the directory entry is that page with P, W and the flags. |
| KernelRuns.TakeRecord | mm/mmap.c:96-123 | The record's kmalloc and the stores into it: its words hold the two addresses and `mapped`; no table and no chunk in use before is touched. |
| KernelRuns.MapShows | mm/mmap.c:79-93 | A mapping is exactly one update of the flat map. |
| KernelRuns.UnmapShows | mm/mmap.c:129-138 | An unmapping is exactly one removal from it. |
| KernelMemory.HeapKeepsTables | mm/kmalloc.c:92-174 | What leaves everything outside the heap's free bytes alone leaves every table alone. |
| KernelMemory.SameTranslation | mm/mmap.c:80-138 | Equal tables and directories translate equally. |
| Machine.PageIndices | include/arch/x86/mach.h:148-151 | Directory and table index together determine the page. |
| Machine.ShiftMaskIsDivision | include/arch/x86/mach.h:148-169 | The shift-and-mask macros equal the division forms used in the model on all 32-bit values. |
| Machine.FlagsDoNotReachTheFrame | mm/mmap.c:88-92 | OR-ing P, W and U into a masked address is addition and masking takes them off again. |
| SchedulerInv.BootInv | init/bootstrap.c:73-77 | The step system's invariant holds when the scheduler thread starts. |
| SchedulerInv.StepKeeps | kernel/scheduler.c:14-74 | Every statement of every thread and every interrupt at any point keeps the invariant (ncli and lock ownership by program counter, parked threads, process states, ownership of slots being set up, pids). |
| SchedulerLaws.EveryRunIsSafe | kernel/spinlock.c:24-78 | No run reaches any panic of acquire, release, popcli or goto_scheduler; IF=1 implies ncli=0 and no lock held; the only RUNNING process is curprocess. |
| SchedulerLaws.EveryRunPids | kernel/process.c:70-107 | In every run the pids of slots in use are distinct, at least 1 and below nextpid. |
| SchedulerPids.EveryAllocationsPid | kernel/process.c:22-79 | In every run from boot the k-th process to be allocated gets pid k, as an EMBRYO in the first UNUSED slot, and no pid changes otherwise. |
| SchedulerPids.PanicTests | kernel/spinlock.c:24-78 | acquire panics if and only if the lock is held, release if it is not, popcli with IF set or ncli below 1, goto_scheduler unless ptable.lock is held, ncli is 1, IF is 0 and the process is not RUNNING. |
| SchedulerLaws.Handover | kernel/scheduler.c:25-31 | At every context switch, in both directions, ptable.lock is held, ncli is 1 and IF is 0, before and after, and control lands at a release or back in the scan. |
| SchedulerLaws.EveryRunAlternates | kernel/scheduler.c:20-33 | Acquires and releases of ptable.lock alternate over the whole run although they do not match per thread. |
| SchedulerLaws.YieldRestoresFlag | kernel/scheduler.c:37-74 | When yield_cpu returns, IF is what it was at the call, whatever ran in between. |
| SchedulerLaws.SchedulerFlagExactly | kernel/scheduler.c:19-34 | The scheduler's own IF is restored by its release if and only if no process has switched out since its acquire, or the last to do so was inside an interrupt handler exactly when the flag was off: scheduler() does not save intena. |
| SchedulerLaws.EveryRunMirrors | kernel/scheduler.c:60-63 | In every run intena at the last switch is determined by that event: off from a handler, on otherwise. |
| SchedulerWitness.SchedulerFlagLost | kernel/scheduler.c:19-34 | A run from boot in which the scheduler takes the lock with IF on and its release leaves IF off: one process, dispatched once, preempted once by the timer. |
| SchedulerLaws.TimerHandsOverMaskedFlag | kernel/scheduler.c:60-63 | The case where it is not: a process preempted by the timer hands over intena = 0, a voluntary yield intena = 1. |
| SchedulerLaws.EveryStepFair | kernel/scheduler.c:21-26 | Only a dispatch takes a process out of RUNABLE, at most one per step, and the scan passes over a process only if it is not RUNABLE. |
| SchedulerLaws.BoundedWaiting | kernel/scheduler.c:19-34 | From any dispatch on, in every continuation, a waiting process is dispatched before the dispatched one is again, after at most NPROC - 2 others. |
| SchedulerLaws.DispatchStartsWait | kernel/scheduler.c:25-26 | Dispatching i while j is RUNABLE starts j's bounded wait. |
| SchedulerLaws.RoundRobin | kernel/scheduler.c:19-34 | In every run from boot: if j is RUNABLE when i is dispatched, then j comes before i's next dispatch and after at most NPROC - 2 other dispatches. |
| SchedulerLaws.LogKept | kernel/scheduler.c:25-26 | The history of dispatches only grows. |
| Spinlock.Cpu.Pushcli | kernel/spinlock.c:49-60 | Masks interrupts, counts, and saves IF only at the outermost level. |
| Spinlock.Cpu.Popcli | kernel/spinlock.c:62-78 | Panics exactly when IF is set or nothing was pushed; otherwise counts down and restores IF at the outermost level. |
| Spinlock.SpinLock.Acquire | kernel/spinlock.c:24-34 | Takes a free lock; on a held one panics, having pushed. |
| Spinlock.SpinLock.Release | kernel/spinlock.c:37-46 | Frees a held lock and pops; panics exactly when it is not held or popcli does. |
| Spinlock.NestingRestores | kernel/spinlock.c:49-78 | A sequence of pushcli and popcli from ncli = 0 panics nowhere if and only if it is properly nested; inside it IF is 0, and balanced it leaves IF as it was. |
| Spinlock.PushcliSteps | kernel/spinlock.c:49-60 | In the step system, pushcli without interruption does what Cpu.Pushcli does. |
| Spinlock.PopcliSteps | kernel/spinlock.c:62-78 | Likewise popcli. |
| Spinlock.AcquireSteps | kernel/spinlock.c:28-33 | Likewise the rest of acquire: panic on a held lock, else the critical section with the lock. |
| Spinlock.ReleaseSteps | kernel/spinlock.c:40-45 | Likewise release up to popcli. |
| Spinlock.QuietIsRun | kernel/scheduler.c:19-34 | An uninterrupted stretch is a run of the step system, so the laws above apply to it. |
| Spinlock.Table.AllocProcess | kernel/process.c:71-107 | alloc_process's loop over the table in place: the first UNUSED slot becomes EMBRYO with pid nextpid, which goes on by one, as in the step system's critical section; none exactly when no slot is UNUSED, and then nothing changes. |
| Spinlock.Table.Choose | kernel/scheduler.c:21-26 | The scan from a given process on marks exactly the first RUNABLE one RUNNING and makes it curprocess. |
| Spinlock.ScanSteps | kernel/scheduler.c:21-33 | The scan, statement by statement, runs into exactly that process with it RUNNING and logged, or to the release when there is none. |
| Numbers.DigitCount | lib/kprintf.c:98-102 | A value below 2^bits has at most bits digits in any base. |
| Numbers.NumberLength | lib/kprintf.c:71-127 | number() emits exactly max(size, sign + prefix + max(precision, digits)) characters for all flags and bases 2 to 36, and tmp never holds more than 32 digits. |
| Numbers.DigitMoves | lib/kprintf.c:101-102 | Each do_div step moves the last digit over and keeps the digit string. |
| Numbers.ReversedAt | lib/kprintf.c:123-124 | Emitting tmp from the end reverses it. |
| Numbers.DigitLoop | lib/kprintf.c:98-102 | tmp holds the digits of the value, least significant first, 1 to 32 of them. |
| Numbers.Put | lib/kprintf.c:106-108 | The padding loops write exactly count copies and leave the counter as C leaves it. |
| Numbers.PutReversed | lib/kprintf.c:123-124 | The digit output loop writes tmp reversed and nothing else. |
| Numbers.Emit | lib/kprintf.c:105-126 | The six output steps lay out spaces, sign, prefix, padding, precision zeros, digits, right spaces. |
| Numbers.Prepare | lib/kprintf.c:78-97 | Computes magnitude, sign, prefix and the width left; what these are on the text is stated by NumberLaws.NumberPrints. |
| Numbers.Number | lib/kprintf.c:63-128 | number() writes exactly the field text behind str and nothing elsewhere, for every value, size, precision and flags; NULL exactly for a base outside 2 to 36. NumberLaws states what that text is. |
| NumberLaws.NumberPrints | lib/kprintf.c:63-128 | For every value, base 2 to 36, width, precision and flags the text is spaces, then '-' for a negative signed number, '+' or ' ' for others as PLUS and SPACE say, then the prefix, then digits of the right case that denote the number, then spaces; spaces and zeros are there only to come to the width or precision, on the side LEFT and ZEROPAD name. |
| NumberLaws.PrintsOnce | lib/kprintf.c:63-128 | No other text has these properties. |
| NumberLaws.SignedReadBack | lib/kprintf.c:80-93 | A '-' is in the field if and only if the number is signed and negative, a '+' if and only if it is signed, not negative and PLUS is set; the digits, negated behind a '-', denote the number. |
| NumberLaws.DigitsDenote | lib/kprintf.c:98-102 | In every base the digits denote the number, and a leading zero is the only digit. |
| Strtoul.SimpleStrtoul | lib/kprintf.c:10-34 | Returns the value, modulo 2^32, of the longest digit run after an optional prefix, and where it ends. |
| Strtoul.ParsesOnce | lib/kprintf.c:26-33 | That result is unique. |
| NumberLaws.ParsesReads | lib/kprintf.c:14-34 | In a given base simple_strtoul reads from the start; in base 0 it reads decimal digits unless the text begins with 0, hexadecimal ones behind 0x if such a digit follows, and otherwise octal ones behind the 0; the value is what the digits denote, modulo 2^32. |
| Strtoul.DigitsAreDigits | lib/kprintf.c:26-30 | The digits number() prints are digits of the base and denote the value. |
| Strtoul.LeadingZeros | lib/kprintf.c:26-30 | Leading zeros do not change the value. |
| Strtoul.FieldParts | lib/kprintf.c:105-126 | Every printed field is padding and sign, prefix, zeros, digits, right spaces, in this order. |
| Strtoul.RoundTrip | lib/kprintf.c:10-128 | For every 32-bit value, base 2 to 16, width, precision and flags without prefix, parsing what follows padding and sign gives the magnitude and stops at the end of the digits. |
| Strtoul.RoundTripPrefix | lib/kprintf.c:10-128 | With a SPECIAL prefix and base 0 the magnitude comes back if and only if the prefix is not the upper-case 0X, which parses as 0 and stops at the X. |
| Format.RenderTakes | lib/kprintf.c:164-192 | Rendering consumes exactly one argument per `*` and per converting directive, in order. |
| Format.PlainText | lib/kprintf.c:146-150 | A format without a percent sign, or with one as its last character, prints itself. |
| Format.FieldWidth | lib/kprintf.c:203-237 | A converted field is never narrower than its width; %c and %s are exactly as wide as width and content demand. |
| Format.PrintedParses | lib/kprintf.c:10-291 | What vsprintf's %u, %o, %x and %X print for any 32-bit value is read back by simple_strtoul in base 10, 8 or 16, to the end. |
| Format.SkipFlags | lib/kprintf.c:152-162 | The goto repeat loop skips exactly the longest run of flag characters, and a flag is set if and only if its character occurs in it. |
| Format.SkipAtoi | lib/kprintf.c:39-47 | Skips exactly the longest run of decimal digits and returns the number they denote. |
| Format.Amounts | lib/kprintf.c:164-191 | Width and precision, with `*` arguments taken as they come: a negative width means LEFT, a negative precision 0. |
| Format.TextLength | lib/kprintf.c:218-218 | strnlen with the precision as limit, none when negative. |
| Format.PutPadded | lib/kprintf.c:204-227 | The padding loops of %c and %s together write the padded text once. |
| Format.EmitConversion | lib/kprintf.c:203-248 | Each converting arm of the switch appends exactly what its conversion prints. |
| Format.EmitInteger | lib/kprintf.c:250-287 | The integer arms append the field their conversion prints, which FormatLaws.ConvertsInteger describes. |
| Format.EmitUnconverted | lib/kprintf.c:267-274 | The default arm: %% prints a percent sign, an unknown conversion itself, a format ending there a lone percent sign. |
| Format.EmitDirective | lib/kprintf.c:152-287 | One directive: same output, same place in the format, same arguments left as parsing and rendering it. |
| Format.Advance | lib/kprintf.c:146-289 | Printing the first item and then the rest of the format is printing the whole. |
| Format.Vsprintf | lib/kprintf.c:130-291 | The single pass equals parse, render and concatenate for every format and matching argument list: same text, NUL behind it and nothing written after that, returned length, %n stores, arguments left, and their number. FormatLaws states what each directive is parsed into and prints. |
| FormatLaws.ParsesDirective | lib/kprintf.c:152-199 | Every text of flags, width, precision, qualifier and conversion is parsed into exactly these parts: digits denote in base 10, `*` takes an argument, a period alone is precision 0. |
| FormatLaws.OneDirective | lib/kprintf.c:146-291 | A format that is one directive without stars prints what its conversion makes of its flags, width and precision, and nothing else. |
| FormatLaws.IntegerOutput | lib/kprintf.c:250-287 | For every 32-bit argument and all flags, widths and precisions: %d and %i print the signed value in base 10, %u the unsigned one in base 10, %o in base 8, %x and %X in base 16 in small and capital letters; an h before them takes the low 16 bits. |
| FormatLaws.ConvertsInteger | lib/kprintf.c:250-287 | The same for one conversion whatever its width and precision come from. |
| FormatLaws.PlainInteger | lib/kprintf.c:250-287 | Without flags, width and precision: a '-' if the value is negative, then its digits in that base without a leading zero, and nothing else. |
| FormatLaws.ConvertsPointer | lib/kprintf.c:229-236 | %p prints the address in base 16 in small letters; without a width it is filled with zeros to eight columns. |
| FormatLaws.PlainPointer | lib/kprintf.c:229-236 | Plain %p is exactly eight hexadecimal digits that denote the address. |
| FormatLaws.ConvertsText | lib/kprintf.c:202-227 | %c prints the low byte, %s the string up to the precision, <NULL> for none; spaces to the width stand on the right if and only if LEFT is set. |
| FormatLaws.StarsTaken | lib/kprintf.c:164-192 | The width's star takes the first argument, the precision's the second, the conversion the third; a negative width is its absolute value with LEFT, a negative precision 0. |
| FormatLaws.OneStarTaken | lib/kprintf.c:164-192 | The same for a single star. |
| FormatLaws.CountStored | lib/kprintf.c:239-247 | %n prints nothing and stores the number of characters in front of it. |
| FormatLaws.NothingConverted | lib/kprintf.c:267-274 | %% prints a percent sign, and a directive ending in any other character that converts nothing a percent sign and that character. |
| Tokens.SpansAreTheRuns | lib/string.c:170-189 | The token list is exactly the set of maximal runs of non-delimiters of the string, in ascending order. |
| Tokens.SpansLocal | lib/string.c:184-187 | Tokens further on do not depend on terminators written in front of them. |
| Tokens.OneCall | lib/string.c:170-189 | One call takes the first remaining token off the list, writes at most its terminator, and leaves the rest. |
| Tokens.RunOfCalls | lib/string.c:170-189 | strtok(s, ct) and then n - 1 times strtok(NULL, ct): the tokens in order, then NULL for ever; every returned token is still intact at the end; the only bytes changed are terminators behind returned tokens. |
| Tokens.SavedInside | lib/string.c:175-187 | After any number of calls the saved pointer is NULL or inside the original string, at or in front of its terminator. |
| Tokens.Strspn | lib/string.c:135-153 | Length of the leading run of characters in the set. |
| Tokens.Strpbrk | lib/string.c:156-168 | First character of the set, or nothing. |
| Tokens.Tokenizer.Strtok | lib/string.c:170-189 | strtok in place: memory, saved pointer and result as specified; the saved pointer is NULL or at a terminated string. |
| Bytes.Memmove | lib/string.c:225-244 | The destination gets the old source bytes for every overlap, all else is unchanged. |
| Bytes.Memcpy | lib/string.c:213-222 | What the upward copy leaves, overlaps included. |
| Bytes.CopyIsMove | lib/string.c:213-244 | memcpy equals memmove when the destination does not start inside the source. |
| Bytes.CopyIsNotMove | lib/string.c:213-244 | When it does, memcpy leaves the byte of src where memmove leaves that of dest. |
| Bytes.Memcmp | lib/string.c:246-256 | Zero exactly on equal memory; at the first difference the sign is right if and only if the byte difference fits a signed char. |
| Bytes.OrderCanBeWrong | lib/string.c:246-256 | A zero byte compares greater than 0xff. |
| Bytes.Strstr | lib/string.c:276-292 | The first occurrence, or NULL exactly when there is none. |
| Console.Screen.Init | drivers/console.c:57-68 | The cleared screen shows the empty log. |
| Console.Screen.CopyUp | drivers/console.c:23-30 | The scrolling loops move 25 rows up by one, taking the row behind the screen as the last. |
| Console.Screen.Scroll | drivers/console.c:18-33 | Scrolls exactly when the cursor has reached the last row. |
| Console.Screen.Put | drivers/console.c:71-96 | console_put refines appending to an unbounded log: the 25 rows stay the window of the log that starts at the number of rows scrolled off, cursor row at most 23 and column at most 78. What is appended is stated by ConsoleLaws.ControlCharacters. |
| Console.Screen.Write | drivers/console.c:99-106 | The same for a whole string. |
| ConsoleLaws.ControlCharacters | drivers/console.c:76-91 | A newline goes to column 0 of the next row, a backspace one column back, a tab to the next multiple of 8 and from column 72 on to the next row; these write no cell, other control characters change nothing; any other character is written at the cursor, light grey on black, which goes one column on, or from column 78 to the next row. |
| ConsoleLaws.LinesLaid | drivers/console.c:74-106 | After any lines of printable text joined by newlines the k-th character of each line stands in column k % 79, k / 79 rows below the row where its line starts; each line starts in the row behind the one before, every other cell is as it was, and the cursor is behind the last character. |
| ConsoleLaws.ShownCell | drivers/console.c:18-33 | Cell (r, c) of the page is at (r - top) * 80 + c of video memory, top being the cursor's row less 23, or 0. |
| ConsoleLaws.InitAndWrite | drivers/console.c:57-106 | After console_init and a console_write of such lines, video memory holds each character that has not left the screen in its place. |
| ConsoleLaws.BackgroundIs | drivers/console.c:57-68 | A cell never written holds a light grey blank, or below the cleared screen what followed it in video memory. |
| Console.MarginsKept | drivers/console.c:76-91 | Without a backspace at column 0 the column stays within 0 to 78 and no write misses the screen. |
| Console.PrintedStays | drivers/console.c:74-91 | Without backspaces no cell in front of the cursor is written again. |
| Console.TextWraps | drivers/console.c:83-91 | Printable text fills 79 columns per row, and every character can be read back at its place on the page. |
| Console.NeverWritten | drivers/console.c:22-32 | A row below everything written still holds the background. |
| Console.WindowWrite | drivers/console.c:83-85 | A write inside the window is a write on the page. |
| Console.WindowScroll | drivers/console.c:18-33 | Scrolling moves the window down one row. |
| Console.ColourKept | drivers/console.c:48-54 | Character and both colours can be read back from a cell. |
| Console.TabMask | drivers/console.c:82-82 | The mask rounds down to a multiple of 8 on all 32-bit values. |

## Left out

- The links of `mmaplist` (mm/mmap.c:103-123, 142-157): which record an unmapping gives back is an input (`freed`). `KernelRuns.MapPage` takes the path that allocates a record, since no statement clears `mapped` in a node of the list; `Mmap.Paging.DoMap` keeps only whether it takes a page (`heapGrows`).
- KernelRuns.Run: pages of the linear range are left to `PagingRuns`, because the heap's bytes are addressed through that range.
- The bytes copied into the user page by `uvm_init`, and all page contents other than page tables and heap.
- Parsing of the multiboot memory map (mm/memory.c:22-59): start and end of the range are inputs.
- Mmap.Paging.UmapInit: for a page whose lower half is not zero it says which entries the directory holds, and nothing about later calls that use this directory.
- PagingRuns.Run: ends when a page that the kernel uses or is about to be given has been moved by a fault; what the kernel's code, data and stack do from then on is not modelled.
- KernelMemory.Kmalloc: memory is read through the linear map, so this and the other members of `KernelMemory` speak of states in which the pages of heap and tables are at home.
- Mmap.Paging.DoMap: asks that the kernel's own pages are at home, because its stores would go elsewhere; the same holds for the other operations of that class.
- Mmap.Paging.PageFault: requires a pushed frame; with none left the handler maps frame 0 or slot 0's value. The error code and the access that faulted are inputs it ignores, as the handler does.
- FrameStack.FrameStack.Init: requires a start above 0; with 0 the unsigned loop of `phy_mem_init` never ends.
- Console.Screen.Put: requires that a character lands behind the start of the screen; after backspaces past the top left corner the C code writes in front of video memory. `Console.MarginsKept` gives the streams for which this never happens.
- Format.Vsprintf: widths and precisions are unbounded integers, so the overflow of a C `int` by a very long number in the format is not modelled; the buffer is assumed large enough, as `vsprintf` assumes it.
- Format.Vsprintf: the argument of `%hd` is taken as the promoted int, truncated; `va_arg(args, short)` itself is undefined in C.
- Strtoul.SimpleStrtoul: character classes are those of ASCII; bytes from 128 on are not digits.
- Tokens.Tokenizer.Strtok: the delimiter string is a value, so a delimiter string that overlaps the string being cut is not modelled.
- The lock around `console_put` is part of the step system and not of the screen; cursor ports are hardware.
- `console_put_color`, `console_clear` and the colour writers: the same cells with other colours.
- SchedulerInv.StepKeeps: the step system is modelled on values and not on a class, because its threads interleave; the in-place forms of its functions are in `Spinlock.dfy`.
- Commented-out fork, exit, wait and kill (kernel/process.c:109-239): a generic allocate-then-publish call stands for how processes come to be. Kernel stacks, trap frames and names of processes.
- Hardware: TLB, cr3, GDT, TSS, PIC, ports, assembly, and the memory behind `switch_context`.
- `drivers/kbd.c`, `kernel/syscall.c`, `arch/x86/trap.c`: dispatch tables. `fs/buf.c` and `drivers/ide.c`: port I/O.
- The remaining loops of `lib/string.c` (`strcpy`, `strcat`, `strchr` and kin) and the debug printers: easy members.

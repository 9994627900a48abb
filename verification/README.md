# The memory manager of Atros, verified

Atros is a small x86 kernel. Its memory manager has four layers that live off one another,
and this project models all four in Dafny and proves what they are for:

* the **buddy allocator** of physical pages (`Blocks`, `FreeBlocks`, `BuddyRuns`, `BuddyRefs`,
  `Clist`, `ClistOrder`, `BuddyLists`, `BuddyAlloc`, `BuddyFree`, `PageRanges`, `PhysicalPages`,
  `PhysicalRuns`), once as sets of aligned blocks with reference counts and once as the code
  has it: an array of descriptors and twenty circular lists threaded through it; what becomes
  of these as the text is written is in `BuddyAsWritten`, `SplitAsWritten`, `FreeAsWritten`,
  `NullLinks`, `LooseLists`, `LooseFrees`, `SoundLists` and `DoubleAllocation`;
* the **slab allocator** and the **allocator of virtual regions** (`SlabCaches`,
  `SlabThreads`, `VirtualRegions`, `SimpleLists`, `RegionLists`, `KernelState`, `SlabLabels`,
  `KernelMemory`, `KernelBoot`, `KernelRuns`), each of which takes its own book-keeping
  objects from the other;
* **paging** through a recursive page-directory slot (`Paging`, `PageTables`, `KernelPaging`),
  against the page walk of section 4.3 of the Intel 64 and IA-32 Architectures Software
  Developer's Manual, Volume 3A, and a translation cache that may hold any current
  translation. The processor is one without PSE-36: physical addresses have 32 bits, and a
  4MB entry with one of bits 13 to 21 set faults;
* the **number formatter** of the kernel's C library (`NumberText`).

`dafny verify dfyconfig.toml` checks everything.

## The main results

* *Buddy allocator.* Free blocks are the canonical division of the free pages, which is
  unique; so any calls in any order, allocations, frees, references and labels, that end with
  the same pages held end with exactly the same free blocks; and in between, a block stays
  held exactly as long as references to it are left (`PhysicalRuns.Serve`,
  `BuddyRefs.HeldWhileReferenced`). An allocation fails if and only if no aligned run of free
  pages is long enough. The range initialiser uses the fewest blocks possible.
* *Reserves.* With two free Slab and two free Vregion objects to begin with, no call of a
  client ever trips a reserve assertion or finds a reserve cache empty, and both reserves are
  back to two when it returns. A call halts the kernel only when memory really is exhausted,
  no aligned run of free physical pages being long enough, or no free region; or when it
  needs more than the 512 pages of the largest block at once, however many are free.
  The one call that would break a reserve, a Slab object taken when there are three of them
  and two Vregion objects, is characterised exactly (`KernelMemory.Kernel.ObjsCacheAlloc`).
* *Whole runs, down to the hardware.* The kernel maps through the page tables of a machine,
  and from power-on (`KernelBoot.PowerOn`) these say what it believes is mapped. Over any run
  the objects handed out share no byte with one another, virtual or physical, none with a
  region handed out and none with the page tables, and no two regions share a page
  (`KernelRuns.Serve`). None lies over the first megabyte, the kernel image or the page
  descriptors, which boot leaves in use and translated to their own frames; and every object is
  as large as the creator of its cache asked for. The descriptor of a frame tells which slab is on it, except for the
  refills of the two reserves, which the code does not label (`SlabLabels.FrameNamesSlab`).
  All of this holds of the page allocator as written, too: it splits blocks, and the kernel
  gives none back.
* *Paging.* The recursive addresses are the table entries; mapping a range changes exactly
  those translations, and every cached translation stays right.
* *Numbers.* What is printed reads back to the number, for every number and base; "0b" and
  "0x" begin exactly the texts in base 2 and 16 (`NumberText.TextReadsBack`, `PrefixTellsBase`).

## Where the program text is wrong

The buddy code is modelled twice, `AsWritten` to the letter and `Repaired` (`FreeBlocks.Text`).
Two corrections separate them:

* `find_buddy` masks the order bit with `&` where the merge loop needs it flipped with `^`
  (`src/include/kernel/mm/physical_pages.h:55-56`). As written it never names the buddy, and
  freeing is right if and only if there is nothing to merge (`BuddyAsWritten`); what it does
  to the blocks otherwise is `FreeAsWritten.FreeData`, and exactly when it follows a NULL
  link on the way is `NullLinks.FollowsNullIff`.
* A block that is split is pushed on a used list without leaving the one it is on
  (`src/kernel/mm/physical_pages.c:314`). As written the lists survive an allocation if and
  only if it does not split (`SplitAsWritten`). What does survive any split is that the used
  lists lead from blocks in use to blocks in use (`LooseLists.Loose`): whatever was split
  before, an allocation takes the smallest block that fits, fails if and only if there is
  none, and leaves a state that serves the next one (`LooseLists.AllocLoose`); as long as
  nothing was given back there is none if and only if no aligned run of free pages is left
  (`PhysicalRuns.ServedIffRun`, `BuddyRefs.HeldOnlyGrows`). So every run of allocations, references and labels is right
  as written, too. A free keeps it so if and only if it merges nothing and, once its block is off
  the used list, no used list begins with it and no block in use is still linked to it
  (`LooseFrees.LooseAfterFreeIff`).
  Where that guard fails: after a boot of 4MB with a kernel image that ends at page 490, and
  the three pages boot takes for its slabs, six calls hand out a block of four pages that
  somebody still holds (`DoubleAllocation`). `PhysicalRuns.Serve` covers any run, in both
  texts, up to the first such free.

The number formatter breaks the promise of its comment exactly as `NumberText.PromiseKeptIff`
and `NumberText.SignedPromiseKeptIff` say, and writes past its buffer exactly as `OverrunsIff`
and `SignedOverrunsIff` say.

Where comments and code disagree the model follows the code: an exhausted page allocator
fails the assertion at `src/kernel/mm/physical_pages.c:293` and does not return NULL;
`ppages_alloc` accepts 513 to 1023 pages and then fails that assertion; `vregion_cmp` orders
regions descending; `paging_boot_init` maps the first megabyte and the kernel image, not the
first 4MB; `virt_to_phys_addr` keeps bits 12 to 21 of a 4MB entry.

A failed `KASSERT` and `panic` are one kind of outcome, `Halted` (or `None`, or `false`).
Fresh objects are taken to be zeroed, since `vregion_init` leaves `next` as it finds it.

## Model

| member | source | states |
|---|---|---|
| Blocks.LowIsRemainder | src/kernel/mm/physical_pages.c:35-38 | the low bits, read one by one, are the remainder the alignment test takes |
| Blocks.BuddyFacts | src/kernel/mm/physical_pages.c:350-369 | an aligned block and its buddy are 2^order apart, have the same parent, are each other's buddies and fill the parent |
| Blocks.XorNamesBuddy | src/kernel/mm/physical_pages.c:353-363 | flipping the order bit of an aligned block's page number gives the buddy the merge code expects |
| Blocks.AndNamesParent | src/kernel/mm/physical_pages.c:363 | the `&` of the two buddies' page numbers is the head of the merged block |
| Blocks.AndPicksBit | src/include/kernel/mm/physical_pages.h:55-56 | the macro as spelled gives 0 or 2^order, by which half of its parent the block is |
| FreeBlocks.RunLiesInOneBlock | src/kernel/mm/physical_pages.c:291-378 | in canonical form an aligned run of free pages always lies inside one free block |
| FreeBlocks.CanonicalFormIsUnique | src/kernel/mm/physical_pages.c:350-377 | two canonical divisions of the same free pages are equal |
| FreeBlocks.AllocTakes | src/kernel/mm/physical_pages.c:291-328 | allocation takes exactly the pages of the block it returns from the free pages |
| FreeBlocks.AllocKeepsPacked | src/kernel/mm/physical_pages.c:291-328 | what is left does not overlap, and none of it overlaps the block returned |
| FreeBlocks.AllocKeepsCanonical | src/kernel/mm/physical_pages.c:291-328 | allocation leaves no two free buddies |
| FreeBlocks.OneNewBlockPerOrder | src/kernel/mm/physical_pages.c:297-316 | splitting leaves exactly one new free block of each order below the one taken, at the expected page |
| FreeBlocks.OffcutsMakeUp | src/kernel/mm/physical_pages.c:301-315 | the block returned and the upper halves make up the block that was taken |
| FreeBlocks.AllocFailsIffNoRun | src/kernel/mm/physical_pages.c:291-299 | a large enough free block exists if and only if an aligned run of 2^order free pages does |
| FreeBlocks.CoalesceKeeps | src/kernel/mm/physical_pages.c:350-377 | freeing adds exactly the block's pages, without overlap, and restores canonical form |
| FreeBlocks.AddedWithoutMerge | src/kernel/mm/physical_pages.c:371-377 | without a merge the result is canonical if and only if the buddy is not free or the order is the largest |
| BuddyAsWritten.NeverNamesBuddy | src/include/kernel/mm/physical_pages.h:55-56 | as written find_buddy names page 0 or page 2^order and never the buddy |
| BuddyAsWritten.ConservesIffNoMerge | src/kernel/mm/physical_pages.c:350-377 | as written freeing conserves pages if and only if it does not merge, said of the free blocks that FreeData shows the code to leave |
| BuddyAsWritten.AgreesIffNothingToMerge | src/kernel/mm/physical_pages.c:350-377 | as written freeing leaves the blocks it is meant to if and only if there is nothing to merge, said of the same blocks |
| BuddyAsWritten.NoMergeAboveBootPages | src/kernel/mm/physical_pages.c:261-266 | while page 0 and pages 2^0 to 2^8, which boot reserves, are not given back, nothing ever merges as written |
| FreeAsWritten.FreeData | src/kernel/mm/physical_pages.c:336-378 | in any state, wherever the assertions on entry hold, the code as written ends and leaves exactly these free and held blocks and counts |
| NullLinks.FollowsNullIff | src/kernel/mm/physical_pages.c:347-377 | as written, freeing a block out of whole lists follows a NULL link if and only if the block, or the free block its mask names, is at page 0 or 2^order and these lists have these lengths |
| BuddyRuns.TakeKeeps | src/kernel/mm/physical_pages.c:291-328 | an allocation keeps free and held blocks disjoint and covering the same pages, and canonical form |
| BuddyRuns.GiveKeeps | src/kernel/mm/physical_pages.c:336-378 | a free keeps free and held blocks disjoint and covering the same pages |
| BuddyRuns.RunKeeps | src/kernel/mm/physical_pages.c:291-378 | every run keeps the invariant and every page |
| BuddyRuns.BalancedRunRestores | src/kernel/mm/physical_pages.c:291-378 | a run after which the same pages are held restores the very same free blocks |
| BuddyRuns.RunThenAllocFailsIffNoRun | src/kernel/mm/physical_pages.c:291-378 | after any run an allocation is impossible if and only if no aligned run of free pages is left |
| BuddyRefs.RefRunKeeps | src/kernel/mm/physical_pages.c:89-378 | every run of allocations, references gained and lost, and blocks given back, in either text, keeps free and held blocks disjoint, covering the same pages, and the held ones those with references |
| BuddyRefs.HeldWhileReferenced | src/kernel/mm/physical_pages.c:89-104 | whatever happens in between, a block stays held and counts its references as long as some are left, and is free when they run out |
| BuddyRefs.RefRunRestores | src/kernel/mm/physical_pages.c:89-378 | a run with references after which the same pages are held restores the very same free blocks |
| BuddyRefs.HeldOnlyGrows | src/kernel/mm/physical_pages.c:89-328 | in either text a run that gives nothing back keeps every held block and leaves no two free buddies |
| BuddyRefs.BlocksNeverChange | src/kernel/mm/physical_pages.c:89-378 | as written, as long as nothing splits or merges, the same blocks are free or held throughout |
| Clist.PushAppends | src/include/kernel/list.h:237-251 | clist_push_tail appends, keeps every prev/next pairing and touches no other link |
| Clist.PushPrepends | src/include/kernel/list.h:221-235 | clist_push_head prepends |
| Clist.DeleteRemoves | src/include/kernel/list.h:253-269 | clist_delete_el removes the element, at the head or inside, and touches no other list's links |
| ClistOrder.RotatedIsClist | src/include/kernel/list.h:299-302 | a circular list entered at any element is the rotated sequence |
| ClistOrder.PushedBefore | src/include/kernel/list.h:299-302 | pushing at the head seen from an inner element inserts before it and keeps the list's head |
| ClistOrder.InsertionSorts | src/include/kernel/list.h:284-304 | inserting after the smaller elements keeps a list sorted and adds one element to its multiset |
| ClistOrder.FirstNotBelow | src/include/kernel/list.h:299-301 | the search loop stops at the first element that does not rank below |
| ClistOrder.InsertOrdered | src/include/kernel/list.h:284-304 | clist_insert_ordered on any list: at the front, behind a last element that ranks below, or before the first that does not, by its four branches |
| ClistOrder.PositionIsBelow | src/include/kernel/list.h:284-304 | in a sorted list that is behind exactly the elements that rank below |
| BuddyLists.LinkKeeps | src/include/kernel/list.h:237-251 | pushing a page that is on no list keeps all twenty lists, and each page on its own |
| BuddyLists.UnlinkKeeps | src/include/kernel/list.h:253-269 | deleting a page keeps all twenty lists |
| BuddyAlloc.SourceIsSmallestFit | src/kernel/mm/physical_pages.c:297-320 | the head of the first list that is not empty is a smallest free block that is large enough |
| BuddyAlloc.TakeHeadRefines | src/kernel/mm/physical_pages.c:318-323 | popping a free block moves it from the free to the held blocks and from one list to the other |
| BuddyAlloc.SplitHasEffect | src/kernel/mm/physical_pages.c:303-315 | a split halves a held block, frees the upper half and keeps lists and descriptors in step |
| BuddyAlloc.AllocRefines | src/kernel/mm/physical_pages.c:291-328 | the recursion allocates that block, leaves a valid state, writes no descriptor outside it, and fails exactly when no list will do |
| BuddyFree.TestMeansFree | src/kernel/mm/physical_pages.c:353-358 | the three conditions of the merge loop hold if and only if the buddy is a free block of that order |
| BuddyFree.MergeLoopRefines | src/kernel/mm/physical_pages.c:350-377 | the merge loop computes the coalesced free blocks and leaves a valid state |
| BuddyFree.FreeRefines | src/kernel/mm/physical_pages.c:336-378 | freeing moves the block from the held to the free blocks, coalesced, and leaves a valid state |
| BuddyFree.FreeIsSafe | src/kernel/mm/physical_pages.c:347-377 | once repaired, freeing never follows a NULL link |
| BuddyFree.AllocIsStep | src/kernel/mm/physical_pages.c:291-328 | the allocation code takes a step of BuddyRuns |
| BuddyFree.FreeIsStep | src/kernel/mm/physical_pages.c:336-378 | the freeing code takes a step of BuddyRuns |
| BuddyFree.AllocThenFreeRestores | src/kernel/mm/physical_pages.c:291-378 | a block allocated and given back leaves exactly the free and held blocks there were |
| SplitAsWritten.AllocAsWritten | src/kernel/mm/physical_pages.c:291-328 | out of whole lists, as written allocation returns the same block and the same descriptors but for links as repaired, and spoils only the used lists of the orders it split; LooseLists.AllocLoose covers the states that leaves |
| SplitAsWritten.ListsSurviveIffNoSplit | src/kernel/mm/physical_pages.c:299-315 | as written some division of the links into lists survives an allocation if and only if it did not split |
| LooseLists.ValidIsLoose | src/kernel/mm/physical_pages.c:299-323 | where all twenty lists are whole, the used ones lead from blocks in use to blocks in use |
| LooseLists.AllocLoose | src/kernel/mm/physical_pages.c:291-328 | as written, whether it splits or not and whatever was split before, an allocation fails exactly when no list will do, otherwise takes exactly the smallest block that fits, writes no descriptor outside it but for links, and leaves a state of the same kind |
| LooseFrees.LooseAfterFreeIff | src/kernel/mm/physical_pages.c:336-378 | as written, a free leaves a state of that kind, for some lists, if and only if it merges nothing and lets its block go: off its list, no used list begins with it and no block in use is linked to it |
| LooseFrees.MergeUntiles | src/kernel/mm/physical_pages.c:350-377 | after a free that merges as written the blocks do not tile memory any more |
| LooseFrees.FollowsIffListEmpty | src/kernel/mm/physical_pages.c:347-377 | out of lists a split may have spoiled, a free that merges nothing follows a NULL link if and only if the used list of its order is empty |
| LooseFrees.ValidLetsGo | src/kernel/mm/physical_pages.c:347-348 | out of whole lists every block is let go, and no NULL link is followed |
| SoundLists.AllocSound | src/kernel/mm/physical_pages.c:291-328 | in either text an allocation fails exactly when no list will do, takes the smallest block that fits, and keeps the lists as good as the text keeps them |
| SoundLists.NextIsSafe | src/kernel/mm/physical_pages.c:299-315 | in either text the split of the block the nested call returns follows no NULL link |
| DoubleAllocation.SameBlockTwice | src/kernel/mm/physical_pages.c:291-378 | as written, after that boot and the first three slabs, the last of six calls returns a block of four pages that is still held |
| DoubleAllocation.NotCoalesced | src/kernel/mm/physical_pages.c:350-377 | in that run a free leaves two free buddies |
| DoubleAllocation.StillNamed | src/kernel/mm/physical_pages.c:336-348 | that free did not let its block go |
| DoubleAllocation.BootIntoStart | src/kernel/mm/physical_pages.c:236-270 | boot of 4MB with an image that ends at page 490, and six pages for the descriptors behind it, reaches the start of that run |
| PageRanges.GreedyTiles | src/kernel/mm/physical_pages.c:154-203 | the greedy division covers the range exactly with aligned blocks of legal orders |
| PageRanges.GreedyHolds | src/kernel/mm/physical_pages.c:154-203 | some block of the division holds a page if and only if the range does |
| PageRanges.FewestBlocks | src/kernel/mm/physical_pages.c:154-203 | no division of the range into aligned blocks has fewer blocks |
| PageRanges.GreedyIsCanonical | src/kernel/mm/physical_pages.c:154-203 | the greedy division of a range contains no two buddies |
| PageRanges.CanonicalApart | src/kernel/mm/physical_pages.c:262-270 | the free ranges boot sets up are canonical together |
| PageRanges.RangeKeeps | src/kernel/mm/physical_pages.c:142-204 | setting up a range adds exactly its greedy blocks and keeps descriptors and lists in step |
| PhysicalPages.PageAllocator.SplitBlock | src/kernel/mm/physical_pages.c:303-315 | the field writes of a split do what the split on values does |
| PhysicalPages.PageAllocator.BlockAlloc | src/kernel/mm/physical_pages.c:291-328 | in either text, split or not: the page returned is the head of the first free list from that order on that is not empty, and it fails, changing nothing, exactly when these are all empty; it reaches the state of the recursion on values, takes the smallest block that fits, and leaves the allocator as sound as its text keeps it |
| PhysicalPages.PageAllocator.MergeAndPush | src/kernel/mm/physical_pages.c:350-377 | the while loop reaches the state of the merge loop on values, in either text, unless that follows a NULL link |
| PhysicalPages.PageAllocator.BlockFree | src/kernel/mm/physical_pages.c:336-378 | succeeds exactly for the head of a block of that order with one reference, no mapping and no slab, and changes nothing otherwise; coalesces as its text does, and leaves a sound state if and only if it is repaired, or merges nothing and lets its block go; whole lists stay whole unless the text as written merged |
| PhysicalPages.PageAllocator.Ref | src/kernel/mm/physical_pages.c:89-93 | changes nothing but the count, which goes up by one in 32 bits, and keeps the allocator sound when the page heads no free block and the count does not wrap |
| PhysicalPages.PageAllocator.Unref | src/kernel/mm/physical_pages.c:95-104 | counts down, frees at the last reference with all that BlockFree says, halts on a free page, and on a last reference to a page with a slab or a mapping, and then changes nothing |
| PhysicalPages.RefKeepsIff | src/kernel/mm/physical_pages.c:89-93 | taking a reference keeps the lists right if and only if the block was held and the counter does not wrap |
| PhysicalPages.LastUnrefFrees | src/kernel/mm/physical_pages.c:95-104 | any number of unrefs in a row, up to the count, frees the block if and only if it was all of them |
| PhysicalPages.OrderHolds | src/kernel/mm/physical_pages.c:404-411 | there is an order for n pages if and only if n is at most 512; it is the smallest of a block that holds them, of fewer than 2n pages |
| PhysicalPages.TakenFrames | src/kernel/mm/physical_pages.c:400-414 | the frames returned were not in use before, are now, and all that were still are |
| PhysicalPages.NoFitIffNoRun | src/kernel/mm/physical_pages.c:291-299 | in either text the lists have no block for a request if and only if no aligned run of so many free pages is left |
| PhysicalPages.PageAllocator.PagesAlloc | src/kernel/mm/physical_pages.c:400-414 | in either text fails exactly above 512 pages or when no block is large enough; otherwise returns n new frames inside memory, of the smallest block that fits |
| PhysicalPages.PageAllocator.SetSlab | src/kernel/mm/physical_pages.c:416-429 | labels exactly the pages of the range, and halts exactly when an assertion fails, that the slab has a region of that size among them |
| PhysicalPages.PageAllocator.BiggestOrderAt | src/kernel/mm/physical_pages.c:156-162 | the inner loop finds the largest order that is aligned and fits |
| PhysicalPages.PageAllocator.RangeSetStatus | src/kernel/mm/physical_pages.c:142-204 | the nested loops set up exactly the greedy blocks; an unknown status halts |
| PhysicalPages.PageAllocator.BootInit | src/kernel/mm/physical_pages.c:261-270 | boot leaves a valid allocator in which exactly the pages between the first megabyte and the image and those behind what boot handed out are free, and the others in use; free and held blocks are exactly these, the free ones canonical, and no page labelled, mapped or held twice |
| PhysicalRuns.ServeOne | src/kernel/mm/physical_pages.c:89-429 | each of six calls, in either text, takes its step on blocks and references, exactly when it can be served, and changes nothing otherwise; as written only a free that merges, or does not let its block go, is not served beside what halts the kernel |
| PhysicalRuns.ServedIffRun | src/kernel/mm/physical_pages.c:291-299 | in either text, as long as there are no two free buddies, an allocation is served if and only if there is an aligned run of so many free pages |
| PhysicalRuns.Serve | src/kernel/mm/physical_pages.c:89-429 | any of the six calls in any order, split or not, up to the first that cannot be served: every call took its step, blocks tile memory, a block is held exactly while references are left, a run that gives nothing back stays canonical, a block that is refused is not to be had, and once repaired the free blocks are always canonical and restored when the same pages are held again |
| SimpleLists.Memory.PushHead | src/include/kernel/list.h:28-31 | list_push_head writes this link, and prepends an element that is not on the list |
| SimpleLists.Memory.PopHead | src/include/kernel/list.h:33-49 | list_pop_head drops the first element and writes nothing but its link |
| SimpleLists.Memory.Length | src/include/kernel/list.h:98-107 | list_length counts the elements |
| SimpleLists.Memory.DeleteEl | src/include/kernel/list.h:51-62 | list_delete_el removes the element after prev, or the first |
| SimpleLists.Memory.InsertAfter | src/include/kernel/list.h:64-74 | list_insert_after inserts behind prev, or at the front |
| VirtualRegions.InsertOrdered | src/include/kernel/list.h:76-96 | the loop inserts where the specified search stops, and fails where a comparison fails or the list ends |
| VirtualRegions.FirstFit | src/kernel/mm/virtual_pages.c:229-236 | the loop finds the first region with enough pages |
| VirtualRegions.InsertStops | src/kernel/mm/virtual_pages.c:27-38 | on the used list no comparison fails and the loop stops at the first boot region at the latest |
| VirtualRegions.InsertKeepsDescending | src/kernel/mm/virtual_pages.c:252 | the used regions stay strictly descending |
| VirtualRegions.TrimKeeps | src/kernel/mm/virtual_pages.c:241-250 | the free regions stay ascending, none of them empty, and apart from the region cut off |
| VirtualRegions.AllocKeepsRegions | src/kernel/mm/virtual_pages.c:222-256 | cutting a region out never fails, keeps both lists in order and disjoint, and keeps the union of their pages |
| RegionLists.Regions.Find | src/kernel/mm/virtual_pages.c:224-236 | the pointer loop finds the first fitting region and its predecessor |
| RegionLists.Regions.CutOut | src/kernel/mm/virtual_pages.c:241-250 | deleting, splitting and reinserting on the linked list trims the region in place and leaves the used list alone |
| RegionLists.Regions.InsertUsed | src/include/kernel/list.h:76-96 | the macro on the linked list inserts where the insertion on sequences does, and fails where it does |
| RegionLists.Regions.Take | src/kernel/mm/virtual_pages.c:222-256 | _vregion_alloc on linked lists does what it does on sequences, in every outcome |
| SlabCaches.ObjsCache.constructor | src/kernel/mm/slab.c:372-418 | a new cache is empty; its slots are as large as the objects asked for, or a pointer if that is larger, and a slab has as many as fit and no fewer |
| SlabCaches.CapacityIs | src/kernel/mm/slab.c:397 | a slab has room for k slots if and only if k times the slot size is at most its size in bytes |
| SlabCaches.EmptyIsMade | src/kernel/mm/slab.c:388-401 | the same of the cache as a value, for any sizes |
| SlabCaches.ObjsCache.AddSlab | src/kernel/mm/slab.c:233-262 | counters and lists, written out, after a slab of each status is added at the head of its list; fails exactly on a free slab that is not full of free objects |
| SlabCaches.ObjsCache.Retrieve | src/kernel/mm/slab.c:512-585 | the object is the first free slot of the first partial slab, and the free slabs stay as they are, or, where no slab is partial, of the first free one; afterwards that slab heads the partial list, or the full one if that was its last; NULL exactly where both lists are empty |
| SlabCaches.RetrievedIsFirst | src/kernel/mm/slab.c:519-543 | on values too, retrieval takes the first free slot of the first partial slab, else of the first free one |
| SlabCaches.RetrieveKeeps | src/kernel/mm/slab.c:512-585 | on a consistent cache retrieval fails if and only if no object is free, and keeps every counter equal to its sum and every slab on its list |
| SlabCaches.HandedOutMoves | src/kernel/mm/slab.c:512-585 | exactly one object changes from free to used |
| SlabCaches.AddKeeps | src/kernel/mm/slab.c:233-262 | adding a slab keeps the cache consistent and adds its free objects |
| SlabCaches.SlotInside | src/kernel/mm/slab.c:87-103 | every slot lies inside its slab's region |
| SlabCaches.SlotsApart | src/kernel/mm/slab.c:87-103 | different slots of a slab share no byte |
| SlabThreads.ThreadedSlab.Thread | src/kernel/mm/slab.c:87-105 | the loop links exactly the unused slots, in order, and writes nowhere else |
| SlabThreads.ThreadedSlab.Initialize | src/kernel/mm/slab.c:72-115 | fails exactly for page 0 or when every slot is in use already, returns NULL exactly when the region is too small for one object, and otherwise threads the unused ones of all slots that fit, at their addresses, in order |
| SlabThreads.ThreadedSlab.AllocObj | src/kernel/mm/slab.c:176-197 | pops the first free slot, or returns NULL when none is left |
| SlabThreads.ThreadedSlab.FreeObj | src/kernel/mm/slab.c:207-224 | takes any address back exactly when its page is the slab's, makes it the first free object, and pushes its slot when it has one that is not free; NULL halts |
| SlabThreads.PopThenPush | src/kernel/mm/slab.c:176-224 | giving back the object handed out last restores the slab's list and count |
| SlabThreads.PushKeepsIff | src/kernel/mm/slab.c:207-224 | what is taken back leaves a good slab if and only if it was an object in use |
| SlabThreads.SlotIsInSlab | src/kernel/mm/slab.c:32-38 | the membership test holds for every object of the slab |
| KernelState.HandOutKeeps | src/kernel/mm/slab.c:512-585 | handing out an object keeps caches, regions and mappings consistent |
| KernelState.TakeRegionKeeps | src/kernel/mm/virtual_pages.c:222-256 | taking a region keeps them consistent |
| KernelState.MapKeeps | src/kernel/mm/slab.c:136-141 | mapping a fresh region to fresh frames keeps every page on a frame of its own that is in use |
| KernelState.AddSlabKeeps | src/kernel/mm/slab.c:482-487 | a slab in a region of its own may join a cache |
| KernelState.ObjectsNeverOverlap | src/kernel/mm/slab.c:463-585 | any two objects of any caches are the same or share no byte |
| KernelState.SlabFramesDistinct | src/kernel/mm/slab.c:132-148 | every page of every slab has a frame of its own, which the page allocator counts as in use |
| SlabLabels.LabelsStay | src/kernel/mm/slab.c:463-645 | whatever else the kernel does, every recorded region keeps its Slab object, in use and in the descriptors of its frames |
| SlabLabels.LabelGrows | src/kernel/mm/slab.c:134-148 | mapping a region to new frames and labelling these gives it a Slab object of its own and changes no other label |
| SlabLabels.FrameNamesSlab | src/kernel/mm/slab.c:126-148 | of all slabs but the refills of the two reserves, which nothing labels, two pages are of the same slab if and only if their frames carry the same label |
| KernelMemory.TakePages | src/kernel/mm/physical_pages.c:400-414 | in either text gives frames that were not in use, takes no other free page and changes no label, or there is no aligned run of free pages |
| KernelMemory.Kernel.RetrieveObj | src/kernel/mm/slab.c:512-585 | hands out the first free slot of the first partial slab of the cache, else of the first free one, and changes nothing else; or finds none free |
| KernelMemory.Kernel.VregionTake | src/kernel/mm/virtual_pages.c:222-256 | returns the first fit trimmed to size, unused before, at the cost of one Vregion object exactly when it was larger; NULL exactly when nothing fits |
| KernelMemory.Kernel.AddFreeSlab | src/kernel/mm/slab.c:143-487 | the cache gets exactly that slab, at the head of its free slabs, all of it free, and nothing that was not handed out is |
| KernelMemory.Kernel.MapPages | src/arch/x86/paging.c:332-346 | the page tables show exactly the range mapped besides what was, the hardware translates all other pages as before, and it halts exactly for page 0 or a missing page table |
| KernelMemory.Kernel.GrowFromReserve | src/kernel/mm/slab.c:592-611 | one slab for a reserve cache costs one Slab object and at most one Vregion object, and never trips over an empty reserve |
| KernelMemory.VregionsWereRefilled | src/kernel/mm/slab.c:590-615 | the reserves after a refill of the Vregion cache, with the nested refill if there was one |
| KernelMemory.SlabsWereRefilled | src/kernel/mm/slab.c:620-645 | the reserves after a refill of the Slab cache, with the nested refill if there was one |
| KernelMemory.Kernel.CreateSlabForVregion | src/kernel/mm/slab.c:590-615 | with two Slab and one Vregion object no assertion fails; the refills bounce at most once |
| KernelMemory.Kernel.CreateSlabForSlab | src/kernel/mm/slab.c:620-645 | with one Slab and two Vregion objects no assertion fails; the refills bounce at most once |
| KernelMemory.SecondRefill | src/kernel/mm/slab.c:467-478 | after both refills there are two Slab and three Vregion objects, and only two Slab objects exactly from three and two |
| KernelMemory.Kernel.VregionAlloc | src/kernel/mm/virtual_pages.c:206-220 | keeps both reserves, and returns a region nothing used before; halts only when memory is exhausted |
| KernelMemory.Kernel.CreateSlab | src/kernel/mm/slab.c:126-167 | the nested allocations keep both reserves and yield a Slab object nobody had, which labels no other slab, and a backed region whose frames are labelled with it; halts only when memory is exhausted |
| KernelMemory.Kernel.Replenish | src/kernel/mm/slab.c:480-488 | afterwards the cache has a free object, and the nested call of objs_cache_alloc never comes back here |
| KernelMemory.Kernel.ObjsCacheAlloc | src/kernel/mm/slab.c:463-496 | hands out an object nobody had, and of a client's cache no other; no reserve assertion fires; both reserves are kept except, exactly, for a Slab object out of three with two Vregion objects; halts only when memory is exhausted |
| KernelMemory.ClientAllocated | src/kernel/mm/slab.c:463-496 | for every cache but cache_Slab both reserves are kept |
| KernelMemory.Kernel.CacheCreate | src/kernel/mm/slab.c:432-459 | NULL exactly when a slab cannot hold an object of that size; otherwise the new cache is empty, its slots are as large as asked, or as a pointer, with all of them that fit in a slab, and everything handed out stays so |
| KernelMemory.InUseStays | src/kernel/mm/virtual_pages.c:206-256 | no page in use ever stops being in use |
| KernelBoot.CheckOrder | src/kernel/mm/virtual_pages.c:165-185 | the loop accepts exactly the lists whose regions ascend without overlap |
| KernelBoot.BootFrames | src/kernel/mm/slab.c:294-297 | the three boot slabs get three different frames in use, not over the page tables, and all other free pages stay free; halts only when there are not three free pages |
| KernelBoot.MapThree | src/kernel/mm/slab.c:299-311 | the page tables show the three boot pages mapped to their frames, and all other translations stay |
| KernelBoot.LabelThree | src/kernel/mm/slab.c:334-336 | the three frames are labelled with the three slabs |
| KernelBoot.BootSysOk | src/kernel/mm/slab.c:289-351 | the first three slabs, which describe one another, form a consistent state |
| KernelBoot.BootLabelsOk | src/kernel/mm/slab.c:329-336 | the labels of the first three slabs are right, and of objects of their own |
| KernelBoot.Boot | src/kernel/mm/slab.c:269-357 | boot ends with three caches of one slab each, in the first three pages, with as many objects as a page holds and three, three and four of them in use, both reserves kept, one free region, and three free frames fewer; its reserve assertions fail exactly when a page holds fewer than six of the objects |
| KernelBoot.PowerOn | src/kernel/main.c:50-67 | in either text of the page allocator: the first slabs are the three pages behind the image and the page descriptors, and the free region what follows in their 4MB; every page of the first megabyte, the image and the descriptors is in use, never under a slab, and still translated to its own frame; all other frames but those three are free, and nothing else is mapped there; both reserves are kept; halts exactly for an image and descriptors that leave fewer than three pages, or too few objects in a page |
| KernelBoot.MapDescriptors | src/kernel/mm/physical_pages.c:241-259 | the pages of the descriptors are mapped to their own frames, as what lies before stays, and nothing behind is mapped |
| KernelBoot.SetUpAllocator | src/kernel/mm/physical_pages.c:261-270 | exactly the pages behind the image and the descriptors are free |
| KernelBoot.ImageShown | src/arch/x86/paging.c:381-392 | what paging_boot_init maps of the first megabyte and the image are all their pages, without a gap |
| KernelRuns.NewObjectApart | src/kernel/mm/slab.c:463-496 | an object handed out overlaps none handed out before, whatever their caches |
| KernelRuns.OneMoreRegion | src/kernel/mm/virtual_pages.c:206-256 | a region handed out shares no page with one handed out before |
| KernelRuns.SlabsStayApart | src/kernel/mm/slab.c:463-496 | no slab added later has a page in a region handed out before |
| KernelRuns.OneMoreApart | src/kernel/mm/virtual_pages.c:206-256 | no slab there is has a page in a region handed out now |
| KernelRuns.HandIsBacked | src/kernel/mm/slab.c:132-148 | every byte of every object in hand has a physical address, outside the page tables, and no two objects share one |
| KernelRuns.AllBehind | src/kernel/mm/slab.c:290-292 | where boot handed out the pages behind its own, no byte of an object and no page of a region lies before these |
| KernelRuns.HandFits | src/kernel/mm/slab.c:393 | every object in hand is as large as was asked for its cache |
| KernelRuns.OneMoreFits | src/kernel/mm/slab.c:432-459 | a request answered keeps every cache made for the sizes asked, and adds the one it creates |
| KernelRuns.ServeAlloc | src/kernel/mm/slab.c:463-496 | one object more is in hand, from the cache asked, and overlaps none before; or the kernel halts for lack of memory |
| KernelRuns.ServeRegion | src/kernel/mm/virtual_pages.c:206-220 | one region more, of the size asked and sharing no page with those before; or none fits; or the kernel halts for lack of memory |
| KernelRuns.ServeOne | src/kernel/mm/slab.c:432-496 | every request is answered as asked and keeps the run's invariant, or halts for lack of memory |
| KernelRuns.Serve | src/kernel/mm/slab.c:432-496 | in either text of the page allocator, over any run the objects handed out come from the caches asked, in order, and are as large as the creator of their cache asked for; both reserves hold before every request; objects share no byte with one another, virtual or physical, with a region or with the page tables, regions no page; all of them lie behind the first megabyte, the image and the page descriptors, which stay translated to their own frames; labels are right; and only exhausted memory halts (or a cache of objects of size 0, or a need of more than 512 pages) |
| Paging.WalkByPage | src/arch/x86/paging.c:177-212 | the walk translates all addresses of a page alike |
| Paging.WindowIsEntry | src/arch/x86/paging.c:105-168 | through the recursive slot the computed addresses resolve to the directory and table entries themselves |
| Paging.PteWriteIsLocal | src/arch/x86/paging.c:142-152 | writing a table entry changes no directory entry and no other table entry |
| Paging.PteWriteRemaps | src/arch/x86/paging.c:281-325 | one translation changes, no other does, the window included |
| Paging.CoherentButOne | src/arch/x86/paging.c:321-324 | after the entry is written every cached translation but that page's is still right |
| Paging.Machine.GetPde | src/arch/x86/paging.c:120-126 | reads the directory entry |
| Paging.Machine.SetPde | src/arch/x86/paging.c:105-112 | writes exactly the directory entry |
| Paging.Machine.GetPte | src/arch/x86/paging.c:161-168 | reads the table entry |
| Paging.Machine.SetPte | src/arch/x86/paging.c:142-152 | writes exactly the table entry |
| Paging.Machine.VirtToPhys | src/arch/x86/paging.c:177-212 | equals the hardware walk, 0 for not mapped, if and only if the entry is not a 4MB page with one of bits 12 to 21 set, or one of 13 to 21 is and the sum wraps to 0 |
| Paging.Machine.MapPage | src/arch/x86/paging.c:281-330 | writes that table entry, with frame and flags, and no other; remaps one page and keeps the cache coherent; halts exactly for page 0, a 4MB request or a missing table |
| Paging.Machine.MapPages | src/arch/x86/paging.c:332-346 | page vpn+i goes to frame ppn+i for all i, with the flags asked in its entry, no other translation changes, and every cached one agrees with the walk |
| Paging.Machine.BootInit | src/arch/x86/paging.c:355-409 | after boot the walk gives, from 0xC0000000 on, every byte of the first megabyte and of the image its own address, every page of that slot that holds none of these nothing, the recursive window the two tables, and all other addresses nothing |
| PageTables.MapPagesAgree | src/arch/x86/paging.c:294-318 | the kernel's record of page tables decides success as the hardware's directory does |
| PageTables.MapShows | src/arch/x86/paging.c:332-346 | mapping a region makes the hardware show what the allocators recorded |
| PageTables.MapInto | src/arch/x86/paging.c:332-346 | map_pages keeps page tables and record in agreement, writes the entries with the global, writable and present bits, and changes no other translation |
| PageTables.OwnStays | src/arch/x86/paging.c:332-346 | mapping behind the pages boot keeps leaves these translated to their own frames |
| PageTables.StillUntouched | src/kernel/mm/slab.c:134-141 | frames that were not in use are not those of the page tables |
| KernelPaging.ByteIsBacked | src/kernel/mm/slab.c:132-148 | every byte of every object is translated to a frame in use |
| KernelPaging.NoPhysicalSharing | src/kernel/mm/slab.c:132-148 | no two objects share a byte of physical memory |
| NumberText.DigitTable | src/libc/stdarg.c:191 | the digit of d is entry d of the code's table |
| NumberText.RoundTrip | src/libc/stdarg.c:190-218 | the digits read back to the number, for every base from 2 to 36 |
| NumberText.NoLeadingZero | src/libc/stdarg.c:190-218 | the first digit is 0 only for the number 0, which has one digit |
| NumberText.TextsDiffer | src/libc/stdarg.c:140-225 | different numbers have different texts |
| NumberText.TextIs | src/libc/stdarg.c:157-225 | the text is "0b" and digits in base 2, "0x" and digits in base 16, and the digits alone in any other |
| NumberText.PrefixTellsBase | src/libc/stdarg.c:157-188 | it begins with "0b" exactly in base 2 and with "0x" exactly in base 16 |
| NumberText.TextReadsBack | src/libc/stdarg.c:140-225 | a reader that tells the base from a literal "0b" or "0x", and takes the given one otherwise, gets the number back |
| NumberText.WriteDigits | src/libc/stdarg.c:194-199 | the do-while loop writes all digits, or stops with the room and a number left |
| NumberText.ReverseInPlace | src/libc/stdarg.c:210-215 | the swapping loop reverses the digits and touches nothing else |
| NumberText.UToNstr | src/libc/stdarg.c:140-225 | returns the length of the text and leaves it with a NUL behind it, or an empty string, and writes nowhere else; the text that is left begins with the prefix of its base, and a reader of such prefixes gets the number back |
| NumberText.IToNstr | src/libc/stdarg.c:101-128 | the same with a sign, with n - 1 wrapping for n of 0; a negative number that does not fit leaves the first character as it was |
| NumberText.SignedRoundTrip | src/libc/stdarg.c:101-128 | a sign, a literal prefix and digits read back to the number |
| NumberText.OverrunsIff | src/libc/stdarg.c:194-206 | more than n characters are written if and only if the text has exactly n |
| NumberText.PromiseKeptIff | src/libc/stdarg.c:131-139 | the length returned is the one the comment promises if and only if the text does not have exactly n characters |
| NumberText.SignedOverrunsIff | src/libc/stdarg.c:101-128 | writing ends past the n characters if and only if the signed text has exactly n and its prefix finds room, or the number is negative and n is 0 |
| NumberText.SignedPromiseKeptIff | src/libc/stdarg.c:93-128 | what i_to_nstr leaves is what its comment promises if and only if the text does not have n characters, n is not 0 for a negative number, and one that does not fit finds an empty string |
| NumberText.OverrunExample | src/libc/stdarg.c:194-206 | 42 in base ten with n of 2 writes three characters |

## Left out

- PhysicalPages.PageAllocator.BlockFree: as written it is not covered where it follows a NULL link, which C leaves undefined; NullLinks.FollowsNullIff says exactly when that is out of whole lists, and LooseFrees.FollowsIffListEmpty out of any others, unless it merges.
- PhysicalRuns.Serve: as written a run ends at the first free that would merge, follow a NULL link or leave its block linked from one in use (LooseFrees.LooseAfterFreeIff), and in either text at a reference taken on a free block or past the largest count, after which the lists no longer tell free from held. DoubleAllocation is one run beyond such a free; what all of them do is not modelled.
- SplitAsWritten.AllocAsWritten: compares the two texts on whole lists, which only the repaired one keeps.
- KernelMemory.Kernel.ObjsCacheAlloc: caches are values in this class, so it does not capture aliasing between Objs_cache structures; SlabCaches.ObjsCache has the same operations in place.
- KernelMemory.Kernel.VregionTake: regions are values in sequences here; RegionLists has the same operation on linked structures. RegionLists.Regions, SlabThreads.ThreadedSlab and SlabCaches.ObjsCache are not fields of the kernel: the linked structures and the joint state are two separate models of the same operations.
- KernelBoot.Boot: boot memory is taken to hold at least the three virtual pages of the first slabs, and each page at least four objects of the three kinds (i386 gives 40, 204 and 341). KernelBoot.PowerOn takes the image to end at the end of a page, which src/atros.lds:81 aligns it to (otherwise src/kernel/mm/physical_pages.c:266-268 would set up its last page twice), and below 2MB, which src/atros.lds:102 asserts.
- KernelRuns.Serve: requests for cache_Slab are not among a client's; that cache is static to slab.c and only create_slab asks for it.
- SlabThreads.ThreadedSlab.Initialize: more objects in use than there are slots, where the 32-bit count would wrap, is not a caller's case.
- SlabThreads.ThreadedSlab.FreeObj: the links that taking back a free or a false object leaves are stated as written, not as a list; PushKeepsIff says when that is harmful.
- Paging.Machine.MapPage: flags without address bits, and pages below the recursive window; permissions, caching bits and accessed and dirty bits do not affect translation and are not modelled. 4MB pages are taken to be enabled, and writes of clients to their own objects are not modelled: they do not reach the page tables (KernelRuns.HandIsBacked).
- NumberText.IToNstr: the negation of the smallest 32-bit number, which C leaves undefined, is taken to wrap; then its text is right.
- Products of page counts and the page size are unbounded numbers; the 32-bit overflow of absurd cache sizes is not modelled.
- The lists of slabs in a cache are sequences; dlist_push_head and dlist_delete_head act on them at the head only.
- Names of caches, the wasted-memory count, constructors and destructors of objects, which nothing reads.
- The boot allocators of physical and virtual pages, which count upwards; their results are parameters of BootInit and Boot.
- objs_cache_free, a stub that panics, and vregion_merge, which depends on it; vpage_unmap, whose body is commented out.
- vsnprintf, whose index into the output is not bounded by n.
- kprintf and the DEBUG functions, segment and interrupt set-up, the boot code, multiboot parsing.
- clist_search_el and dlist_pop_head, unused macros that do not expand to valid code.

# A verified model of the zcg allocator stack

zcg is a CUDA memory allocator built on the driver's virtual memory management calls. This project
models its four layers in Dafny and proves what they promise together:

- **PhysicalMemoryManager** creates physical blocks, caches them by size class and releases them
  (`Pools.dfy`, `PhysicalMemory.dfy`).
- **SmallAllocator** hands out ranges of one reservation: best fit, splitting, coalescing, a bump
  pointer, and 2 MB pages that are backed on demand (`Tiling.dfy`, `Ranges.dfy`, `PageCount.dfy`,
  `SmallPages.dfy`, `FreePages.dfy`, `Room.dfy`, `SmallAllocator.dfy`, `Abandoned.dfy`).
- **LargeAllocator** gives each allocation its own reservation, packed with blocks of the size
  classes, and unwinds when a step fails (`Layout.dfy`, `Supply.dfy`, `LargeBlocks.dfy`,
  `LargeAllocator.dfy`).
- **VMMAllocator** routes requests, defers frees until the GPU has caught up, isolates graph pools,
  recovers from out-of-memory and counts (`Ledger.dfy`, `Reclaim.dfy`, `PerDevice.dfy`,
  `VmmAllocator.dfy` for one thread; `PeakStats.dfy` and `Protocol*.dfy` for many).

Below them is a model of the driver (`CudaDriver.dfy`) that records reservations, mappings, live
handles and access rights. Its preconditions are strict: map only a live, unmapped handle onto
reserved, unmapped space; unmap only what was mapped; release a handle or a reservation only when
nothing is mapped on it. Verification of the classes shows that every driver call meets them.
`memCreate` may fail at any call, when the capacity is used up or, for a driver that `refuses`, at
will. For the large path a driver with `faults` may also fail to reserve, to map and to set access
while an allocation is made.

## How the proofs are organised

Each class keeps the fields of the original. A ghost view of the fields is related to the driver's
state by an invariant.

Invariants are sealed. The parts of an invariant are a plain predicate, such as
`LargeBlocks.RecordsOk(r, allocs)`; the invariant itself is a function to `Sound` or `Broken` that
says "the parts hold for whoever opens the seal", and is read as one word:
`Records(r, allocs).Sound?` means `RecordsOk(r, allocs)`. A lemma that needs the parts says
`assert OpenRecords(Seal)`, after which they are known; every other proof passes the invariant on
whole. Since `OpenRecords` is true, nothing is assumed; the only effect is that the solver does not
unfold an invariant where its parts are of no use. Each invariant has its own such predicate.

- `Pools.Place` says of every live handle where it sits: in the small free list, in use by a page, in
  the bucket of its class, in use by a large allocation, or on the way to release.
- `Tiling.Tiles` says what each range below the high-water mark is: allocated, free, or abandoned. A
  range is abandoned when a page behind it cannot be backed: the code has already taken it off the
  free list, or bumped past it, when `ensurePagesMapped` throws.
- `Parts.SmallPart` and `Parts.RestPart` split the driver's state into what the small allocator owns
  and the rest. Each sub-allocator proves that it leaves the other's part as it was.
- `PerDeviceState.Remains(live)` is what stays when everything but the allocations at the addresses in
  `live` is freed and reclaimed: their reservations on the large side, and on the small side the
  ranges that stay and the mapped pages that are not wholly below the high-water mark or are touched
  by one of those ranges. `Unreclaimable(live)` is its size in bytes. `Standing(live)` is what is left
  when the others are freed and nothing is reclaimed.
- `VMMAllocator.AllocImpl` returns two ghost results beside the pointer: how many attempts were made,
  and a `Trail` that says what stayed before the second attempt and before the third, and how much room
  and how many bytes the purge between the first two gave. `Course` says which attempt serves a request
  and why the earlier ones could not. `SmallFits`, `SmallFitsBeside`, `LargeFits` and
  `LargeFitsBeside` say when a request fits: as things are, or beside what stays once everything else
  is reclaimed.
- `Supply.Shortfall(list, buckets)` is the number of bytes of a packing that the cached blocks cannot
  supply: what the driver has to add.
- `Protocol.State` is the shared state of all threads. `Protocol.Action` lists the atomic steps: the
  critical sections of `meta_mu_`, the calls into the sub-allocators (a fresh pointer is added, a
  known pointer is removed, as proved for the classes), the event pool, event recording and
  completion, and the work of the GPU. `Consistent` is kept by every step, so it holds in every run.
- `ProtocolHistory` traces each entry on its way back to a sub-allocator to the step of the run that
  took it off `meta_`, and compares the work that had been enqueued then with what has completed.
- `ProtocolCalls` ties the two models of `VMMAllocator` together: the effect of a call on the records
  is one predicate of `Ledger` (`AllocEffect`, `FreeEffect`, `ReleaseEffect`) that the class meets and
  that every call meets in the protocol when no other thread takes a step in between.

## Where the code and its comments differ

- `include/physical_memory.h:55` says that the purge count counts invocations. The code counts only
  those that released something (`csrc/physical_memory.cc:141-145`); so does the model.
- `include/vmm_allocator.h:126` says one event per recorded stream. The code also records one on the
  allocation stream unless it is among them (`csrc/vmm_allocator.cc:318-333`); so does the model.
- Greedy packing is not always of the fewest blocks: a 17 MB request gets two 16 MB blocks where one
  of 32 MB has the same total (`Layout.NotAlwaysMinimal`). `Layout.GreedyMinimal` says exactly when it
  is: for multiples of 16 MB, and for requests whose whole number of 16 MB units is even.

## Model

| member | source | states |
|---|---|---|
| `Common.RoundUp` | include/common.h:13-15 | The result is the least multiple of the alignment that is not below the argument. |
| `Common.RoundUpWordExact` | include/common.h:13-15 | With wrapping arithmetic roundUp agrees with the ideal one exactly when the addition does not wrap; when it wraps the result is 0. |
| `CudaDriver.TranslationInjective` | include/cuda_driver_api.h:31-37 | Translation from virtual bytes to (handle, offset) is a function, and injective. |
| `CudaDriver.Driver.MemCreate` | include/cuda_driver_api.h:33 | A created handle is new and adds its bytes; failure changes nothing, and without refusals it means the bytes do not fit the capacity. |
| `CudaDriver.Driver.MemMap` | include/cuda_driver_api.h:35 | Under the strict precondition, maps exactly this segment or changes nothing. |
| `CudaDriver.Driver.MemUnmap` | include/cuda_driver_api.h:36 | Removes exactly the mapping at this address. |
| `Layout.ComputeLayout` | csrc/large_allocator.cc:164-190 | For every size: legal classes, non-increasing, summing to the least multiple of 16 MB that covers the size, with GreedyCount blocks. |
| `Layout.PackClass` | csrc/large_allocator.cc:169-175 | Taking blocks of one class while they fit keeps the packing as tight as possible and leaves less than one such block. |
| `Layout.PackAllGreedy` | csrc/large_allocator.cc:164-190 | The layout is the greedy one: each block is the largest class not above what is left to cover, and the last one is of 16 MB if less than that is left. |
| `Layout.SmallestCover` | csrc/large_allocator.cc:178-186 | The class chosen for the leftover is the smallest that covers it. |
| `Layout.FewestIsLowerBound` | csrc/large_allocator.cc:164-190 | No list of legal classes with a given sum is shorter than Fewest says. |
| `Layout.ShortestList` | csrc/large_allocator.cc:164-190 | The lower bound is reached by some list. |
| `Layout.GreedyMinimal` | csrc/large_allocator.cc:164-190 | The packing is at most four blocks above the minimum for its sum, and minimal if and only if the size is a multiple of 16 MB or its whole number of units is even. |
| `Layout.NotAlwaysMinimal` | csrc/large_allocator.cc:164-190 | A request of 17 MB takes two blocks, where one of 32 MB has the same total. |
| `Layout.FourAboveMinimal` | csrc/large_allocator.cc:164-190 | The bound of four is reached one byte above 240 MB: five blocks, where one of 256 MB has the same total. |
| `Supply.DrawNext` | csrc/large_allocator.cc:68-76 | Taking one block after the other draws each class from its bucket as long as it lasts, and creates exactly the shortfall. |
| `Supply.FullSupply` | csrc/physical_memory.cc:73-86 | There is no shortfall if and only if every class is cached as often as the packing has it. |
| `Supply.ShortfallAtMost` | csrc/physical_memory.cc:73-86 | The shortfall is at most all the bytes of the packing. |
| `Supply.SameSupply` | csrc/physical_memory.cc:73-93 | It depends on the number of blocks in each bucket alone, so blocks that come back in another order make no difference. |
| `PhysicalMemory.PhysicalMemoryManager.AllocSmallBlock` | csrc/physical_memory.cc:47-60 | If a small block is cached, hands out the last one, with no driver call; otherwise a newly created one, or none if its creation fails, which without refusals means that it exceeds the capacity. Nothing else changes hands, failure changes nothing, and the room for small blocks shrinks by exactly what is handed out. |
| `PhysicalMemory.PhysicalMemoryManager.FreeSmallBlock` | csrc/physical_memory.cc:62-67 | The block goes to the end of the small free list and the counters follow. |
| `PhysicalMemory.PhysicalMemoryManager.AllocLargeBlock` | csrc/physical_memory.cc:73-86 | If the bucket of the class holds a block, hands out its last one, which leaves the bucket, with no driver call; otherwise a newly created one, or none if its creation fails, which without refusals means that it exceeds the capacity. A failed call leaves at most an empty bucket. |
| `PhysicalMemory.PhysicalMemoryManager.FreeLargeBlock` | csrc/physical_memory.cc:88-93 | The block goes to the end of the bucket of its own size, and no other bucket changes. |
| `PhysicalMemory.PhysicalMemoryManager.CreateBlock` | csrc/physical_memory.cc:228-236 | A new live handle of the size, or no change. |
| `PhysicalMemory.PhysicalMemoryManager.DestroyBlock` | csrc/physical_memory.cc:238-244 | The handle goes back to the driver. |
| `PhysicalMemory.PhysicalMemoryManager.Purge` | csrc/physical_memory.cc:99-156 | Releases a largest-first selection of cached blocks that reaches the request or is all there is, counts it, touches nothing in use and leaves no empty bucket; a purge of 0 bytes changes nothing. |
| `PhysicalMemory.PhysicalMemoryManager.CollectLargeBlocks` | csrc/physical_memory.cc:109-121 | Phase 1a takes large blocks from the largest class down until enough or none is left. |
| `PhysicalMemory.PhysicalMemoryManager.DropEmptyBuckets` | csrc/physical_memory.cc:123-130 | Exactly the empty buckets go. |
| `PhysicalMemory.PhysicalMemoryManager.CollectSmallBlocks` | csrc/physical_memory.cc:132-139 | Phase 1b takes small blocks only when no large block is left. |
| `PhysicalMemory.PhysicalMemoryManager.DestroyAll` | csrc/physical_memory.cc:148-153 | Phase 2 releases exactly the blocks collected. |
| `Pools.PurgeIsOptimal` | include/physical_memory.h:38-42 | purge(n) releases at least min(n, cached bytes); without its last and smallest block it would fall short of n; no other choice of cached blocks that achieves as much has fewer blocks. |
| `Pools.PurgeLeaves` | csrc/physical_memory.cc:99-156 | After purge(n) all bytes in use are left, and nothing else unless n bytes have been released; what has been released is counted, and exceeds n by less than 256 MB. |
| `PhysicalMemory.PhysicalMemoryManager.Trim` | csrc/physical_memory.cc:162-177 | Every cached block is released and nothing in use is; the driver then holds exactly the bytes in use. |
| `PhysicalMemory.PhysicalMemoryManager.TotalPhysicalAllocated` | csrc/physical_memory.cc:183-187 | The four counters add up to the bytes the driver has handed out. |
| `Pools.CountersAreSums` | csrc/physical_memory.cc:47-93 | In every sound state the cached-byte counters are the sums over the free lists. |
| `Pools.HeldIsLive` | csrc/physical_memory.cc:183-187 | No counter is negative, and together they are the live bytes. |
| `Ranges.InsertKeepsIndex` | csrc/small_allocator.cc:207-210 | Adding a free block keeps the size index the exact inverse of the address index, with no empty bucket. |
| `Ranges.EraseKeepsIndex` | csrc/small_allocator.cc:212-217 | So does removing one, erasing the bucket when it becomes empty. |
| `Ranges.IndexDetermined` | csrc/small_allocator.cc:207-217 | The size index is determined by the address index. |
| `Ranges.BucketIsBestFit` | csrc/small_allocator.cc:61-66 | The lowest address in the smallest sufficient bucket is the smallest sufficient free block, lowest address first. |
| `Ranges.SplitSound` | csrc/small_allocator.cc:66-74 | Splitting a free block keeps the tiling exact, canonical and aligned, and adds exactly the range taken to the kept ranges. |
| `Ranges.BumpSound` | csrc/small_allocator.cc:75-82 | So does bumping the high-water mark. |
| `Ranges.MergedSound` | csrc/small_allocator.cc:219-242 | Merging a freed range with its free neighbours keeps the tiling exact and canonical, and removes exactly that range from the kept ranges. |
| `Ranges.HighestBelow` | csrc/small_allocator.cc:224-232 | Looking at the highest free block below is enough to find the one that ends at the freed range. |
| `Ranges.RangesTile` | csrc/small_allocator.cc:54-114 | Every byte below the high-water mark lies in exactly one allocated, free or abandoned range. |
| `Ranges.RangesAligned` | csrc/small_allocator.cc:54-114 | Every such range is of positive size, on 512-byte boundaries and inside the reservation. |
| `Ranges.FreeListIsGaps` | csrc/small_allocator.cc:219-242 | The free list is exactly the set of maximal gaps of the allocated and abandoned ranges below the high-water mark. |
| `Ranges.HistoryIndependent` | csrc/small_allocator.cc:59-114 | Two histories reaching the same allocated ranges, abandoned ranges and high-water mark have identical free lists and size indexes. |
| `Ranges.OneBlockLeft` | csrc/small_allocator.cc:98-114 | When everything is freed, in any order, and nothing was abandoned, one block is left. |
| `PageCount.FreeBytesStep` | csrc/small_allocator.cc:127-140 | Counting one more free range adds exactly its overlap with the page. |
| `PageCount.FullPageInOneBlock` | csrc/small_allocator.cc:142-143 | Since free blocks never touch, a page's free bytes reach its size if and only if it lies inside one single free block. |
| `SmallPages.FillSound` | csrc/small_allocator.cc:185-198 | Backing a page keeps page table, mappings and blocks in use in one-to-one correspondence. |
| `SmallPages.ClearSound` | csrc/small_allocator.cc:143-150 | So does unmapping one. |
| `SmallPages.TouchedPages` | csrc/small_allocator.cc:182-185 | The pages from first to last are exactly those the range touches. |
| `SmallPages.RangeIsMapped` | csrc/small_allocator.cc:181-201 | Every byte of an allocated range is mapped. |
| `SmallPages.InUseIsMapped` | csrc/small_allocator.cc:172-198 | Mapped bytes and small in-use bytes are 2 MB times the mapped pages. |
| `SmallAllocator.SmallAllocator.constructor` | csrc/small_allocator.cc:17-33 | One reservation of the rounded size, no page mapped, no range handed out. |
| `SmallAllocator.SmallAllocator.Allocate` | csrc/small_allocator.cc:54-92 | The size taken is the least positive multiple of 512 that is not below the request. Best fit, else bump, else exhausted exactly when neither fits that size; success records a range of it with all its pages mapped, a failed backing abandons it; without refusals the call succeeds if and only if a range is to be had and the missing pages behind it fit the cached small blocks plus what the capacity leaves. |
| `SmallAllocator.SmallAllocator.TakeRange` | csrc/small_allocator.cc:59-82 | Takes the best fitting block, bumps only if none fits, and gives up only if the bump would not fit either. |
| `SmallAllocator.PlacedMeans` | csrc/small_allocator.cc:54-92 | Whichever way it was found, the range is disjoint from every allocated range and is the only one added. |
| `SmallAllocator.SmallAllocator.Free` | csrc/small_allocator.cc:98-114 | Null is accepted, an unknown pointer refused without effect; otherwise exactly that range leaves the allocated and the kept ranges. |
| `SmallAllocator.SmallAllocator.Coalesce` | csrc/small_allocator.cc:219-242 | Both indexes stay exact and the freed range is merged with both neighbours. |
| `SmallAllocator.SmallAllocator.AddFreeBlock` | csrc/small_allocator.cc:207-210 | The block is added to both indexes. |
| `SmallAllocator.SmallAllocator.RemoveFreeBlock` | csrc/small_allocator.cc:212-217 | The block is removed from both indexes. |
| `SmallAllocator.SmallAllocator.EnsurePagesMapped` | csrc/small_allocator.cc:181-201 | On success every page touched is mapped; no other page changes; on failure the pages backed so far stay. Without refusals it succeeds if and only if there is room for the pages that are missing. |
| `SmallAllocator.SmallAllocator.EnsurePages` | csrc/small_allocator.cc:185-200 | The page loop maps exactly the pages before the first that cannot be backed. |
| `Room.FitsIsFitsWithin` | csrc/small_allocator.cc:54-92 | A small request fits a state if and only if the smallest sufficient gap between the ranges that stand, or the space above the high-water mark if there is none, can be backed within the room for small blocks. |
| `Abandoned.FailureAbandons` | csrc/small_allocator.cc:84-87 | A request that fails after it has taken a range leaves exactly that range behind, with those of its pages that could be backed, when everything else is reclaimed. |
| `SmallAllocator.SmallAllocator.CountRange` | csrc/small_allocator.cc:127-140 | The page loop adds to every page exactly its overlap with the range, including those it skips. |
| `SmallAllocator.SmallAllocator.CountFreeBytes` | csrc/small_allocator.cc:125-140 | Each page's counter is the number of its bytes covered by free ranges. |
| `SmallAllocator.SmallAllocator.EmptyCache` | csrc/small_allocator.cc:120-152 | A mapped page is unmapped if and only if it lies inside one single free block; ranges and free lists are untouched and allocated pages stay mapped. |
| `SmallAllocator.SmallAllocator.AddPeerDevice` | csrc/small_allocator.cc:275-297 | A new peer joins once, and every mapped page then grants access to a device if and only if it is the owner or one of the peers. |
| `SmallAllocator.SmallAllocator.Owns` | csrc/small_allocator.cc:158-161 | True exactly for addresses in the reservation, which include every allocated one. |
| `LargeBlocks.OverlayDrop` | csrc/large_allocator.cc:80-87 | Unmapping and returning the first block leaves exactly the rest of the allocation. |
| `LargeBlocks.OverlayWithout` | csrc/large_allocator.cc:103-130 | Taking out an allocation gives back the reservations, mappings, access rights and blocks in use from before it was made. |
| `LargeBlocks.BlockMapsCover` | csrc/large_allocator.cc:68-76 | Blocks mapped end to end leave no byte unmapped. |
| `LargeAllocator.LargeAllocator.MapBlocks` | csrc/large_allocator.cc:68-76 | Maps all blocks of the layout, or stops with those obtained so far, of which all but perhaps the last are mapped. |
| `LargeAllocator.LargeAllocator.ReturnBlocks` | csrc/large_allocator.cc:79-89 | From any such point the unwinding restores mappings, reservations, access and in-use bytes, and every block is back in its own pool. |
| `LargeAllocator.LargeAllocator.GrantAll` | csrc/large_allocator.cc:196-217 | Access is granted to exactly the mappings of this allocation. |
| `LargeAllocator.LargeAllocator.Allocate` | csrc/large_allocator.cc:40-97 | All or nothing, wherever it fails; on success one record of the rounded size is added, with blocks in the sizes of the greedy packing, and taking it out again restores the former state. The driver adds exactly the shortfall of that packing; without refusals and faults the call succeeds if and only if the shortfall fits the capacity. |
| `LargeAllocator.LargeAllocator.Free` | csrc/large_allocator.cc:103-130 | Null is accepted, an unknown pointer refused without effect; otherwise exactly this allocation is taken out, its blocks join the buckets of their sizes, and no block is released. |
| `LargeAllocator.LargeAllocator.FreeAndRepeat` | csrc/large_allocator.cc:40-130 | An allocation that is freed and made again takes its blocks from the buckets: without faults it succeeds, however full the device is, and no block is created. |
| `LargeAllocator.LargeAllocator.AddPeerDevice` | csrc/large_allocator.cc:223-242 | A new peer joins once, and every live allocation then grants access to a device if and only if it is the owner or one of the peers, whichever driver calls have failed before. |
| `LargeAllocator.LargeAllocator.Owns` | csrc/large_allocator.cc:145-148 | True exactly for the start of a reservation that is not the small allocator's; that reservation is then recorded in full and mapped from end to end. |
| `Ownership.ExactlyOneLocation` | csrc/physical_memory.cc:47-93 | Every live handle sits in exactly one of: the small free list, the bucket of its own size, one mapped page, one slot of one large allocation; cached handles are unmapped. |
| `PerDevice.InitDevice` | csrc/vmm_allocator.cc:155-162 | One manager and two sub-allocators on one driver, a small reservation of the rounded size, nothing handed out, no peers, and all counters at zero. |
| `PerDevice.PerDeviceState.EveryBlockInOnePlace` | csrc/small_allocator.cc:142-151 | The same, in every valid state of a device. |
| `PerDevice.PerDeviceState.OwnedIsMapped` | csrc/large_allocator.cc:40-97 | Every byte of a live allocation, small or large, is backed by memory. |
| `PerDevice.PerDeviceState.NoAliasing` | csrc/large_allocator.cc:40-130 | Bytes of two distinct live allocations never translate to the same (handle, offset). |
| `PerDevice.PerDeviceState.AccessIsUniform` | csrc/small_allocator.cc:248-269 | Every mapping of the device grants access to a device if and only if it is the owner or a registered peer, and both sub-allocators have the same owner and peers. |
| `PerDevice.PerDeviceState.AddPeerDevice` | csrc/vmm_allocator.cc:771-779 | The peers of both sub-allocators gain exactly this one and stay in agreement, whichever driver calls have failed before. |
| `PerDevice.PerDeviceState.ReservedBytes` | csrc/vmm_allocator.cc:552-563 | The reported reserved bytes are mapped pages and reservations plus caches, and their total is what the driver has handed out. |
| `PerDevice.PerDeviceState.Attempt` | csrc/vmm_allocator.cc:219-223 | One attempt adds one new pointer on the side it was routed to, or changes no allocation. Without refusals a small attempt succeeds if and only if the request fits as things are, and without faults as well a large one if and only if the device has room for the blocks that the buckets lack. A failed small attempt leaves at most one abandoned range. |
| `PerDevice.PerDeviceState.Purge` | csrc/vmm_allocator.cc:229-232 | Releases the bytes asked for, or all that is cached, counts them, takes nothing in use, and leaves small requests exactly the room that results. |
| `Reclaim.EmptyCacheKeepsNeeded` | csrc/small_allocator.cc:120-152 | emptyCache unmaps no page that is needed by what stays. |
| `Reclaim.EmptyCacheLeavesNeeded` | csrc/small_allocator.cc:120-152 | Once everything else is freed, emptyCache leaves exactly the needed pages. |
| `Ledger.PoolStats.RecordAlloc` | csrc/vmm_allocator.cc:54-66 | Without interference current and accumulated bytes and the number of allocations grow by this one, the freed counters stay, and the peak is the larger of itself and the new current value. |
| `Ledger.PoolStats.RecordFree` | csrc/vmm_allocator.cc:68-72 | Without interference current bytes shrink, freed bytes and the number of frees grow by this one, and what counts allocations stays, as does the peak. |
| `Ledger.HeldDefer` | csrc/vmm_allocator.cc:304-337 | Moving an allocation from live to pending changes no total. |
| `Ledger.IndexAdd` | csrc/vmm_allocator.cc:268-275 | Recording an allocation keeps the pool index exact. |
| `Ledger.IndexDefer` | csrc/vmm_allocator.cc:287-302 | So does taking one off meta_. |
| `VmmAllocator.VMMAllocator.AllocImpl` | csrc/vmm_allocator.cc:192-278 | Null for size 0 and an error when disabled, without effect. Otherwise the result is recorded under a new key with its size, side, stream and pool: the id of the innermost active pool if its filter accepts the stream, else none. It is counted on its side; at most three attempts, two counted retries and one counted failure; deferred frees are completed exactly as far as their events have, all of them before the second attempt. Without refusals, and faults for large requests, and with no deferred free complete, the first attempt serves the request if and only if it fits as things are; a large one is served at once whenever the device has room for all its blocks. A small request fails if and only if the third attempt was made and the request does not fit beside what stays before it, which is what stayed before the call and at most two ranges abandoned in between; a large one if and only if the unreclaimable bytes plus the request rounded to 16 MB exceed the capacity. |
| `VmmAllocator.VMMAllocator.AllocWithRetry` | csrc/vmm_allocator.cc:214-262 | The three attempts, their reclaiming and their counters. Each of them serves a request exactly if it fits what that attempt finds: what stands when the completed frees are done, then what stays after the purge, then what stays after everything else has been released. |
| `VmmAllocator.VMMAllocator.SmallServed` | csrc/vmm_allocator.cc:214-262 | Without refusals a small request is served at once exactly if it fits, when no deferred free is complete; it is refused exactly if it does not fit beside what stays before the third attempt, which differs from what stayed at first by at most two abandoned ranges. |
| `VmmAllocator.VMMAllocator.LargeServed` | csrc/vmm_allocator.cc:214-262 | Without refusals and faults a large request is served at once exactly if the device has room for the blocks that the buckets lack, when no deferred free is complete, and whenever it has room for all of them; it is refused exactly if it does not fit beside what stays. |
| `VmmAllocator.VMMAllocator.RetryAfterPurge` | csrc/vmm_allocator.cc:224-239 | The second attempt frees what is deferred, empties the caches of the sub-allocators and purges at least the request, or all there is, but less than 256 MB too much; it then serves a small request exactly if it fits beside what stays within the room this leaves, and a multiple of 16 MB exactly if it fits beside what stays. |
| `VmmAllocator.VMMAllocator.RetryAfterTrim` | csrc/vmm_allocator.cc:245-260 | The last attempt frees and reclaims everything else; without refusals a small request then succeeds if and only if it fits beside what stays, and without faults as well a large one if and only if the unreclaimable bytes and its rounded size fit the capacity. |
| `VmmAllocator.VMMAllocator.FreeImpl` | csrc/vmm_allocator.cc:284-345 | A pointer not on record is ignored; otherwise it leaves meta_ and its pool, and is freed at once or becomes pending, by whether streams were recorded; the records change as FreeEffect says. |
| `VmmAllocator.VMMAllocator.DoFree` | csrc/vmm_allocator.cc:414-424 | Exactly this pointer leaves the sub-allocator it came from, which knows it. |
| `VmmAllocator.VMMAllocator.ProcessPendingFrees` | csrc/vmm_allocator.cc:351-386 | The entries whose events are complete, and no others, leave the list and their sub-allocator, each once; the others stay pending in their order, no other allocation is touched, and the blocks of the large ones join the buckets. |
| `VmmAllocator.VMMAllocator.ForceProcessPendingFrees` | csrc/vmm_allocator.cc:388-412 | Nothing is pending afterwards. |
| `VmmAllocator.VMMAllocator.RecordStream` | csrc/vmm_allocator.cc:470-486 | A stream is added once to a live record; anything else is ignored. |
| `VmmAllocator.VMMAllocator.EmptyCache` | csrc/vmm_allocator.cc:492-501 | The driver then holds exactly the unreclaimable bytes. |
| `VmmAllocator.VMMAllocator.BeginAllocateToPool` | csrc/vmm_allocator.cc:652-659 | Until another entry is pushed, allocations on the streams its filter accepts, and no others, go to the pool; ending it at once restores the stack. |
| `VmmAllocator.VMMAllocator.EndAllocateToPool` | csrc/vmm_allocator.cc:661-673 | Removes the most recent entry with the id, if there is one, and no other. |
| `VmmAllocator.EndUndoesBegin` | csrc/vmm_allocator.cc:652-673 | Ending a pool undoes its begin, whatever other pools have been begun in between. |
| `VmmAllocator.VMMAllocator.AllocAfterPool` | csrc/vmm_allocator.cc:199-212 | Once the only pool that was begun has been ended, a new allocation is in no pool and the pool index is as before. |
| `VmmAllocator.VMMAllocator.ReleasePool` | csrc/vmm_allocator.cc:675-723 | No live or pending allocation with the id is left, each was freed exactly once, and all others are as before; the records change as ReleaseEffect says; an id without entry has none. |
| `VmmAllocator.VMMAllocator.SetThreshold` | csrc/vmm_allocator.cc:815-817 | Every live allocation is with the sub-allocator its record names, in its recorded size, whatever the threshold was when it was made and is now. |
| `VmmAllocator.VMMAllocator.CurrentBytes` | csrc/vmm_allocator.cc:54-72 | current_bytes of each side is the sum of its live and pending sizes, and never negative. |
| `PeakStats.StepKeepsInvariant` | csrc/vmm_allocator.cc:54-72 | Every atomic step, spurious CAS failures included, keeps the peak at the highest value or a thread on its way there. |
| `PeakStats.PeakIsExact` | csrc/vmm_allocator.cc:54-84 | In every run, whenever no recordAlloc is in flight, peak_bytes is exactly the maximum current_bytes has had since the last reset. |
| `PeakStats.CountersAgree` | csrc/vmm_allocator.cc:54-72 | In every run, when nobody is inside, current_bytes has gained exactly the allocated less the freed bytes. |
| `ProtocolSafety.StepKeepsConsistent` | csrc/vmm_allocator.cc:192-424 | Each of the twenty-one atomic steps, by any thread, keeps the invariant. |
| `ProtocolTheorems.PointersConserved` | csrc/vmm_allocator.cc:192-424 | In every run the sub-allocators' pointers are the disjoint union of the keys of meta_, the pending pointers and those held by threads, each once, with the device and side it came from. |
| `ProtocolTheorems.NeverFaults` | csrc/vmm_allocator.cc:268-275 | In no run does the insertion overwrite a live record or an "unknown pointer" check fire. |
| `ProtocolTheorems.PoolIndexExact` | csrc/vmm_allocator.cc:295-301 | In every run pool_allocs_ lists, for each id with an entry, exactly the live pointers tagged with it, and no tagged live pointer lacks an entry. |
| `ProtocolHistory.PendingIsDeferred` | csrc/vmm_allocator.cc:304-338 | In every run a pending entry goes back to one free_impl with recorded streams. It has one event for each of these streams and the allocation stream; each was recorded behind all work enqueued there when the pointer was taken off meta_, and has not been recorded again. |
| `ProtocolHistory.DeferredFreeIsSafe` | csrc/vmm_allocator.cc:284-412 | In every run, when a pointer is handed back to its sub-allocator, one step took it off meta_: a free or the release of its pool, not both. It was pending in between if and only if that was a free with recorded streams, and then all work enqueued by that step, on each recorded stream and on the allocation stream, has completed. |
| `ProtocolHistory.StreamRemembered` | csrc/vmm_allocator.cc:470-486 | In every run a stream recorded on a pointer stays recorded, whatever other threads do, as long as the pointer is live. |
| `ProtocolHistory.RecordedUseIsDone` | csrc/vmm_allocator.cc:284-412 | In every run, if any thread has recorded a stream on a live pointer and the pointer is freed later, then it is not handed back to its sub-allocator before all work enqueued on that stream by the time of the free has completed. |
| `ProtocolHistory.RunIsTraced` | csrc/vmm_allocator.cc:284-412 | In every run each entry that is being deferred, is pending or is about to be handed back has such a step. |
| `ProtocolTheorems.EventsConserved` | csrc/vmm_allocator.cc:26-42 | In every run each event is in exactly one place: the pool, one thread's hand, or one entry that is pending or held by a thread. |
| `ProtocolCalls.AllocAlone` | csrc/vmm_allocator.cc:192-278 | In every run an alloc_impl during which no other thread takes a step has the effect the class promises. |
| `ProtocolCalls.FreeAlone` | csrc/vmm_allocator.cc:284-345 | So has a free_impl. |
| `ProtocolCalls.ReleaseAlone` | csrc/vmm_allocator.cc:675-723 | So has a releasePool. |

## Left out

- SmallAllocator.SmallAllocator.Allocate: memMap and memSetAccess are taken to succeed on the small path, which has no unwinding; memCreate may fail anywhere.
- Common.AlignedSize: sizes are unbounded integers; the machine's roundUp wraps for sizes within 512 bytes of 2^64, and RoundUpWordExact says exactly when.
- SmallAllocator.SmallAllocator.AddPeerDevice: memSetAccess is taken to succeed.
- LargeAllocator.LargeAllocator.AddPeerDevice: memSetAccess is taken to succeed.
- LargeAllocator.LargeAllocator.Free: the original unmaps outside its lock; other threads in between are not modelled, each call is one step.
- PhysicalMemory.PhysicalMemoryManager.Purge: the original releases the collected blocks outside its lock; other threads in between are not modelled.
- PhysicalMemory.PhysicalMemoryManager.Trim: blocks are released from the back of each list and the counters counted down, where the original goes from the front and sets them to 0; the result is the same.
- PerDevice.PerDeviceState.AddPeerDevice: the device's own set of registered peers only saves a second call; each sub-allocator ignores a known peer anyway.
- VmmAllocator.VMMAllocator.ProcessPendingFrees: whose events have completed is a parameter here, asked once per entry; events and streams are in the protocol.
- ProtocolCalls.AllocAlone: the effect on the records; what the sub-allocators hold follows from the records in both models (VMMAllocator.Valid, ProtocolTheorems.PointersConserved). RecordStream is a single step; emptyCache is not compared.
- VmmAllocator.VMMAllocator.AllocImpl: one device and one thread; several devices and threads are in the protocol. The conditions for a small request are for a driver that does not refuse to create blocks, those for a large one for a driver without faults as well; what a refusing or faulty driver may cause is only that an attempt fails.
- Ledger.PoolStats.RecordAlloc: one step here; its atomic steps are in PeakStats.
- ProtocolSafety.StepKeepsConsistent: each sub-allocator call is one step that adds a pointer not handed out by any device or removes a known one; that reservations of several devices do not overlap is taken from the driver. The pool an allocation is tagged with is any id.
- ProtocolHistory.DeferredFreeIsSafe: nothing is claimed for tensors freed without recorded streams, nor for live pointers freed by releasePool, whose recorded streams the original does not consult.
- PeakStats.PeakIsExact: between resets; resetPeak racing with allocation is a separate load and store. Memory-order effects beyond a single location are not modelled.
- Failures of event creation, recording, query and synchronisation.
- Destructors and process shutdown.
- Driver loading and symbol lookup, Python bindings, IPC, checkpoints, snapshots, tracing, memory copies: calls passed through or not implemented.
- replaceDataPtr and vmmRemap: they edit mappings behind the allocators' records.
- The memory fraction: stored and never consulted.
- The remaining parts of getDeviceStats: they copy counters.

# Verified model of the tiered memory substrate

A Dafny model of a tiered memory substrate, with proofs about it. Regions hold bytes, an allocator per
region hands out blocks, handles name blocks under a generation, and regions move between Hot, Warm and
Cold tiers, get compacted, and are read through caches. Most results say that a clever form agrees with
a simple one, for every input, every run or every schedule.

`dafny verify dfyconfig.toml` checks the whole project.

## Layout

| Files | What they model | Main results |
|---|---|---|
| `Core`, `Bits`, `Allocator` | integer widths, `align_up`, the free-list allocator as a class | `FreelistAllocator.Alloc` is complete and lowest-fit; the free list and the live blocks tile the region after every call |
| `Compaction`, `Directory`, `RegionDirectory`, `DirectoryRuns` | out-of-place packing; every directory call as a function; the directory as a class that refines those functions; runs of that class | `MigratedBlock`, `MappingDomain`, `CompactTwice`, `PerformAll` |
| `Tiering`, `RegionRuns`, `Handles`, `WarmList` | runs of directory calls, with stores that refuse, against a flat byte map, a migrated handle, and an observer of tiers | `TieringIsInvisible`, `RegionIsInvisible`, `HandleKeepsItsBlock`, `OldHandleStale`, `WarmListIsFaithful` |
| `Cache`, `Host`, `TvmHost` | the direct-mapped resolve cache, raw pointers as memory-object stamps, the invalidation discipline | `CacheNeverDisagrees`, `FastReadAgrees`, `FastWriteAgrees`, `BypassBreaksIff` |
| `Concurrent`, `Locks` | any number of threads over per-region mutexes; lock scripts of every call | `Linearizable`, `NoDeadlock`, `DeadlockFree` |
| `Eviction`, `EvictionResults`, `SharedEviction` | bulk eviction as a loop over the directory class, and among calls of other threads | `DemoteUntilWithIs`, `Accounting`, `LargestFirstIsOptimal`, `SharedAccounting`, `SharedRetryNeedsRoom` |
| `Guest`, `GuestFacade`, `GuestRuns` | regions in shared pools, in-place sliding compaction, the single-entry resolve cache, and runs where they surprise | `GuestPacksAsHost`, `RefusedKeepsBlocksIff`, `CachedIsResolveIff`, `GuestReadAgrees` |
| `Wasm`, `Linker`, `LinkMeaning`, `Instantiation`, `LinkResults`, `Names` | a store machine for modules; the static linker with its maps, sections and refusals; what linking does to meaning | `LinkingPreservesMeaning`, `UserOpMeans`, `SameStores`, `LinkWithOptions` |
| `Dispatch`, `Simd`, `SimdFolds`, `Gather`, `MannWhitney`, `StableSort` | generated dispatch trees and vector kernels, the gather fast path, the rank-sum statistic | `DispatchIsExact`, `SimdSum`, `SimdFold`, `DenseIsPerIndex`, `MannWhitneyU` |

Objects whose methods update fields are classes (`FreelistAllocator`, `RegionDirectory`, `BackingStore`,
`ResolveCache`, `TvmHost`, `GuestDirectory`, `GuestTvm`). Their methods are proved against functions and
predicates on values, and the run theorems are about those. Sixteen- and thirty-two-bit values
are subset types, so a missing overflow check is a failed proof; where the code wraps on purpose the
wrap is written out. The backing store's answer to a call (accepted or refused) and the host's answer to
a memory grow are parameters.

## What turned out false, and exactly when

Each of these is proved, most as an if-and-only-if on a condition a caller can check.

- `load_region` on a Warm region re-reads the store over live bytes: `Tiering.LoadVisibleIff`, with a run
  that loses a write in `Tiering.LoadOverWarmLosesWrites`.
- `create_region_with_policy` with a Cold policy keeps the bytes in memory but calls the region Cold, and
  nothing was stored for it: `Tiering.CreateVisibleIff`, with a run in `Tiering.CreatedColdUnreadable`.
- `bump_generation` on a Cold region renames the key its bytes are stored under: `Tiering.BumpVisibleIff`,
  with a run in `Tiering.BumpLosesColdBytes`.
- `spill_region` takes the memory before the store answers: `Tiering.FailedSpillVisibleIff`, with a run in
  `Tiering.RefusedSpillLosesBytes`.
- `evict_warm_region` drops a pinned Warm region from its list and never offers it again:
  `WarmList.EvictForgetsIff`, with a run in `WarmList.PinnedWarmIsForgotten`.
- `evict_warm_region` gets stuck behind a Warm region that lost its memory to a refused spill:
  `WarmList.EvictsOldestWarm` and `WarmList.LostRegionBlocks`, with a run in `WarmList.SecondWarmIsStuck`.
- The spill and load of `TvmSpill` skip the cache invalidation: `Host.BypassBreaksIff`, with a run in
  `Host.BypassLeavesWildPointer`.
- `alloc_or_demote` is meant to succeed after demoting; with one thread, its second attempt fails whenever
  the first does, because demoting frees no room inside a region: `EvictionResults.RetryNeverHelps`,
  `EvictionResults.RetryFailsOrStoreDoes`.
- A `demote_until` that fails has spilled what came before the refused region and taken that region's
  memory: `EvictionResults.AbortLosesIff`. From then on that region counts as resident and is skipped:
  `EvictionResults.CallAfterAbort`, with a run in `EvictionResults.AbortIsFinal`.
- `target_met` is meant to be true exactly when the resident bytes are at most the target after the call, and
  `bytes_freed` to count what was spilled. With one thread both hold (`EvictionResults.Accounting`); among other
  threads neither does: `SharedEviction.MetYetAbove`, `SharedEviction.UnmetYetBelow`,
  `SharedEviction.CountedTwice`. What holds for every schedule is `SharedEviction.SharedAccounting`.
- A guest region's id is its slot index only while no create has failed: `Guest.IdIsSlotIff`, with a run in
  `GuestRuns.FailedCreateShiftsIds`.
- The guest's `unpin` does nothing, so a region once pinned can never be compacted, although compaction
  tells its caller to unpin first: `GuestRuns.UnpinnedStaysPinned`.
- Guest accesses are not checked against the region: `GuestFacade.GuestReadAgrees`,
  `GuestFacade.WriteStaysInsideIff`, with a run in `GuestRuns.ReadPastTheEnd`.
- A guest compaction whose copy fails part way has already moved blocks. It succeeds exactly when every
  moving block lies in the pool's memory (`Guest.GuestDirectory.CompactRegion`); when refused, it leaves the
  pool alone exactly as `Guest.RefusedUnchangedIff` says and loses live bytes exactly as
  `Guest.RefusedKeepsBlocksIff` says, with a run in `GuestRuns.RefusedCompactionLosesBytes`.
- The linker copies some indices without renumbering them: function-typed block types, segment indices,
  memory indices, every index of an operator it does not know (`call_ref` among them), and references in
  global initialisers. `LinkMeaning.UserOpMeans`, `LinkMeaning.ShellOpMeans`, `LinkResults.UserFuncConst`,
  `LinkResults.UserGlobalConst` and `LinkResults.ShellConsts` say exactly which keep their meaning;
  `LinkResults.AcceptedButChanged` and `LinkResults.GlobalRefersElsewhere` are accepted pairs that change.
- A user module with two memories is accepted and loses the second: part of `LinkMeaning.IndexMeans`.
- The linked module is documented to have no `tvm_mm` import left, and to be valid. A global or table import
  stays (`LinkResults.TvmImportRemainsIff`), and a name exported on both sides is exported twice
  (`LinkResults.ExportNamesDistinctIff`); `LinkResults.AcceptedButInvalid` is a pair with both.
- The name section's comment says indices collide only for rewired imports; segment names collide too:
  `Names.SegmentNamesKeptIff`.
- The page computation of the grow step wraps above 0xFFFF0000: `Dispatch.PagesComputedIff`,
  `Dispatch.CopySucceedsIff`.
- The byte-count kernel with an argument above 255 mixes two meanings: `Simd.KernelCountIff`, with an input
  in `Simd.WideArgumentMissesTail`.

Where the repository's documentation and code differ the model follows the code: `demote_region`
documents that Cold regions are rejected and answers success; the rewriter's error text speaks of
unsupported operators, and its caller copies them; `regions_spilled` is a sixteen-bit count
and saturates at 65535; the guest directory's assertion that id and slot agree is a debug check only.

## Model

| member | source | states |
|---|---|---|
| `Bits.PowerOfTwoTest` | crates/tvm-core/src/allocator.rs:295-298 | for a positive alignment, `align & (align - 1)` is zero exactly when the alignment is a power of two |
| `Bits.AlignUpIsLeastMultiple` | crates/tvm-core/src/allocator.rs:295-301 | rounding up yields the least multiple of the alignment at or above the value, and fails exactly when the alignment is no power of two or no such multiple fits in 32 bits |
| `Allocator.ScanFit` | crates/tvm-core/src/allocator.rs:147-174 | reference for first fit by trial: the result fits, nothing lower fits, and `None` means that no offset at all fits |
| `Allocator.RunInOneBlock` | crates/tvm-core/src/allocator.rs:189-207 | a run of free bytes never spans two blocks of a coalesced list |
| `Allocator.CoalescedUnique` | crates/tvm-core/src/allocator.rs:189-207 | two coalesced lists covering the same bytes are equal, so the free list is determined by which blocks are live |
| `Allocator.NoFit` | crates/tvm-core/src/allocator.rs:152-155 | when the scan stops early on an alignment or 32-bit overflow, or reaches the end, no aligned run of free bytes exists anywhere: the early returns lose no later fit |
| `Allocator.LowestFit` | crates/tvm-core/src/allocator.rs:156-170 | the first block with room holds the lowest aligned offset at which the request fits |
| `Allocator.AllocKeepsState` | crates/tvm-core/src/allocator.rs:156-169 | cutting a request out of any block that has room for it keeps free and live blocks tiling the region, the list sorted and coalesced, and `used` equal to the live sizes |
| `Allocator.FreelistAllocator.constructor` | crates/tvm-core/src/allocator.rs:134-141 | a new allocator satisfies the tiling invariant with nothing live |
| `Allocator.FreelistAllocator.Alloc` | crates/tvm-core/src/allocator.rs:147-174 | answers exactly what trying every offset would (lowest aligned fit, or failure exactly when none fits or the request is empty), records the block as live, changes nothing on failure, and keeps the invariant without overflow |
| `Allocator.FreelistAllocator.TakeFrom` | crates/tvm-core/src/allocator.rs:157-169 | each of the four ways of splitting the chosen block records the lowest fit and keeps the invariant |
| `Allocator.FreelistAllocator.Dealloc` | crates/tvm-core/src/allocator.rs:176-187 | removes exactly the named live block and answers its size, or refuses an offset that is no live block and changes nothing; the invariant holds afterwards |
| `Allocator.FreelistAllocator.Coalesce` | crates/tvm-core/src/allocator.rs:189-207 | merging the inserted block with its neighbours makes the list coalesced again and covers the same bytes |
| `Allocator.FreelistAllocator.RebuildAfterCompact` | crates/tvm-core/src/allocator.rs:213-226 | the rebuilt allocator holds exactly the packed blocks and one free block behind them, within the invariant |
| `Compaction.MappingDomain` | crates/tvm-core/src/directory.rs:232-245 | the handle mapping is defined on exactly the starts of the live blocks |
| `Compaction.MigratedBlock` | crates/tvm-core/src/directory.rs:236-257 | a migrated block is live, keeps its size and holds its old bytes |
| `Compaction.MigrationOrder` | crates/tvm-core/src/directory.rs:236-245 | migration keeps address order and is therefore injective |
| `Compaction.GatherAt` | crates/tvm-core/src/directory.rs:236-245 | out-of-place packing carries each block to its landing place byte for byte |
| `Compaction.CompactLeavesOneTail` | crates/tvm-core/src/directory.rs:246-257 | after a compaction the allocator invariant holds with all free space in one block at the end |
| `Compaction.CompactTwice` | crates/tvm-core/src/directory.rs:218-265 | compacting a packed region again moves nothing |
| `Compaction.GenerationCycle` | crates/tvm-core/src/directory.rs:728-735 | generations never become 0 and return to a value exactly every 65535 bumps |
| `Tiering.StepRefines` | crates/tvm-core/src/directory.rs:159-426 | one call with an accepting store keeps the invariant, leaves the view of all bytes where the flat machine puts it, and answers as the flat machine does |
| `Tiering.TieringIsInvisible` | crates/tvm-core/src/directory.rs:159-177 | along every run of creates under any policy that does not place a region Cold, allocs, deallocs, faulting reads and writes, spills, loads, promotions, demotions, evictions, pins, compactions and bumps of resident regions, the tiered directory answers exactly as a flat, never spilled byte map, and every Cold region is stored under its current id and generation |
| `RegionRuns.StepRefinesAt` | crates/tvm-core/src/directory.rs:159-426 | one call with any store, in a directory whose other regions may be in any state: what a region shows goes where the flat machine puts it and a call about it is answered alike, unless the call does harm to this region or the store refuses a load |
| `RegionRuns.RegionIsInvisible` | crates/tvm-core/src/directory.rs:159-177 | along every run with any store, region by region: as long as no call does harm to this region (a load while Warm, a bump while Cold, a Cold create, a refused spill), it shows what the flat machine shows and calls about it are answered alike or with the error of the store that refused, whatever is done to other regions |
| `Directory.StepIsLocal` | crates/tvm-core/src/directory.rs:159-735 | a call changes no region and no key but those of the region it names, or for an eviction the first Warm unpinned one from the back of the list |
| `Directory.StepKeepsSound` | crates/tvm-core/src/directory.rs:159-735 | every call keeps every allocator well formed, whatever the store answers |
| `Tiering.LoadVisibleIff` | crates/tvm-core/src/directory.rs:477-491 | in any directory a load changes what readers see exactly when the region is not Hot, has its memory, and the store holds other bytes under its current key |
| `Tiering.CreateVisibleIff` | crates/tvm-core/src/directory.rs:106-139 | faulting reads of a region just created answer from the bytes it was created with exactly when its policy does not place it Cold, or the store already holds the same bytes under the new key |
| `Tiering.CreatedColdUnreadable` | crates/tvm-core/src/directory.rs:106-139 | from an empty directory: a region created under a Cold policy cannot be read |
| `Tiering.LoadOverWarmLosesWrites` | crates/tvm-core/src/directory.rs:482-487 | a concrete run on which a load over a Warm region loses a write |
| `Tiering.BumpVisibleIff` | crates/tvm-core/src/directory.rs:728-735 | in any directory a generation bump changes the bytes of a region exactly when it has no memory and the store holds something else, or nothing, under the next key |
| `Tiering.BumpLosesColdBytes` | crates/tvm-core/src/directory.rs:728-735 | from an empty directory: create, spill and bump, and the bytes that could be read before the bump cannot be read after it |
| `Tiering.FailedSpillVisibleIff` | crates/tvm-core/src/directory.rs:166-176 | in any directory a refused spill loses bytes exactly when the region was not pinned, spillable, not Cold and had its memory and the store did not already hold those bytes under its key |
| `Tiering.RefusedSpillLosesBytes` | crates/tvm-core/src/directory.rs:166-176 | from an empty directory: create, and a spill the store refuses leaves nothing to read |
| `Handles.CompactCarries` | crates/tvm-core/src/memory_region.rs:43-55 | a handle migrated through a compaction names a live block with the old bytes |
| `Handles.FlatStepCarries` | crates/tvm-core/src/directory.rs:586-659 | any single call leaves a held block with its bytes, overlaid by whatever a successful write overlaps |
| `Handles.AllocYieldsHolder` | crates/tvm-core/src/directory.rs:586-607 | the handle of a successful allocation in a region whose bytes are there holds its block, so the run theorem below starts from every allocation |
| `Handles.HandleKeepsItsBlock` | crates/tvm-core/src/memory_region.rs:43-55 | along every run with any store that does no harm to its region, whatever is done to others, the handle migrated through all compactions reads exactly its block's bytes, overlaid by every write since, until the block or region is released |
| `Handles.StaleHandleRefused` | crates/tvm-core/src/directory.rs:751-766 | in any directory a handle of another generation is refused by strict reads and writes, dealloc and handle copies, which change nothing; a faulting access may load the region and then fails without writing |
| `Handles.RefusesIff` | crates/tvm-core/src/directory.rs:751-766 | in any directory a handle of an existing region is so refused exactly when its generation is not the current one |
| `Handles.StepGeneration` | crates/tvm-core/src/directory.rs:247-252 | in any sound directory and with any store, a successful compaction or bump of a region gives it the next generation, and no other call except its destruction changes it |
| `Handles.OldHandleStale` | crates/tvm-core/src/directory.rs:728-735 | along every run of any calls with any store, from any directory with well-formed allocators: while the region exists the old handle is refused exactly when the number of compactions and bumps of its region so far is no multiple of 65535, so for the next 1 to 65534 of them; once the region is destroyed nothing is found under its id again |
| `WarmList.OldestIsFirstFromBack` | crates/tvm-core/src/directory.rs:357-381 | the first Warm id from the back of a faithful list is the region that has been Warm longest |
| `WarmList.EvictsOldestWarm` | crates/tvm-core/src/directory.rs:357-381 | under any policies and with any store an eviction attempts the region that has been Warm longest of those not pinned; it spills it exactly when it is spillable, has its memory and the store accepts, answers the matching error otherwise, and answers `None` exactly when every Warm region is pinned |
| `WarmList.EvictForgetsIff` | crates/tvm-core/src/directory.rs:357-381 | under any policies and with any store, after an eviction the list still holds the Warm regions in order exactly when the one that has been Warm longest was not pinned |
| `WarmList.PinnedWarmIsForgotten` | crates/tvm-core/src/directory.rs:357-381 | from an empty directory: create Warm and pinnable, pin, evict, unpin, and eviction answers `None` with the region still Warm |
| `WarmList.LostRegionBlocks` | crates/tvm-core/src/directory.rs:166-176 | a Warm region that lost its memory to a refused spill makes every eviction fail, with any store, and stays the one that is attempted |
| `WarmList.SecondWarmIsStuck` | crates/tvm-core/src/directory.rs:357-381 | from an empty directory: two Warm regions, a refused eviction, and every later eviction answers not resident and changes nothing |
| `WarmList.DefaultsAreRegular` | crates/tvm-core/src/policy.rs:12-35 | the default placement policies never make a region both pinnable and spillable, and place Warm only what can be spilled |
| `WarmList.StepKeepsEvictable` | crates/tvm-core/src/directory.rs:106-139 | as long as creates use such policies no Warm region is ever pinned, whatever the store answers |
| `WarmList.StepKeepsFaithful` | crates/tvm-core/src/directory.rs:68-81 | a call, with any store, keeps each Warm region on the list exactly once, in order of its latest entry into Warm, unless it is an eviction that finds the oldest one pinned |
| `WarmList.WarmListIsFaithful` | crates/tvm-core/src/directory.rs:68-81 | along a run of any calls under any policies with any store that fidelity holds at every point exactly when no eviction finds the oldest Warm region pinned |
| `WarmList.RegularRunsAreFaithful` | crates/tvm-core/src/policy.rs:12-35 | so it holds along every run that creates regions only under policies like the default ones |
| `WarmList.EmptyDirectoryFaithful` | crates/tvm-core/src/directory.rs:61-66 | a new directory satisfies the invariant and list fidelity, so both hold on every run from it |
| `RegionDirectory.BackingStore.Spill` | crates/tvm-core/src/directory.rs:171-172 | a store keyed by id and generation keeps accepted bytes and is unchanged by a refusal |
| `RegionDirectory.BackingStore.Load` | crates/tvm-core/src/directory.rs:482-485 | a load answers the bytes last accepted under the key, or nothing |
| `DirectoryRuns.Perform` | crates/tvm-core/src/directory.rs:159-735 | each call on the directory object does what the step of the same name does to its state |
| `DirectoryRuns.PerformAll` | crates/tvm-core/src/directory.rs:159-177 | any harmless list of calls on the directory object, one after another, is answered as the flat machine answers it, and the object ends in a state whose bytes are the flat machine's |
| `RegionDirectory.RegionDirectory.LruRemove` | crates/tvm-core/src/directory.rs:68-72 | the in-place removal scan drops the first occurrence of the id and keeps the order of the rest |
| `RegionDirectory.RegionDirectory.LruPushFront` | crates/tvm-core/src/directory.rs:74-77 | an id moves to the front, the rest keeps its order, and a list without repetitions stays without |
| `RegionDirectory.RegionDirectory.CreateRegion` | crates/tvm-core/src/directory.rs:87-101 | the in-place create refines the create step under the default policy of the kind |
| `RegionDirectory.RegionDirectory.CreateRegionWithPolicy` | crates/tvm-core/src/directory.rs:106-139 | the in-place create under any policy refines the create step the run theorems are about |
| `RegionDirectory.RegionDirectory.DestroyRegion` | crates/tvm-core/src/directory.rs:565-576 | the in-place destroy refines the destroy step |
| `RegionDirectory.RegionDirectory.SpillRegion` | crates/tvm-core/src/directory.rs:159-177 | the in-place spill refines the spill step, bytes lost on refusal included |
| `RegionDirectory.RegionDirectory.LoadRegion` | crates/tvm-core/src/directory.rs:477-491 | the in-place load refines the load step, list entry left behind included |
| `RegionDirectory.RegionDirectory.PromoteRegion` | crates/tvm-core/src/directory.rs:304-327 | the in-place promotion refines the promote step |
| `RegionDirectory.RegionDirectory.DemoteRegion` | crates/tvm-core/src/directory.rs:329-355 | the in-place demotion refines the demote step |
| `RegionDirectory.RegionDirectory.EvictWarmRegion` | crates/tvm-core/src/directory.rs:357-381 | the loop over a snapshot of the list refines the eviction step |
| `RegionDirectory.RegionDirectory.Pin` | crates/tvm-core/src/directory.rs:428-435 | the in-place pin refines the pin step |
| `RegionDirectory.RegionDirectory.Unpin` | crates/tvm-core/src/directory.rs:437-440 | the in-place unpin refines the unpin step |
| `RegionDirectory.RegionDirectory.AllocAligned` | crates/tvm-core/src/directory.rs:586-607 | the in-place allocation refines the alloc step |
| `RegionDirectory.RegionDirectory.Dealloc` | crates/tvm-core/src/directory.rs:609-614 | the in-place release refines the dealloc step |
| `RegionDirectory.RegionDirectory.Read` | crates/tvm-core/src/directory.rs:616-644 | the strict read answers what the read step answers |
| `RegionDirectory.RegionDirectory.Write` | crates/tvm-core/src/directory.rs:646-661 | the strict write refines the write step |
| `RegionDirectory.RegionDirectory.CrossRegionCopy` | crates/tvm-core/src/directory.rs:663-691 | the in-place copy refines the copy function: source checks first, then destination checks, then the bytes |
| `RegionDirectory.RegionDirectory.ReadInto` | crates/tvm-core/src/directory.rs:697-710 | the generation check on the source, then that copy |
| `RegionDirectory.RegionDirectory.WriteFrom` | crates/tvm-core/src/directory.rs:714-726 | the generation check on the destination, then that copy |
| `RegionDirectory.RegionDirectory.ReadOrFault` | crates/tvm-core/src/directory.rs:387-407 | the faulting read refines its step |
| `RegionDirectory.RegionDirectory.WriteOrFault` | crates/tvm-core/src/directory.rs:409-426 | the faulting write refines its step |
| `RegionDirectory.RegionDirectory.CompactRegion` | crates/tvm-core/src/directory.rs:218-265 | the in-place compaction refines the compact step: new memory object, rebuilt allocator, bumped generation, remap |
| `RegionDirectory.RegionDirectory.Pack` | crates/tvm-core/src/directory.rs:235-245 | the copy loop with a moving cursor fills the new buffer with the live blocks end to end and zeros behind them, and records exactly the mapping and block list; it fails exactly when a block lies outside the old memory |
| `RegionDirectory.RegionDirectory.BumpGeneration` | crates/tvm-core/src/directory.rs:728-735 | the in-place bump refines the bump step |
| `Cache.IndexIsMask` | crates/tvm-core/src/cache.rs:77-79 | masking an id with the slot count less one is the slot index the cache model uses, its remainder by eight |
| `Cache.ResolveCache.constructor` | crates/tvm-core/src/cache.rs:60-75 | a new cache holds nothing and has counted nothing |
| `Cache.ResolveCache.Lookup` | crates/tvm-core/src/cache.rs:77-90 | a hit exactly when the id's slot is valid and holds the id; one counter moves and no slot does |
| `Cache.ResolveCache.LookupFast` | crates/tvm-core/src/cache.rs:143-158 | a hit exactly when the slot also has a pointer |
| `Cache.ResolveCache.Install` | crates/tvm-core/src/cache.rs:92-138 | the slot now describes the region; the seven others are as before |
| `Cache.ResolveCache.Invalidate` | crates/tvm-core/src/cache.rs:160-166 | only a slot that holds this id is dropped and counted |
| `Cache.ResolveCache.InvalidateAll` | crates/tvm-core/src/cache.rs:168-175 | afterwards every id misses |
| `Cache.InstallEvicts` | crates/tvm-core/src/cache.rs:92-138 | installing an id evicts exactly the ids that share its low three bits |
| `Cache.DroppedMisses` | crates/tvm-core/src/cache.rs:160-166 | invalidating an id makes exactly that id a miss |
| `Host.FastSlotAgrees` | crates/tvm-wasmtime/src/host.rs:689-693 | a hit or a refresh gives the directory's own generation and capacity and the region's own memory object, and fails exactly when the region is missing or not resident |
| `Host.FastReadAgrees` | crates/tvm-wasmtime/src/host.rs:621-653 | the raw read never follows a dangling or foreign pointer, and returns the bytes of the strict directory read or fails when it fails |
| `Host.FastWriteAgrees` | crates/tvm-wasmtime/src/host.rs:661-687 | the raw write leaves the directory exactly as the strict write does, and succeeds or fails with it |
| `Host.HostStepKeeps` | crates/tvm-wasmtime/src/host.rs:845-1035 | every manager, byte, copy, raw and describe call, store failures included, keeps cache and directory in agreement |
| `Host.CacheNeverDisagrees` | crates/tvm-wasmtime/src/host.rs:845-1035 | along every run of host calls, auto-faults and failing stores included, every raw access agrees with the directory |
| `Host.NewHostInv` | crates/tvm-wasmtime/src/host.rs:134-147 | a new host satisfies the agreement, so it holds on every run from it |
| `Host.FaultKeeps` | crates/tvm-wasmtime/src/host.rs:962-987 | an auto-fault installs a new memory object without invalidating anything and still keeps the agreement, because no slot points to a Cold region |
| `Host.BypassBreaksIff` | crates/tvm-wasmtime/src/host.rs:822-841 | the spill and load that skip invalidation leave a dangling pointer exactly when, before the call, the slot holds a pointer, the host has a store, and the call will go through: a load of a region that is not Hot whose bytes the store gives, or a spill of an unpinned spillable region |
| `Host.BypassLeavesWildPointer` | crates/tvm-wasmtime/src/host.rs:822-841 | from an empty host: create, read raw, spill past the cache, and the next raw read follows a dangling pointer |
| `Host.ResolveSound` | crates/tvm-wasmtime/src/host.rs:591-597 | metadata lookups always give the current generation and capacity; a stale residency flag can only say not resident |
| `TvmHost.TvmHost.constructor` | crates/tvm-wasmtime/src/host.rs:134-147 | a new host has an empty directory and cache |
| `TvmHost.TvmHost.RefreshCache` | crates/tvm-wasmtime/src/host.rs:689-693 | the refresh after a miss is the slot lookup the agreement lemmas are about |
| `TvmHost.TvmHost.HitOrRefresh` | crates/tvm-wasmtime/src/host.rs:627-630 | hit or refresh is that same lookup |
| `TvmHost.TvmHost.FastRead` | crates/tvm-wasmtime/src/host.rs:621-653 | the raw read in place refines the raw-read step |
| `TvmHost.TvmHost.FastWrite` | crates/tvm-wasmtime/src/host.rs:661-687 | the raw write in place refines the raw-write step |
| `TvmHost.TvmHost.Resolve` | crates/tvm-wasmtime/src/host.rs:591-597 | the metadata lookup in place refines its step |
| `TvmHost.TvmHost.DestroyRegion` | crates/tvm-wasmtime/src/host.rs:858-861 | invalidate, then destroy: refines the host step |
| `TvmHost.TvmHost.PromoteRegion` | crates/tvm-wasmtime/src/host.rs:890-901 | invalidate, then promote, refused without a store: refines the host step |
| `TvmHost.TvmHost.DemoteRegion` | crates/tvm-wasmtime/src/host.rs:903-914 | invalidate, then demote: refines the host step |
| `TvmHost.TvmHost.SpillRegion` | crates/tvm-wasmtime/src/host.rs:924-933 | invalidate, then spill: refines the host step |
| `TvmHost.TvmHost.LoadRegion` | crates/tvm-wasmtime/src/host.rs:935-944 | invalidate, then load: refines the host step |
| `TvmHost.TvmHost.CompactRegion` | crates/tvm-wasmtime/src/host.rs:946-959 | invalidate, then compact: refines the host step |
| `TvmHost.TvmHost.ReadBytes` | crates/tvm-wasmtime/src/host.rs:963-975 | faulting with a store, strict without: refines the host step |
| `TvmHost.TvmHost.WriteBytes` | crates/tvm-wasmtime/src/host.rs:977-987 | faulting with a store, strict without: refines the host step |
| `Concurrent.Locks` | crates/tvm-core/src/concurrent.rs:215-242 | a call takes the entry locks of exactly the regions it names, each once, in ascending id |
| `Concurrent.EffectAtLastLock` | crates/tvm-core/src/concurrent.rs:215-253 | with its last lock a call sees exactly the regions the one-at-a-time run gives it |
| `Concurrent.StepKeepsInv` | crates/tvm-core/src/concurrent.rs:143-253 | every step of every thread keeps the correspondence with the one-at-a-time run in last-lock order |
| `Concurrent.Linearizable` | crates/tvm-core/src/concurrent.rs:143-253 | under any schedule of any number of threads, each thread is answered what the one-at-a-time run in last-lock order answers it, in its own order, and when no call is under way the regions are the ones that run leaves |
| `Concurrent.NoDeadlock` | crates/tvm-core/src/concurrent.rs:492-498 | under any schedule, while some call is unfinished some thread can step |
| `Concurrent.AloneAlloc` | crates/tvm-core/src/concurrent.rs:143-154 | an uninterrupted concurrent alloc is the single-threaded alloc |
| `Concurrent.AloneDealloc` | crates/tvm-core/src/concurrent.rs:156-165 | an uninterrupted concurrent dealloc is the single-threaded dealloc |
| `Concurrent.AloneRead` | crates/tvm-core/src/concurrent.rs:167-184 | an uninterrupted concurrent read is the strict read |
| `Concurrent.AloneWrite` | crates/tvm-core/src/concurrent.rs:186-205 | an uninterrupted concurrent write is the strict write, except that it reports out of bounds where the other may report not resident |
| `Concurrent.AloneCopy` | crates/tvm-core/src/concurrent.rs:207-253 | an uninterrupted copy leaves the regions of the single-threaded copy and fails exactly when it fails |
| `Locks.DirectoryObeys` | crates/tvm-core/src/concurrent.rs:34-37 | every directory call takes locks only in the documented order and releases all of them, alone or under the host's store lock |
| `Locks.HostObeys` | crates/tvm-wasmtime/src/concurrent_host.rs:154-271 | every host call obeys the order, the store lock before any entry lock |
| `Locks.HolderMovesUp` | crates/tvm-core/src/concurrent.rs:29-37 | a thread that holds a lock has work left and waits only for locks of higher rank |
| `Locks.DeadlockFree` | crates/tvm-wasmtime/src/concurrent_host.rs:199-246 | any number of threads making any host calls under any schedule, with or without writer preference on the outer lock: while some call is unfinished, some thread can step |
| `Linker.WalkImports` | crates/tvm-guest-mm-link/src/lib.rs:167-261 | the import walk refuses exactly memory and tag imports and internal names the shell does not export, and otherwise its counters and hash maps describe the import list |
| `Linker.WalkMaps` | crates/tvm-guest-mm-link/src/lib.rs:282-331 | the closures built from those hash maps are the index maps, on every index |
| `Linker.RewriteFunctionBody` | crates/tvm-guest-mm-link/src/lib.rs:1408-1441 | refuses exactly the user bodies with a bulk memory operator, memory size or grow on a memory other than 0; every operator the rewriter does not know is copied, not refused; otherwise the rewritten operators come out in order |
| `Linker.RewriteCode` | crates/tvm-guest-mm-link/src/lib.rs:673-706 | refuses exactly when some body is refused, and otherwise emits every body rewritten |
| `Linker.ShellNeverRefused` | crates/tvm-guest-mm-link/src/lib.rs:1696-1720 | no shell body is ever refused |
| `Linker.RawShellIsRewritten` | crates/tvm-guest-mm-link/src/lib.rs:667-692 | passing shell bodies through unchanged equals rewriting them when nothing is forwarded |
| `Linker.PushMemories` | crates/tvm-guest-mm-link/src/lib.rs:513-531 | the emitted memories are the shell's with pool 0 grown to the user's minimum |
| `Linker.PushExports` | crates/tvm-guest-mm-link/src/lib.rs:552-629 | refuses exactly an alias that is out of range or shadows a name, and otherwise emits shell exports, kept user exports and aliases in order |
| `Linker.LinkWithOptions` | crates/tvm-guest-mm-link/src/lib.rs:131-724 | answers a module exactly when the inputs are linkable, and then the merged module the meaning theorems are about |
| `Linker.UserFuncsInjective` | crates/tvm-guest-mm-link/src/lib.rs:288-303 | user functions other than rewired imports never share a merged index with each other or with a shell function |
| `Linker.MergedFuncOrigin` | crates/tvm-guest-mm-link/src/lib.rs:273-303 | every merged function index is a forwarded import, a shell function or a user function: the three ranges tile the space |
| `LinkMeaning.UserFuncAddr` | crates/tvm-guest-mm-link/src/lib.rs:288-303 | a user function index and its image name the same function, rewired imports bound to the shell's exports |
| `LinkMeaning.UserOtherAddrs` | crates/tvm-guest-mm-link/src/lib.rs:306-345 | user globals, tables and types keep their referents, and so does memory 0, which is pool 0, where both sides have one |
| `LinkMeaning.IndexMeans` | crates/tvm-guest-mm-link/src/lib.rs:1696-1720 | an index that is copied without renumbering names the same type, memory, segment, global or table exactly when the condition on the section sizes holds: a type that is equal after the merge; memory 0 with a memory on both sides; an import, a side without such objects, or an index past the end |
| `LinkMeaning.UserOpMeans` | crates/tvm-guest-mm-link/src/lib.rs:1454-1720 | a rewritten user operator resolves to the same action exactly when every index it carries and the rewriter copies is kept: block types, `call_ref` types, segments, memories of loads, stores and bulk operators, and all indices of operators copied as raw bytes |
| `LinkMeaning.ShellOpMeans` | crates/tvm-guest-mm-link/src/lib.rs:1454-1720 | a valid shell operator keeps its meaning, except exactly one copied as raw bytes with a global or table index behind forwarded imports of that kind |
| `Wasm.RunSame` | crates/tvm-guest-mm-link/src/lib.rs:1454-1694 | functions whose bodies resolve alike run alike, step for step, for any semantics of the other operators |
| `Instantiation.SegmentOrder` | crates/tvm-guest-mm-link/src/lib.rs:636-648 | writing all element segments and then all data segments leaves the same store, or traps alike, as shell segments followed by user segments |
| `Instantiation.SameStores` | crates/tvm-guest-mm-link/src/lib.rs:131-724 | instantiating the merged module traps exactly when instantiating shell and user apart does, and otherwise leaves the same tables, memories, globals and segments and functions that mean the same |
| `Instantiation.LinkingPreservesMeaning` | crates/tvm-guest-mm-link/src/lib.rs:282-345 | running a user function in the merged module simulates running it in the user module bound to the shell with memory 0 shared with pool 0, for every host, all arguments and any number of steps; every function index of the user names a function of the store |
| `LinkResults.MergedExports` | crates/tvm-guest-mm-link/src/lib.rs:552-629 | the merged module exports every shell entity and every kept user entity under its own name and at its own address, then one memory per alias |
| `LinkResults.ExportNamesDistinctIff` | crates/tvm-guest-mm-link/src/lib.rs:552-629 | the merged export names are distinct, as validity demands, exactly when those of each side and the aliases are and the two sides share none: a name both sides export is not refused |
| `LinkResults.TvmImportRemainsIff` | crates/tvm-guest-mm-link/src/lib.rs:114-118 | a `tvm_mm` import remains exactly when the user imports a global or table from there; the documented promise holds for functions only |
| `LinkResults.AcceptedButInvalid` | crates/tvm-guest-mm-link/src/lib.rs:114-118 | an accepted pair whose merged module still imports from `tvm_mm` and exports one name twice |
| `LinkResults.MergedStart` | crates/tvm-guest-mm-link/src/lib.rs:633-637 | the merged start function is the shell's, at its own address |
| `LinkResults.DefaultMemory` | crates/tvm-guest-mm-link/src/lib.rs:513-531 | pool 0 has valid limits, at least the shell's and the user's minimum, and no lower maximum; other pools are unchanged |
| `LinkResults.UserFuncConst` | crates/tvm-guest-mm-link/src/lib.rs:2063-2086 | a function reference in a user global initialiser keeps its referent exactly when its index does not move |
| `LinkResults.GlobalRefersElsewhere` | crates/tvm-guest-mm-link/src/lib.rs:2063-2086 | from an empty store: a global of an accepted pair holds the user's function when the modules are instantiated apart and the shell's in the merged module |
| `LinkResults.UserGlobalConst` | crates/tvm-guest-mm-link/src/lib.rs:2105-2132 | a global reference copied without renumbering keeps its referent exactly when it names an import or the shell has no globals |
| `LinkResults.ShellConsts` | crates/tvm-guest-mm-link/src/lib.rs:2063-2086 | shell initialisers keep their referents exactly when nothing of their kind is forwarded |
| `LinkResults.AcceptedButChanged` | crates/tvm-guest-mm-link/src/lib.rs:1696-1720 | an accepted pair of modules, the user with two memories, on which a segment index, a block type, a load, a `call_ref`, a vector load and a global initialiser all change meaning |
| `Names.SortedUnique` | crates/tvm-guest-mm-link/src/lib.rs:936-944 | one entry per index in strictly ascending order, each with the name that came first in the input |
| `Names.UserFunctionName` | crates/tvm-guest-mm-link/src/lib.rs:372-402 | a user function that is no rewired import keeps the name its own module gave it |
| `Names.ShellFunctionName` | crates/tvm-guest-mm-link/src/lib.rs:372-402 | a shell function named by the shell keeps that name, and so do the imports rewired to it |
| `Names.SegmentNamesKeptIff` | crates/tvm-guest-mm-link/src/lib.rs:861-872 | segment names are not renumbered: they stay with their segments for all name lists exactly when one side has no segments |
| `Eviction.BucketComplete` | crates/tvm-core/src/concurrent.rs:427-436 | every unpinned spillable resident region is a candidate of its tier |
| `Eviction.SortedOrder` | crates/tvm-core/src/eviction.rs:95-103 | candidates come in the policy's order, ties by ascending id |
| `Eviction.SortedMultiset` | crates/tvm-core/src/eviction.rs:95-103 | sorting keeps every candidate exactly once |
| `Eviction.TotalResident` | crates/tvm-core/src/concurrent.rs:407-413 | the sum over the snapshot is the bytes used by Hot and Warm regions |
| `Eviction.Buckets` | crates/tvm-core/src/concurrent.rs:425-436 | one pass over the snapshot yields both tiers' candidates in id order |
| `Eviction.RunDemoteUntil` | crates/tvm-core/src/concurrent.rs:394-466 | the loop over an in-place directory, with a store that refuses any set of regions, refines the eviction function: candidates no longer viable are skipped, any other error ends the call |
| `Eviction.RunAllocOrDemote` | crates/tvm-core/src/concurrent.rs:474-490 | the in-place call refines its function: allocate, demote only on an allocation failure, pass on a failure of that, allocate again |
| `EvictionResults.RetryNeverHelps` | crates/tvm-core/src/concurrent.rs:474-490 | with a store that accepts, the retry after demoting fails whenever the first attempt does: the answer is always the plain allocation's, and a failing call only demotes |
| `EvictionResults.RetryFailsOrStoreDoes` | crates/tvm-core/src/concurrent.rs:474-490 | with any store, an allocation that fails is answered by its own failure again, or exactly when a candidate that is needed is refused by the store's error |
| `EvictionResults.DemoteUntilWithIs` | crates/tvm-core/src/concurrent.rs:441-465 | with any store the call does what it does with one that accepts, unless a candidate that is needed is refused; then exactly the candidates before it are spilled and the call fails |
| `EvictionResults.AbortLosesIff` | crates/tvm-core/src/concurrent.rs:452-460 | when a candidate that is needed is refused, the call fails, loses bytes of no other region, and of that one exactly when the store does not hold them already |
| `EvictionResults.LostForEver` | crates/tvm-core/src/concurrent.rs:441-465 | a resident region without memory is left alone by every call, whatever target, policy and store, and a target below its size is never met |
| `EvictionResults.CallAfterAbort` | crates/tvm-core/src/concurrent.rs:452-460 | after a call the store aborted no later call gets below the size of the region it lost |
| `EvictionResults.AbortIsFinal` | crates/tvm-core/src/concurrent.rs:452-460 | from an empty directory: create, allocate, an aborted call, and the same call with a store that accepts frees nothing and misses its target |
| `EvictionResults.DemoteUntilSpillsPrefix` | crates/tvm-core/src/concurrent.rs:441-465 | with a store that accepts, in any directory with well-formed allocators, spills exactly the shortest prefix of the queue of eligible regions that have their memory which meets the target, or all of it, with no saturation of the byte counts |
| `EvictionResults.Accounting` | crates/tvm-core/src/concurrent.rs:450-464 | resident bytes fall by exactly the bytes reported freed, the target is reported met exactly when it is, and no reader sees a difference |
| `EvictionResults.OnlyEligibleChange` | crates/tvm-core/src/eviction.rs:18-27 | a region that changed was eligible, had its memory, and is now Cold |
| `EvictionResults.WarmBeforeHot` | crates/tvm-core/src/eviction.rs:63-69 | a Hot region is spilled only after every eligible Warm one that has its memory |
| `EvictionResults.UnmetMeansExhausted` | crates/tvm-core/src/eviction.rs:73-78 | an unmet target means that no eligible region with its memory is resident any more |
| `EvictionResults.SecondCallIsIdle` | crates/tvm-core/src/eviction.rs:15-17 | a second call with the same target, under any policy, spills nothing and changes nothing |
| `EvictionResults.LargestFirstIsOptimal` | crates/tvm-core/src/eviction.rs:40-44 | with all eligible regions that have their memory in one tier, no smaller set of them brings the resident bytes to the target |
| `SharedEviction.SharedDemoteIsRun` | crates/tvm-core/src/concurrent.rs:402-464 | among any calls of other threads, before each slot is read and before each candidate's turn, the whole call is a run of plain directory calls |
| `SharedEviction.SharedAccounting` | crates/tvm-core/src/eviction.rs:73-78 | for every schedule the target counts as met exactly when the bytes read minus the bytes counted are at most the target; then at most the target and the bytes that calls of others raised meanwhile are resident |
| `SharedEviction.CountsIff` | crates/tvm-core/src/concurrent.rs:444-461 | a candidate counts exactly when it is unpinned, spillable and, at its turn, Cold already or taken by the store; what its turn takes off the resident total is what it holds then |
| `SharedEviction.UnmetHasTriedAll` | crates/tvm-core/src/concurrent.rs:420-464 | a call that misses its target has tried to spill every region that was eligible when it was read |
| `SharedEviction.SharedIsPlainAlone` | crates/tvm-core/src/concurrent.rs:402-464 | without calls of others, and with any refusals of the store, this is the call that the loop over the directory class makes |
| `SharedEviction.CountedTwice` | crates/tvm-core/src/eviction.rs:73-74 | a run from an empty directory: another thread spills the region first, and the call counts its byte too, although it frees nothing |
| `SharedEviction.MetYetAbove` | crates/tvm-core/src/eviction.rs:75-76 | a run from an empty directory: another thread uses a new region meanwhile, the target counts as met and is not |
| `SharedEviction.UnmetYetBelow` | crates/tvm-core/src/eviction.rs:75-76 | a run from an empty directory: another thread destroys the region meanwhile, the target counts as missed and is met |
| `SharedEviction.SharedRetryNeedsRoom` | crates/tvm-core/src/concurrent.rs:474-490 | among any calls of other threads the retry of a failed allocation fails again, unless one of them frees in, compacts or destroys that very region |
| `Guest.TurnCovers` | crates/tvm-guest-mm/src/directory.rs:289-297 | round-robin from any cursor visits every pool of the band |
| `Guest.IdIsSlotIff` | crates/tvm-guest-mm/src/directory.rs:92-126 | a successful create's id is its slot index exactly when no earlier create failed |
| `GuestRuns.FailedCreateShiftsIds` | crates/tvm-guest-mm/src/directory.rs:92-126 | from an empty directory: after one failed create the next region answers to an id that resolves to nothing |
| `Guest.GuestDirectory.constructor` | crates/tvm-guest-mm/src/directory.rs:69-77 | a directory over valid pools starts with every invariant |
| `Guest.GuestDirectory.ScanBand` | crates/tvm-guest-mm/src/directory.rs:285-298 | picks the first pool with room in turn from the cursor and moves the cursor behind it, or finds that none has room |
| `Guest.GuestDirectory.ChoosePool` | crates/tvm-guest-mm/src/directory.rs:266-300 | a pool of the other band only when the preferred band is full; failure exactly when no pool has room |
| `Guest.GuestDirectory.CreateRegion` | crates/tvm-guest-mm/src/directory.rs:86-127 | appends the region at the used end of a pool with room, keeps all ranges disjoint, consumes an id even on failure, and fails exactly when ids or room run out |
| `Guest.GuestDirectory.Alloc` | crates/tvm-guest-mm/src/directory.rs:129-138 | allocates in the region with the allocator's first fit and answers a handle of the current generation; a missing region changes nothing; no other slot changes |
| `Guest.GuestDirectory.Dealloc` | crates/tvm-guest-mm/src/directory.rs:140-148 | releases the named block of a current handle; missing regions and stale handles change nothing; no other slot changes |
| `Guest.GuestDirectory.Pin` | crates/tvm-guest-mm/src/directory.rs:169-176 | sets the flag of a pinnable region and nothing else, or answers the error and changes nothing |
| `GuestRuns.UnpinnedStaysPinned` | crates/tvm-guest-mm/src/facade.rs:276-283 | from an empty directory: create, pin, unpin, and the compaction is still refused as pinned, since unpin does nothing |
| `Guest.GuestDirectory.Resolve` | crates/tvm-guest-mm/src/directory.rs:153-163 | base plus offset for a current handle; missing, stale and overflowing handles are refused in this order |
| `Guest.GuestDirectory.CompactRegion` | crates/tvm-guest-mm/src/directory.rs:195-253 | success exactly when every moving block lies in the pool's memory; then blocks are packed, remapped and renewed as a whole; a refusal at some block leaves the table alone and the pool as the slides before that block leave it; no byte outside the region and no other slot ever changes |
| `Guest.GuestDirectory.SlideAll` | crates/tvm-guest-mm/src/directory.rs:209-233 | the loop of overlapping copies performs the slides in order and stops at the first that does not fit |
| `Guest.GuestDirectory.IntraPoolCopy` | crates/tvm-guest-mm/src/dispatch.rs:803-814 | an overlapping copy inside a pool behaves as if through a scratch buffer |
| `Guest.PendingUntouched` | crates/tvm-guest-mm/src/directory.rs:216-233 | the place a block is copied to ends before every block that has not moved yet |
| `Guest.SlidesGather` | crates/tvm-guest-mm/src/directory.rs:216-233 | after any number of slides the moved blocks lie packed with their original bytes and the rest of the region above is untouched |
| `Guest.GuestPacksAsHost` | crates/tvm-guest-mm/src/directory.rs:195-253 | the packed bytes are those of the host's out-of-place compaction of the same region |
| `Guest.GuestBlockMoves` | crates/tvm-core/src/memory_region.rs:43-55 | a handle migrated through a guest compaction reads its own bytes |
| `Guest.OthersUntouched` | crates/tvm-guest-mm/src/directory.rs:86-127 | every other region of the pool keeps its bytes |
| `Guest.RefusedUnchangedIff` | crates/tvm-guest-mm/src/directory.rs:217-224 | a compaction refused at some block leaves the pool as it was, whatever it holds, exactly when no earlier block had to move |
| `Guest.RefusedKeepsBlocksIff` | crates/tvm-guest-mm/src/directory.rs:217-224 | a refused compaction loses no live byte, whatever the pool holds, exactly when no block that moved landed on old bytes of itself or of an earlier block |
| `GuestRuns.RefusedCompactionLosesBytes` | crates/tvm-guest-mm/src/directory.rs:217-224 | from an empty directory: three allocations, a release and a compaction that is refused, after which a handle that is still current reads other bytes than before |
| `GuestFacade.CachedIsResolveIff` | crates/tvm-guest-mm/src/facade.rs:214-241 | the single-entry cache answers as the directory for every handle exactly when its entry is the directory's current one |
| `GuestFacade.GuestReadAgrees` | crates/tvm-guest-mm/src/facade.rs:258-265 | in any directory over any pools a guest read answers as the host's strict read of the regions taken apart, except exactly for reads past the region's end that stay in the pool, which succeed |
| `GuestRuns.ReadPastTheEnd` | crates/tvm-guest-mm/src/facade.rs:258-265 | from an empty directory: a read past the end of one region returns a byte written through its neighbour's handle |
| `GuestFacade.WriteStaysInsideIff` | crates/tvm-guest-mm/src/facade.rs:267-274 | writes leave the rest of the pool alone, whatever the data, exactly when they are empty or end inside the region |
| `GuestFacade.WriteKeepsOthers` | crates/tvm-guest-mm/src/facade.rs:267-274 | a write that ends inside its region changes no byte of any other region |
| `GuestFacade.GuestTvm.CachedResolve` | crates/tvm-guest-mm/src/facade.rs:214-241 | whatever the cache holds, the answer is the directory's |
| `GuestFacade.GuestTvm.CreateRegion` | crates/tvm-guest-mm/src/facade.rs:245-248 | creating a region keeps every existing handle's place and the cache right |
| `GuestFacade.GuestTvm.Read` | crates/tvm-guest-mm/src/facade.rs:258-265 | returns the pool bytes at the resolved place, or fails when the handle does or the pool ends |
| `GuestFacade.GuestTvm.Write` | crates/tvm-guest-mm/src/facade.rs:267-274 | replaces exactly those pool bytes and nothing else in any pool, or changes nothing |
| `GuestFacade.GuestTvm.CompactRegion` | crates/tvm-guest-mm/src/facade.rs:198-206 | does what the directory's compaction does to the region's pool and to no other, keeps the cache right, and refuses handles of the old generation afterwards |
| `Dispatch.DispatchIsExact` | crates/tvm-guest-mm/src/dispatch.rs:52-97 | for every number of pools, a pool in range reaches exactly its own memory and any other traps |
| `Dispatch.BuildLeaves` | crates/tvm-guest-mm/src/dispatch.rs:865-885 | one leaf per memory in order, and one test fewer than leaves |
| `Dispatch.BuildDepth` | crates/tvm-guest-mm/src/dispatch.rs:865-885 | the tree's depth is the logarithm of the pool count, rounded up |
| `Dispatch.PagesComputedIff` | crates/tvm-guest-mm/src/dispatch.rs:948-958 | the 32-bit page computation is right exactly for ends up to 0xFFFF0000, and 0 above |
| `Dispatch.GrowCovers` | crates/tvm-guest-mm/src/dispatch.rs:948-958 | for ends up to 0xFFFF0000 a granted grow covers the end, never shrinks, and happens only when needed |
| `Dispatch.GrowWraps` | crates/tvm-guest-mm/src/dispatch.rs:948-958 | above 0xFFFF0000 nothing ever grows |
| `Dispatch.CopyLandsInPool` | crates/tvm-guest-mm/src/dispatch.rs:131-154 | with grows granted, the bytes of a copy whose source is in range and whose end can be covered land in the chosen pool, and nothing else changes |
| `Dispatch.CopySucceedsIff` | crates/tvm-guest-mm/src/dispatch.rs:131-154 | with grows granted and its source in range a copy succeeds exactly when its pool exists and its end fits 32 bits and is at most 0xFFFF0000 or covered by the pool already |
| `Dispatch.CopyTraps` | crates/tvm-guest-mm/src/dispatch.rs:138-147 | a pool out of range or an end past the address space traps whatever the memories |
| `Simd.WrapIsModulo` | crates/tvm-guest-mm/src/dispatch.rs:198-206 | the cursor arithmetic of the kernel models is 32-bit wrap-around addition |
| `Simd.WrapInjective` | crates/tvm-guest-mm/src/dispatch.rs:198-206 | cursors of two positions of a range differ even when the range ends at 2^32, so the equality test ends the loop at the right place |
| `Simd.QuadsSum` | crates/tvm-guest-mm/src/dispatch.rs:207-216 | no lane of the widening chain overflows: four results add up to the sum of sixteen bytes |
| `Simd.SimdSum` | crates/tvm-guest-mm/src/dispatch.rs:194-231 | vector loop, horizontal add and tail return the byte-by-byte sum for every range, up to the last byte of a 4 GiB pool |
| `Simd.SimdPopcount` | crates/tvm-guest-mm/src/dispatch.rs:447-494 | the kernel returns the sum of the bytes' population counts |
| `Simd.MaskCounts` | crates/tvm-guest-mm/src/dispatch.rs:409-445 | the population count of the match mask is the number of matches |
| `Simd.SimdCountByte` | crates/tvm-guest-mm/src/dispatch.rs:409-445 | the kernel counts low-byte matches in the vector part and whole-argument matches in the tail, on every range |
| `Simd.KernelCountIff` | crates/tvm-wasmtime/src/host.rs:312-320 | for a search byte that is the host's byte-by-byte count; for a wider argument it counts the low byte exactly when the tail holds none of it |
| `Simd.WideArgumentMissesTail` | crates/tvm-guest-mm/src/dispatch.rs:409-445 | one byte 65 asked for 321: the kernel answers none, a count of the low byte answers one |
| `Simd.MaskFinds` | crates/tvm-guest-mm/src/dispatch.rs:496-538 | the lowest set bit of the mask is the first match, and an empty mask means no match |
| `Simd.SimdFindByte` | crates/tvm-guest-mm/src/dispatch.rs:496-538 | the kernel returns the first match of its vector and tail parts, and -1 exactly when there is none |
| `Simd.KernelFindIsFind` | crates/tvm-wasmtime/src/host.rs:281-289 | for a search byte that is the first index of the byte |
| `SimdFolds.LaneExtremes` | crates/tvm-guest-mm/src/dispatch.rs:540-681 | the extreme of lane-wise extremes is the extreme of both operands |
| `SimdFolds.SimdMinMax` | crates/tvm-guest-mm/src/dispatch.rs:540-681 | the kernel returns the minimum and maximum of the bytes, and 255 and 0 on an empty range, as the host reducer does |
| `SimdFolds.LaneFold` | crates/tvm-guest-mm/src/dispatch.rs:270-406 | folding two vectors combined lane by lane is folding both |
| `SimdFolds.LadderFolds` | crates/tvm-guest-mm/src/dispatch.rs:270-406 | the shift ladder folds the eight bytes of a lane for xor, and and or alike, whatever the shifts bring in at the top |
| `SimdFolds.SimdFold` | crates/tvm-guest-mm/src/dispatch.rs:270-406 | the xor, and and or kernels return the byte-by-byte fold on every range |
| `Gather.Decode` | crates/tvm-wasmtime/src/raw_linker.rs:270-279 | decodes little-endian words in order |
| `Gather.IsDense` | crates/tvm-wasmtime/src/raw_linker.rs:283-289 | recognises exactly the index lists whose wrapping steps all equal the item size |
| `Gather.SplitRead` | crates/tvm-wasmtime/src/raw_linker.rs:293-301 | one read of adjacent ranges gives the bytes of both, or the first error of reading them one after another |
| `Gather.DenseIsPerIndex` | crates/tvm-wasmtime/src/raw_linker.rs:293-315 | one bulk read of a dense list answers as the per-index loop, bytes or error, additions that wrap included |
| `Gather.ReadGather` | crates/tvm-wasmtime/src/raw_linker.rs:290-317 | whichever path the handler takes, it answers as the per-index loop |
| `MannWhitney.Range` | crates/tvm-test-harness/src/lib.rs:134-137 | the statistic lies between 0 and 1, and swapping the samples complements it to 1 |
| `MannWhitney.RunRank` | crates/tvm-test-harness/src/lib.rs:152-160 | the averaged rank of a run of ties is what the tied value scores against everyone plus one half |
| `MannWhitney.AverageRanks` | crates/tvm-test-harness/src/lib.rs:150-161 | the loop over tie runs gives every element its averaged rank |
| `MannWhitney.FirstSampleSum` | crates/tvm-test-harness/src/lib.rs:162-167 | the loop adds up exactly the first sample's ranks |
| `MannWhitney.PooledSum` | crates/tvm-test-harness/src/lib.rs:162-168 | that rank sum exceeds n(n+1)/2 by exactly the pairs won plus half the pairs tied |
| `MannWhitney.MannWhitneyU` | crates/tvm-test-harness/src/lib.rs:138-169 | the rank-sum computation equals pairs won plus half the ties over all pairs, for every pair of samples, one half when one is empty |

## Left out

- Region allocators inside the directory are held as their live blocks; the free list is proved
  separately against them (`Allocator.FreelistAllocator`), and `Allocator.CoalescedUnique` shows that it
  carries no further information. `meta.used` is the derived sum of live sizes. Storage order of hash
  maps and the aliasing of the free-list vector are not part of the values.
- The slab allocator, and bump and slab allocators on their own: a bump pointer appears only inside a region.
- The External tier with its loaders, per-region metrics, and snapshot and restore of regions to files.
- The asynchronous twins of directory calls, which repeat the synchronous ones.
- File, network and wasm-engine input and output: the store is a map from (id, generation) to bytes.
- Region buffers longer than the capacity, and host `read` and `write` buffers of 4 GiB and more.
- Lock poisoning, and creation, destruction, pinning and compaction in the linearizability model; their
  lock use is part of `Locks`.
- The locks model has no `demote_until` outcomes. `SharedEviction` takes every step of the call and every call of
  others as one whole, and an entry that is destroyed while a call still holds it is no longer there.
- Concurrent.AloneWrite: does not fix which error wins when a region is both too small and not resident, because the two directories check in a different order.
- Concurrent.AloneCopy: does not fix which error a failing copy reports, because the concurrent code looks up both regions before it looks inside either.
- Host.FastReadAgrees: does not fix which error is reported, because the raw path checks residency and bounds in another order than the directory.
- Host.FastWriteAgrees: as for reads, error kinds may differ.
- Tiering.TieringIsInvisible: leaves out runs with a load over a Warm region, a bump of a Cold one, a create under a policy that says Cold or a refused store call, because there the property is false of the region concerned; the exact conditions are `Tiering.LoadVisibleIff`, `Tiering.BumpVisibleIff`, `Tiering.CreateVisibleIff` and `Tiering.FailedSpillVisibleIff`, and `RegionRuns.RegionIsInvisible` keeps the result for every other region of such a run.
- Eviction.RunDemoteUntil: runs over the directory of one thread; what other threads do between snapshot and spill is in `SharedEviction`, as a function.
- Eviction.RunAllocOrDemote: as for `Eviction.RunDemoteUntil`.
- Instantiation.LinkingPreservesMeaning: assumes that the shell's exports name functions it has and that both modules avoid what the linker does not renumber, because meaning changes otherwise; that the user has at most one memory and the shell a pool for it; the start function is an address called after instantiation, and import signatures are not checked.
- The linker's refusals are one `None` each, without their messages; a `panic` on an unsupported global
  initialiser counts as a refusal. Index sums are unbounded, where the code adds 32-bit numbers.
- Value types are opaque numbers: a type index inside a reference type (of a local, a parameter or a null
  reference in an initialiser) is not renumbered by the code and not modelled. The rewriter's one remaining
  refusal, an operator without bytes, cannot happen for a parsed operator.
- Binary parsing and encoding of modules, positions of custom sections, local and label names, exact
  function types, and tags other than their refusal and export.
- Host functions that call back into the module while it runs are values of the semantics, not modelled
  calls.
- Dispatch trees and kernels are data and loops, not their WAT text; the typed and indirect variants of
  the same tree, hashing, byte histograms, and the other host reducers without a vector kernel.
- The wasm memory access of `read_gather` around its read step, and the component-model twins of the raw
  handlers.
- Handles packed into 64 bits, diagnostics, the shared wrappers, and the facade's alloc and dealloc, which
  forward to the directory's.
- Guest pools beyond 65535 and guest memories whose accesses fail for other reasons than their length.
- The stable sorts of the standard library are functions; the rank-sum statistic is over reals, so
  floating-point rounding is not part of it.

# Orthotope: a verified model

Orthotope is a slab allocator. Small requests are served from per-thread caches, which refill
from a shared central pool, which is fed by a lock-free bump arena; large requests go through
a live registry and a best-fit pool of freed blocks. This project models those parts and
proves what they keep true together, above all that **each small block is in exactly one
place in every interleaving of any number of threads**.

`dafny verify dfyconfig.toml` checks everything.

## How it is built

- **Specifications on values.** `CacheModel` (one class of a thread cache), `PoolModel` (one
  class of the central pool), `Headers` (the 64-byte header), `Arena` (reservation arithmetic and
  carving), `SizeClasses` (classes and cache sizing). `CacheBags` shows that every cache
  operation adds or takes exactly the blocks it should.
- **The code's own data structures, as classes.** `FreeLists` (intrusive lists and batches in
  shared header memory), `RemoteReturns` (staging list and inbox built from them),
  `LocalCache` (slab records, sorted index, availability vector with back-pointers, counters),
  `ClassPools` (records, buckets with back-pointers, epochs, sweep cursor), `LargeObjects`
  (live registry, size buckets, counters), `GlobalAlloc` (fallback prefix). Every method is
  proved against the functions of the specification layer; `SlabIndex` holds the binary
  search both layers share.
- **The whole allocator as a state machine.** `AllocatorModel` is a state with all headers,
  links, caches, pools, inboxes, live blocks and the arena cursor, and one function per
  action, written with the same specification functions. `AllocatorSteps` makes them steps: one label
  per lock section or compare-exchange, with the cache-local work beside it, taken by any
  cache at any time. `AllocatorMoves`, `AllocatorActions`, `DrainActions`, `RefillActions`,
  `PoolActions`, `AllocatorInvariant`, `AllocatorSafety` and `AllocatorRuns` prove the
  invariant for every action, step and run; `AllocatorFrames` and `AllocatorEffects` say what
  each step changes; `AllocatorTheorems` states the results. `AllocatorSweeps` treats the sweeps
  inside lock sections, `AllocatorTransfers` how many blocks each step moves and where to,
  `AllocatorDoubleFrees` how long a double free is reported, `AllocatorDrains` draining a cache while other threads run,
  `AllocatorProgress` that every operation can be taken and ends, `AllocatorConfigs` runs that
  start from a configuration and what its sizing numbers promise. `LargeBlocks` does the same for large allocations, whose two
  lock sections leave blocks in transit, and `SharedArena` runs both machines over one cursor.

Two kinds of steps are more liberal than the code, so the results hold for more than it can
do: a cold sweep may happen at any time to any hot full slab (a sweep inside a lock section may
as well follow it, as `AllocatorSweeps.SweepThenTake`, `SweepThenLoan` and `SweepThenReturn` show), and the system may zero the
header of an untouched block, or of a block in a cold slab, at any later time. A free step
may name any block start ever carved, so double frees are covered.

## Where the code and its descriptions part

- `register_slab` resets the record of a known span without taking it out of its bucket
  (src/central_pool.rs:235-239, 522-541). `ClassPools.ResetIsCoherentIffLoaned` shows this
  is right exactly when the slab is lent out, and `AllocatorTheorems.RegistrationIsAlwaysNew`
  that the branch is never taken.
- `allocate_large` takes its block before the header can refuse its size
  (src/allocator.rs:358-378). `LargeBlocks.LostOnlyWhenNotEncodable` shows that a block is
  lost exactly for requests above 2^32 - 64 bytes (or for all under an alignment above 2^32);
  every other step conserves every block. `LargeBlocks.TooLargeRequestLosesItsBlock` reaches the loss
  for every such request, `LargeBlocks.FourGibibytesAreLost` for 4 GiB from an 8 GiB arena.
- A drain moves at most `drain_count` blocks and a refill may bring more than `local_limit`, so
  a class may stay above it. `AllocatorConfigs.LimitExceededIff` shows that this happens exactly
  when min(refill_count, arena size / block size) exceeds local_limit + 1.
- README.md:76-82 does not promise that a second free is detected once a cold page has lost
  its marker. In debug builds it is detected: a zeroed header does not decode
  (`AllocatorTheorems.FreeIsExact`).

## Model

| member | source | states |
|---|---|---|
| AllocatorTheorems.ExactlyOnePlace | src/allocator.rs:235-335 | in every reachable state each block of each registered slab is in exactly one place, with multiplicity one |
| AllocatorTheorems.OnlyRegisteredBlocks | src/central_pool.rs:227-250 | a block found anywhere belongs to a registered slab, of one class only |
| AllocatorTheorems.NoStepLosesABlock | src/allocator.rs:489-516 | after any step a registered block is still registered and still in exactly one place |
| AllocatorTheorems.LiveLedger | src/allocator.rs:235-303 | an allocation issues a block that was not live, under the header a full rewrite would give, whatever path it took; an accepted free removes its block; no other step changes what is live |
| AllocatorTheorems.LiveBlocksAreSound | src/header.rs:485-509 | a live block's header decodes to its class and request, its tail is zero, header and payload fit its own block, and live blocks do not overlap |
| AllocatorTheorems.BlockIsAligned | src/arena.rs:200-209 | live blocks start at multiples of 64 |
| AllocatorTheorems.FreeIsExact | src/allocator.rs:392-456 | a free of a block start succeeds iff the block is live and a given size matches; a wrong size is reported with both sizes, a block that is not live as a double free iff its header still decodes and as corrupt otherwise; a refused free changes nothing |
| AllocatorTheorems.MarkerWordsAreExact | src/header.rs:606-645 | on every block start ever carved, the bits of the stored word equal the block's own marker iff the block is marked freed |
| AllocatorSafety.FreeCheckExact | src/allocator.rs:439-475 | the same for every state inside a step: decode, ownership, the 64-bit marker word and the size check give exactly these answers |
| AllocatorSafety.ForeignBlocksAreRefused | src/allocator.rs:439-449 | a header that decodes as small outside the arena's block starts is refused as foreign, whatever else it says |
| AllocatorDoubleFrees.DoubleFreeIsReported | src/allocator.rs:439-456 | after an accepted free every further free of the block is a double free, through any cache and with any size, until its header is written again |
| AllocatorDoubleFrees.HeadersStay | src/thread_cache.rs:770-814 | which happens only when it is issued, when a drain takes it fresh from a lent slab, or when its page is erased |
| AllocatorTheorems.ListsAreDisjointChains | src/free_list.rs:60-204 | every intrusive list is at once a duplicate-free, null-ended chain of non-null blocks in the one link memory, fixed by its head and length, and no two share a block |
| AllocatorTheorems.LentSlabIsHeldByNobody | src/central_pool.rs:329-357 | when a slab is lent whole, every block of it is at that central slab and nowhere else |
| AllocatorTheorems.StaleRecordsAreEmpty | src/thread_cache.rs:703-710 | a local record that a lent slab resets has its geometry and holds nothing, in every cache |
| AllocatorTheorems.UntouchedBlocksHaveOneCache | src/thread_cache.rs:457-484 | at most one cache has untouched blocks of a slab |
| AllocatorTheorems.RegistrationIsAlwaysNew | src/central_pool.rs:227-250 | a span about to be registered starts no slab the pool or any cache knows |
| AllocatorTheorems.ReturnsFindTheirSlab | src/central_pool.rs:288-315 | a block outside the center has a registered slab that is not full and misses it |
| AllocatorTheorems.ReturnsAreAlwaysPossible | src/central_pool.rs:119-131 | the whole inbox, and after it any batch a cache drains, meets what `return_batch` demands of its callers |
| AllocatorConfigs.NewAllocatorIsReachable | src/allocator.rs:49-62 | every valid configuration and aligned base starts a run |
| AllocatorConfigs.RetentionIsBounded | src/config.rs:25-42 | between steps a class keeps at most the configured local_limit, or fewer than its largest refill, and stages fewer than drain_count |
| AllocatorConfigs.LimitExceededIff | src/thread_cache.rs:179-189 | a state above local_limit is reachable iff min(refill_count, arena size / block size) exceeds local_limit + 1 |
| AllocatorConfigs.SmallRefillsStayWithinLimit | src/config.rs:25-42 | with refill_count at most local_limit + 1 every reachable class is within local_limit |
| AllocatorDrains.OthersLeaveCacheAlone | src/thread_cache.rs:262-335 | a step of another thread, the sweeper or the system leaves every class, staging list and phase of a cache as it was |
| AllocatorDrains.DrainStepAccounts | src/thread_cache.rs:216-335 | each batch or flush hands the center exactly what leaves the cache; a batch has at least one block, a flush everything staged |
| AllocatorDrains.DrainStretchAccounts | src/thread_cache.rs:343-370 | however other threads interleave, a draining class takes at most its total in batches, what it no longer holds was returned block for block, and one flush empties its staging list for good |
| AllocatorDrains.DrainLoopEndsEmpty | src/thread_cache.rs:350-369 | another drain step is possible exactly while the class is not empty |
| AllocatorDrains.DrainedCacheIsEmpty | src/thread_cache.rs:343-370 | flushed and with no drain step left, class and staging list are empty and all they held has been returned, with anything in between |
| AllocatorDrains.UndisturbedDrain | src/thread_cache.rs:343-370 | with nobody else acting the central count grows by exactly what was returned |
| AllocatorTheorems.QuiescenceRestoresSlabs | src/central_pool.rs:161-175 | with nothing live and all caches drained, the next inbox drain makes every slab full again |
| AllocatorTheorems.MissFindsNothing | src/central_pool.rs:110-115 | a refill that finds nothing had an empty class, an empty inbox and no central block |
| AllocatorTheorems.OutOfMemoryIsHonest | src/allocator.rs:305-326 | out of memory follows such a miss by the same cache, with the class still empty and no whole block left in the arena, then and in every later state |
| AllocatorTheorems.FreedBlockIsNextAllocated | src/thread_cache.rs:179-189 | a block freed through its owner is what that cache allocates next from the class, whatever other threads do in between and even if the free drained |
| AllocatorSweeps.ColdPagesAreUnused | src/arena.rs:230-246 | between steps and wherever a lock section sweeps, the pages that advice for a full slab drops hold bytes of blocks of that slab only, none of them live or on a list |
| AllocatorSweeps.SweepAdvisesUnusedPages | src/central_pool.rs:384-418 | at each of these points the pages dropped by the pool's own sweep hold only unused blocks of the slab it swept, and its effect is the sweep step of the state machine |
| AllocatorSweeps.SweepPointInv | src/central_pool.rs:161-175 | the invariant holds after the inbox drain, after a refill has left the pool, after a registration and after a return, so at every sweep |
| AllocatorSweeps.SweepThenTake | src/central_pool.rs:110-115 | a batch refill after a sweep is the sweep after the refill |
| AllocatorSweeps.SweepThenLoan | src/central_pool.rs:110-115 | and so is a slab refill, where a swept slab that is lent is as if never swept |
| AllocatorSweeps.SweepThenReturn | src/central_pool.rs:124-132 | and the return of a whole batch |
| AllocatorTransfers.CarveTakesWhatFits | src/arena.rs:134-147 | in every reachable state a reservation starts at the first aligned address behind the cursor and takes as many blocks as fit, up to a refill |
| AllocatorTransfers.RefillBringsAll | src/central_pool.rs:586-600 | a batch refill brings as many blocks as a refill allows and its slab holds, a slab refill the whole slab |
| AllocatorTransfers.HitTakesNearest | src/thread_cache.rs:497-537 | a hit takes the hot block, else one of a local slab, reclaimed before fresh, else the first shared one |
| AllocatorTransfers.HitKeepsLinks | src/allocator.rs:257-300 | it writes the link word of a fresh block only; a reused block keeps its stale one |
| AllocatorTransfers.LocalFreeDrains | src/thread_cache.rs:312-335 | a free through the owner hands over nothing up to local_limit, and above it drain_count blocks or all of its source |
| AllocatorTransfers.RemoteFreeStages | src/allocator.rs:507-514 | a free through another cache stages its block in front; at drain_count the whole list goes to the inbox, in order |
| AllocatorTransfers.FreedBlocksGoHome | src/thread_cache.rs:540-583 | the previous hot block goes in front of its own slab's list if the cache has a record of it, else of the shared list; nothing else moves |
| AllocatorTransfers.OnlySweepsCool | src/central_pool.rs:384-418 | no step but a sweep turns a slab cold |
| AllocatorTransfers.RegainingSlab | src/central_pool.rs:562-584 | a slab that a step gives blocks back is full and hot if it misses none any more, and partial otherwise |
| AllocatorProgress.AllocationCanBegin | src/allocator.rs:241-254 | an idle cache can begin any small allocation, in one way: from its class iff that holds a block, else from the center iff that does, else by a miss |
| AllocatorProgress.FreeCanBegin | src/allocator.rs:489-516 | an idle cache can take a free of any block start ever carved, with any size given |
| AllocatorProgress.LiveBlockCanBeFreed | src/allocator.rs:439-516 | every live block can be freed through every idle cache, and then is no longer live |
| AllocatorProgress.CarvingCanGoOn | src/allocator.rs:305-335 | a cache that missed can reserve or else reports exhaustion, one or the other, and can always register what it reserved |
| AllocatorProgress.AllocationIsAnswered | src/allocator.rs:235-335 | whatever other threads do in between, within three steps of its own an allocation has been issued a block, or no block of its class fits the arena |
| AllocatorRuns.StepKeepsInv | src/allocator.rs:235-516 | every step of every cache, sweep and page reclaim keeps the invariant |
| AllocatorRuns.RunInv | src/allocator.rs:235-516 | hence every state of every run satisfies it |
| AllocatorMoves.MoveKeepsInv | src/free_list.rs:60-204 | moving blocks between two places whose ends are sound keeps placement, lists, headers and geometry everywhere |
| AllocatorInvariant.DetachIsDrain | src/thread_cache.rs:593-644 | the concurrent actions of a drain leave the cache and the batch that `pop_batch` specifies |
| AllocatorInvariant.DrainToFrame | src/thread_cache.rs:312-335 | a drain returns inbox and batch to the pool in order and leaves every other cache, class and live block alone |
| AllocatorEffects.DrainToCount | src/central_pool.rs:124-132 | inbox plus central count grows by exactly what left the cache |
| AllocatorFrames.StepFrame | src/allocator.rs:235-335 | the cursor only moves by reservations, and forward; only a miss leads to carving; other caches stay as they were; hot blocks survive all steps that do not use their slot |
| RefillActions.PopWritesFullHeader | src/allocator.rs:257-300 | on each reuse path the partial refresh leaves the header a full write would |
| RefillActions.LoanFindsNothing | src/thread_cache.rs:457-484 | a full central slab has no block in the record its loan resets |
| PoolActions.EraseBlockInv | src/arena.rs:256-272 | zeroing the header of an untouched block or a block of a cold slab keeps the invariant |
| Headers.RefreshEqualsRewrite | src/header.rs:290-346 | refreshing request (and owner) of an initialized header equals rewriting it |
| Headers.ValidateIsExact | src/header.rs:485-509 | validation is the inverse of the writers: a header decodes as small or large iff its checked fields are those written for its own class and sizes |
| Headers.InitializedIsBlank | src/header.rs:259-279 | a header initialized by a drain names a class, but no request and no owner, and does not decode |
| Headers.SmallRoundTrip | src/header.rs:485-509 | a small header decodes to its class exactly for requests the class can hold |
| Headers.LargeRoundTrip | src/header.rs:474-483 | a large header is written iff its size fits 32 bits, and decodes to its own sizes |
| Headers.MarkerNeverZero | src/header.rs:606-608 | the freed marker of a 64-aligned block is never the cleared word, bit by bit |
| Headers.MarkedFreedIsFlag | src/header.rs:611-619 | for a 64-aligned address its word is aligned bit by bit, so the word comparison at that address is the flag |
| Headers.MarkerWordDecides | src/header.rs:611-645 | so comparing the marker word decides whether the block is marked freed |
| FreeLists.ChainIsUnique | src/free_list.rs:60-204 | head word and length determine a list, so its ghost contents add nothing |
| FreeLists.FreeList.PushBlock | src/free_list.rs:60-77 | pushes in front, with one write; chains without the block are unchanged |
| FreeLists.FreeList.PopBlock | src/free_list.rs:79-96 | returns the block pushed last, or none |
| FreeLists.FreeList.PopBlockUnchecked | src/free_list.rs:98-118 | the same for a non-empty list, without writing to memory |
| FreeLists.FreeList.PushBatch | src/free_list.rs:120-149 | puts the batch in front, in its order; the only write links its tail to the old head |
| FreeLists.FreeList.PopBatch | src/free_list.rs:151-168 | detaches exactly the first `max` blocks, or all of a shorter list; the only write ends the batch |
| FreeLists.FreeList.PopBatchUnchecked | src/free_list.rs:170-204 | the same for a non-empty list, walking the chain; other chains are unchanged |
| FreeLists.Batch.PopBlockUnchecked | src/free_list.rs:234-255 | consumes a batch from its front and clears the tail with the last block |
| FreeLists.Batch.FromSingle | src/free_list.rs:261-273 | a detached block becomes a batch of one that ends in null |
| RemoteReturns.RemoteReturnCache.PushBlock | src/thread_cache.rs:413-419 | stages a block in front and counts it |
| RemoteReturns.RemoteReturnCache.FlushTo | src/thread_cache.rs:216-238 | the staged list goes in front of the inbox, in order; both counts stay right |
| RemoteReturns.RemoteReturnInbox.TakePending | src/central_pool.rs:197-206 | empties the inbox into one batch, in order; chains without its tail are unchanged |
| Arena.PlanFits | src/arena.rs:82-179 | a reservation starts at the first aligned offset behind the cursor, lies inside the arena and has the size asked, or as many whole blocks as fit, up to the target |
| Arena.PlanFailsWhenNoBlockFits | src/arena.rs:134-147 | blocks are refused exactly when not one fits behind the aligned cursor |
| Arena.NoFitForever | src/arena.rs:82-179 | what does not fit never fits again |
| Arena.CarveOnce | src/allocator.rs:311-332 | the blocks of a span are distinct |
| Arena.CarveInside | src/arena.rs:200-209 | each carved block start is aligned, recognised by the arena and owns its whole block |
| Arena.InnerRangeIsWholePages | src/arena.rs:230-246 | the range is a positive number of pages and its pages are exactly the whole pages of the slab; there is none iff there is no whole page |
| Arena.BlockStartsAreMultiples | src/arena.rs:200-209 | the arena recognises exactly the multiples of its alignment from its base on, inside the mapping |
| Arena.CasKeepsInv | src/arena.rs:90-121 | every load and compare-exchange keeps the cursor invariant; the cursor moves exactly on success, and only up |
| Arena.ReservationsAreDisjoint | src/arena.rs:82-179 | in every interleaving won spans are disjoint, aligned and inside the mapping, and every caller's real failures, finished or not, are bounded by others' successes |
| Arena.SuccessMeansUndisturbed | src/arena.rs:108-119 | a successful compare-exchange had no other success since its load |
| Arena.ExhaustionIsPermanent | src/arena.rs:134-147 | a caller told the arena is exhausted would be told so at any later cursor |
| SizeClasses.RequestFitsClass | src/size_class.rs:56-73 | a request's class holds it and no smaller class does |
| SizeClasses.SizingNumbers | src/config.rs:25-42 | a block is the least multiple of the alignment that holds header and payload; refill and limit are the whole blocks of their own targets, at least one and two; a drain is half a refill, at least one |
| SizeClasses.DefaultNumbers | src/config.rs:45-54 | all numbers of the default configuration, class by class |
| SizeClasses.ClassesAscend | src/size_class.rs:78-93 | larger classes have larger payloads and larger default blocks |
| SizeClasses.LimitsAreValid | src/size_class.rs:107-112 | block sizes keep the arena's alignment and hold header and payload; local_limit is at least two |
| CacheModel.PopSourceExists | src/thread_cache.rs:497-537 | a non-empty class has a source for the unchecked pop, and only then |
| CacheModel.DrainTotal | src/thread_cache.rs:593-644 | a drain moves as many blocks as asked and held by its source, and counts every one |
| CacheModel.DrainKeepsHot | src/thread_cache.rs:593-637 | with two blocks or more a drain leaves the hot slot |
| CacheModel.OwnSlabTotal | src/thread_cache.rs:457-484 | adding the capacity to the count is right up to what a reset record held |
| CacheBags.BagSize | src/thread_cache.rs:405-407 | `total_len` is the size of the bag of blocks |
| CacheBags.PushAdds | src/thread_cache.rs:540-583 | a push adds exactly its block, wherever the previous hot block went |
| CacheBags.PopTakes | src/thread_cache.rs:497-537 | a pop takes exactly the block it returns |
| CacheBags.AcceptAdds | src/thread_cache.rs:585-591 | a shared batch adds exactly its blocks |
| CacheBags.DrainTakes | src/thread_cache.rs:593-644 | a drain takes exactly its batch |
| CacheBags.OwnSlabAdds | src/thread_cache.rs:457-484 | an owned slab adds exactly its blocks, and loses those of a record that was not empty |
| CacheBags.DrainSlabOrder | src/thread_cache.rs:770-814 | reclaimed blocks leave a slab before fresh ones, as many as asked |
| SlabIndex.PartitionPoint | src/thread_cache.rs:646-651 | splits the index at an address |
| SlabIndex.BinarySearch | src/thread_cache.rs:458-477 | finds the slab starting at an address, or where one belongs |
| SlabIndex.ContainsIffCarved | src/thread_cache.rs:718-725 | the range and modulus test accepts exactly the block starts |
| SlabIndex.OnlyCandidate | src/thread_cache.rs:646-656 | only the slab before the partition point can contain the address |
| LocalCache.LocalClassCache.FindSlab | src/thread_cache.rs:646-656 | the index lookup agrees with a linear scan |
| LocalCache.LocalClassCache.PushOwnedSlab | src/thread_cache.rs:457-484 | does what `OwnSlab` says; the counter stays right iff a reset record was empty |
| LocalCache.LocalClassCache.PopBlockUnchecked | src/thread_cache.rs:497-537 | takes from a source the specification allows, and keeps index, slots and counters right |
| LocalCache.LocalClassCache.PushBlock | src/thread_cache.rs:540-550 | makes the block hot and spills the previous one |
| LocalCache.LocalClassCache.PushSpilledBlock | src/thread_cache.rs:553-583 | returns a block to the slab a linear scan finds, or to the shared list |
| LocalCache.LocalClassCache.PushSharedBatch | src/thread_cache.rs:585-591 | splices a batch in front of the shared list and counts it |
| LocalCache.LocalClassCache.PopBatch | src/thread_cache.rs:593-644 | drains from a source the specification allows; exactly its fresh blocks get initialized headers |
| LocalCache.LocalClassCache.DrainAll | src/thread_cache.rs:350-369 | the drain loop ends with an empty class and every block handed over once |
| LocalCache.LocalClassCache.MarkSlabAvailable | src/thread_cache.rs:658-666 | keeps vector and back-pointers inverse |
| LocalCache.LocalClassCache.MarkSlabUnavailable | src/thread_cache.rs:668-678 | the same through `swap_remove` |
| LocalCache.DrainRecord | src/thread_cache.rs:770-814 | the two loops over reclaimed and fresh blocks drain the slab as specified |
| ClassPools.RemoveKeepsFiled | src/central_pool.rs:439-457 | `swap_remove` with its back-pointer fix takes one slab out of its bucket and keeps the others filed |
| ClassPools.AddKeepsFiled | src/central_pool.rs:459-473 | adding a slab files it under its state |
| ClassPools.ResetLeavesStale | src/central_pool.rs:522-541 | resetting a known record keeps every other slab filed, and leaves one that was not lent out named by its old bucket |
| ClassPools.ResetIsCoherentIffLoaned | src/central_pool.rs:522-541 | resetting a known record keeps the buckets right iff the slab was lent out |
| PoolModel.ReturnBatchReturns | src/central_pool.rs:288-315 | a batch gives every slab its own blocks, in order, in front of its list; one that misses none any more is full and hot; no other slab changes |
| PoolModel.PartialTakes | src/central_pool.rs:586-600 | a partial slab gives as many blocks as asked and held, from the front, keeps the rest, and is lent out when none is left |
| ClassPools.RecordReturnedIs | src/central_pool.rs:562-584 | a record that gets a block back is full and hot if it was the last missing one, and else partial with it in front; its counter is right |
| ClassPools.TakenFromIs | src/central_pool.rs:586-600 | the same for a batch taken from a partial slab |
| ClassPools.ClassPool.Reconcile | src/central_pool.rs:420-437 | a slab whose state changed is in the bucket of its new state, all others stay |
| ClassPools.ClassPool.FindSlabId | src/central_pool.rs:359-382 | shortcut and index lookup agree with a linear scan |
| ClassPools.ClassPool.ReturnBatch | src/central_pool.rs:288-315 | every slab gets its own blocks of the batch back, in order, and is full and hot if none is missing any more; exactly those slabs are touched; then one sweep from the old cursor; buckets and counters stay right |
| ClassPools.ClassPool.TakeRefill | src/central_pool.rs:252-286 | partial slabs, then hot, then cold; each the one filed last; empty iff no slab holds a block; only the chosen slab is touched; then one sweep from the old cursor, wrapped in the bucket |
| ClassPools.ClassPool.LoanWholeSlab | src/central_pool.rs:329-357 | hands out the geometry of a full slab and marks it lent |
| ClassPools.ClassPool.RegisterSlab | src/central_pool.rs:227-250 | a new span becomes a lent slab, a known one is reset to lent; the pool stays valid iff a known one was lent already; then one sweep |
| ClassPools.ClassPool.MaybeSweep | src/central_pool.rs:384-418 | in a 64th epoch the next two hot slabs from the cursor on are looked at; the first untouched for four epochs and holding a whole page has exactly its whole pages advised, and turns cold exactly when the advice is taken; without one, and in other epochs, nothing is advised; the cursor moves past the slabs looked at |
| ClassPools.SweptIsOld | src/central_pool.rs:384-418 | what is advised belongs to one of the next two hot slabs, not touched for four epochs, and only in an epoch divisible by 64 |
| ClassPools.UnsweptAreUnfit | src/central_pool.rs:384-418 | and if nothing is advised in such an epoch, neither of those two was fit for it |
| ClassPools.ClassPool.CentralBlockCount | src/central_pool.rs:317-319 | sums the blocks slabs hold centrally |
| LargeObjects.LargeObjectState.TakeBestFitBlock | src/large_object.rs:62-82 | returns the smallest sufficient size, or none iff there is none; no bucket is left empty and the counters stay sums |
| LargeObjects.LargeObjectState.InsertFreeBlock | src/large_object.rs:56-60 | pools a block and counts it |
| LargeObjects.LargeObjectState.RecordLiveAllocation | src/large_object.rs:118-146 | registers iff the pointer was free |
| LargeObjects.LargeObjectState.ValidateAndRelease | src/large_object.rs:153-177 | releases iff the record exists and agrees with the header; otherwise changes nothing |
| LargeObjects.SumRemove | src/large_object.rs:55-60 | a counter summed in any order is the same |
| LargeBlocks.LargeBlockIsInOnePlace | src/allocator.rs:337-390 | an address is a reserved large block iff it is in exactly one of: live, one bucket, in transit in one thread, lost |
| LargeBlocks.NeverRegisteredTwice | src/large_object.rs:136-143 | the double-registration panic is unreachable |
| LargeBlocks.BlocksKeepTheirSize | src/large_object.rs:153-177 | no step changes a block's size |
| LargeBlocks.SizesAgreeEverywhere | src/allocator.rs:356-378 | registry, pool and threads know each block by its real size |
| LargeBlocks.LostOnlyWhenNotEncodable | src/allocator.rs:371-378 | a block is lost exactly by a request above 2^32 - 64 bytes, or by any under an alignment above 2^32; every other step conserves every block |
| LargeBlocks.TooLargeRequestLosesItsBlock | src/allocator.rs:358-378 | every such request that fits a new arena does lose its block |
| LargeBlocks.FourGibibytesAreLost | src/allocator.rs:358-378 | 4 GiB from an arena of 8 GiB is such a request |
| LargeBlocks.BlockSizeIsLeast | src/allocator.rs:337-355 | a large block is the least multiple of the alignment that holds header and request; refused iff that overflows |
| LargeBlocks.ReservesLeast | src/allocator.rs:356-370 | a reservation has that size, at the first aligned address behind the cursor |
| LargeBlocks.SizesAreRounded | src/allocator.rs:345-355 | every large block ever reserved is a multiple of the alignment |
| LargeBlocks.ReusesBestFit | src/large_object.rs:62-82 | a pooled block is reused by the smallest size that holds the request, the one pooled last first |
| LargeBlocks.LargeDoubleFreeIsReported | src/large_object.rs:153-177 | a second release is reported as already freed, whatever happens in between, until the block is registered again |
| LargeBlocks.PooledBlocksAreEncodable | src/header.rs:474-483 | a pooled block can always be given a header again |
| LargeBlocks.LiveLargeBlocksAreSound | src/allocator.rs:371-388 | header, registry and block of a live large allocation agree, its usable size is all of its block behind the header, and blocks do not overlap |
| LargeBlocks.LargeFreeIsExact | src/allocator.rs:414-437 | a large free succeeds iff the block is live and a given size matches, and pools the block last in its bucket; otherwise it says which of wrong size, already freed and corrupt it is, and nothing changes |
| LargeBlocks.StepKeepsInv | src/allocator.rs:337-390 | every step of every thread keeps the large-block invariant |
| GlobalAlloc.OrthotopeServes | src/global_alloc.rs:34-40 | exactly the non-empty layouts of alignment 1, 2, 4, 8, 16, 32 or 64 are served by the allocator |
| GlobalAlloc.FallbackLayoutFits | src/global_alloc.rs:203-211 | the fallback layout adds prefix and worst misalignment to the payload, and exists iff that is a valid layout |
| GlobalAlloc.PrefixIsExact | src/global_alloc.rs:176-193 | a pointer decodes to a raw block iff all three prefix words are those written for that block and pointer |
| GlobalAlloc.FallbackAlloc | src/global_alloc.rs:140-174 | prefix and aligned payload lie inside the raw block, and the pointer decodes back to it |
| GlobalAlloc.FallbackIsFreedWhereItCameFrom | src/global_alloc.rs:106-123 | a pointer `fallback_alloc` returned is freed at its raw block, whatever was written to its payload |
| GlobalAlloc.LiveSmallPointerIsNoFallback | src/global_alloc.rs:176-193 | no live small block decodes as a fallback |
| GlobalAlloc.LiveLargePointerIsNoFallback | src/global_alloc.rs:176-193 | no live large block decodes as a fallback |
| GlobalAlloc.SmallPointerMeetsAlignment | src/global_alloc.rs:34-40 | every layout routed to the allocator and served by a small block gets a pointer of its alignment |
| GlobalAlloc.LargePointerMeetsAlignment | src/global_alloc.rs:34-40 | and so does every one served by a large block |
| SharedArena.SmallAndLargeNeverOverlap | src/arena.rs:82-179 | over one cursor, in every interleaving of small and large requests, no live small block overlaps a live large one, and every result about either machine holds |
| SharedArena.RunSound | src/arena.rs:82-179 | each machine sees the other only as reservations |

## Left out

- Mapping, `madvise` and page-size detection: an abstract aligned base, the system's answer as a parameter, any positive page size.
- `src/lib.rs`, `src/api.rs` and thread-local handles: process-global plumbing; one allocator is modelled, so binding and rebinding a cache are not.
- Memory orderings and the mutex implementation: a lock section or compare-exchange is one atomic step.
- Steps of `src/allocator.rs` as methods: they are functions on the global state, because caches, pools and headers are shared by all threads; the classes carry the in-place updates.
- Intrusive lists inside `LocalCache.LocalClassCache` and `ClassPools.ClassPool`: sequences there; `FreeLists` proves the list operations on link words, and the state machine that all lists coexist in one memory.
- The retry loops of `Arena` as methods: they are steps of a machine, so that other threads can interleave between load and compare-exchange.
- The freed marker between its writes: a flag that stands for the two words ever written, zero and the block's marker; checks compare the words. Release builds, which have no marker, are not modelled.
- Zero-size requests and large-request overflow: refused before any state is touched.
- Epoch and cache-id overflow, and integer widths of counters: counters are natural numbers; every address fits 64 bits by the arena's own bound.
- Pointers that are not block starts of the allocator, stale pointers to a live block and racing frees of one block: outside the documented contract.
- Caches dropped without draining: a documented leak; caches live on in the model.
- `src/stats.rs`, `Debug` output and error texts: one-line facts.
- What a block's payload holds: only headers are memory here.

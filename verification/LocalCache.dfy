/**
 One class of a thread cache as src/thread_cache.rs keeps it: slab records with a fresh
 counter, a sorted index, a vector of non-empty slabs with back-pointers, a recent-slab
 shortcut and redundant counters. Every method refines its function in `CacheModel`.
 */
module LocalCache {
  import opened Basics
  import opened Headers
  import opened SizeClasses
  import opened SlabIndex
  import opened CacheModel
  import opened CacheBags
  import Arena

  datatype SlabRecord = SlabRecord(
    start: Addr, end: nat, blockSize: nat, capacity: nat, nextFresh: nat, free: seq<Addr>, slot: Option<nat>)
  {
    ghost predicate Shaped() {
      blockSize > 0 && capacity > 0 && nextFresh <= capacity && end == start + blockSize * capacity
    }

    predicate HasAvailableBlocks() { nextFresh < capacity || free != [] }

    function Geometry(): seq<Addr> { Arena.Carve(start, blockSize, capacity) }

    function Model(): LocalSlab {
      LocalSlab(start, Geometry(), if nextFresh <= capacity then Geometry()[nextFresh..] else [], free)
    }
  }

  function NewRecord(start: Addr, blockSize: nat, capacity: nat): SlabRecord {
    SlabRecord(start, start + blockSize * capacity, blockSize, capacity, 0, [], None)
  }

  function Starts(slabs: seq<SlabRecord>): (starts: seq<Addr>)
    ensures |starts| == |slabs| && forall i :: 0 <= i < |slabs| ==> starts[i] == slabs[i].start
  {
    Map((r: SlabRecord) => r.start, slabs)
  }

  function Ends(slabs: seq<SlabRecord>): (ends: seq<nat>)
    ensures |ends| == |slabs| && forall i :: 0 <= i < |slabs| ==> ends[i] == slabs[i].end
  {
    Map((r: SlabRecord) => r.end, slabs)
  }

  function Models(slabs: seq<SlabRecord>): (models: seq<LocalSlab>)
    ensures |models| == |slabs|
  {
    Map((r: SlabRecord) => r.Model(), slabs)
  }

  ghost predicate AllShaped(slabs: seq<SlabRecord>) {
    forall i :: 0 <= i < |slabs| ==> slabs[i].Shaped()
  }

  /** Back-pointers and the vector they point into are inverse to each other. */
  ghost predicate Slots(slabs: seq<SlabRecord>, available: seq<nat>) {
    && (forall k :: 0 <= k < |available| ==> available[k] < |slabs| && slabs[available[k]].slot == Some(k))
    && (forall i :: 0 <= i < |slabs| && slabs[i].slot.Some? ==>
          slabs[i].slot.value < |available| && available[slabs[i].slot.value] == i)
  }

  ghost predicate SlotExact(r: SlabRecord) { r.slot.Some? <==> r.HasAvailableBlocks() }

  /** A slab is in the vector exactly when it has a block. */
  ghost predicate Exact(slabs: seq<SlabRecord>) {
    forall i :: 0 <= i < |slabs| ==> SlotExact(slabs[i])
  }

  /** The two sequences of records differ in back-pointers only. */
  ghost predicate SameButSlots(slabs: seq<SlabRecord>, slabs': seq<SlabRecord>) {
    && |slabs'| == |slabs|
    && (forall i :: 0 <= i < |slabs| ==> slabs'[i] == slabs[i].(slot := slabs'[i].slot))
  }

  lemma SlotsAreInvisible(slabs: seq<SlabRecord>, slabs': seq<SlabRecord>)
    requires SameButSlots(slabs, slabs')
    ensures Models(slabs') == Models(slabs) && Starts(slabs') == Starts(slabs) && Ends(slabs') == Ends(slabs)
    ensures AllShaped(slabs) ==> AllShaped(slabs')
  {
    forall i | 0 <= i < |slabs|
      ensures slabs'[i].Model() == slabs[i].Model() && slabs'[i].start == slabs[i].start && slabs'[i].end == slabs[i].end
      ensures slabs[i].Shaped() ==> slabs'[i].Shaped()
    {
    }
  }

  /** One record is replaced by another of the same geometry. */
  lemma ModelsUpdate(slabs: seq<SlabRecord>, i: nat, r: SlabRecord)
    requires i < |slabs|
    ensures Models(slabs[i := r]) == Models(slabs)[i := r.Model()]
    ensures r.start == slabs[i].start ==> Starts(slabs[i := r]) == Starts(slabs)
    ensures r.end == slabs[i].end ==> Ends(slabs[i := r]) == Ends(slabs)
  {
  }

  lemma ModelLen(r: SlabRecord)
    requires r.Shaped()
    ensures SlabLen(r.Model()) == (r.capacity - r.nextFresh) + |r.free|
    ensures r.HasAvailableBlocks() <==> r.Model().untouched != [] || r.Model().free != []
  {
  }

  /** The slab that contains an address is the one a linear scan finds. */
  lemma HomeIs(slabs: seq<SlabRecord>, b: Addr, i: nat)
    requires AllShaped(slabs) && Disjoint(Starts(slabs), Ends(slabs)) && i < |slabs|
    requires Contains(slabs[i].start, slabs[i].end, slabs[i].blockSize, b)
    ensures HomeOf(Models(slabs), b) == i
  {
    var models := Models(slabs);
    ContainsIffCarved(slabs[i].start, slabs[i].blockSize, slabs[i].capacity, b);
    assert b in models[i].blocks;
    forall j | 0 <= j < i ensures b !in models[j].blocks {
      ContainsIffCarved(slabs[j].start, slabs[j].blockSize, slabs[j].capacity, b);
    }
  }

  /** When no slab contains an address, a linear scan finds none. */
  lemma HomeIsNowhere(slabs: seq<SlabRecord>, b: Addr)
    requires AllShaped(slabs)
    requires forall i :: 0 <= i < |slabs| ==> !Contains(slabs[i].start, slabs[i].end, slabs[i].blockSize, b)
    ensures HomeOf(Models(slabs), b) == |slabs|
  {
    var j := HomeOf(Models(slabs), b);
    if j < |slabs| {
      assert b in Models(slabs)[j].blocks;
      ContainsIffCarved(slabs[j].start, slabs[j].blockSize, slabs[j].capacity, b);
    }
  }

  lemma StartIs(slabs: seq<SlabRecord>, start: Addr, i: nat)
    requires Disjoint(Starts(slabs), Ends(slabs)) && i < |slabs| && slabs[i].start == start
    ensures SlabAt(Models(slabs), start) == i
  {
    forall j | 0 <= j < |slabs| && j != i ensures Models(slabs)[j].start != start {
      assert Starts(slabs)[i] == start && Starts(slabs)[j] == slabs[j].start;
    }
    assert Models(slabs)[i].start == start;
  }

  lemma StartIsNew(slabs: seq<SlabRecord>, start: Addr)
    requires start !in Starts(slabs)
    ensures SlabAt(Models(slabs), start) == |slabs|
  {
    forall j | 0 <= j < |slabs| ensures Models(slabs)[j].start != start {
      assert Starts(slabs)[j] in Starts(slabs);
    }
  }

  lemma EmptyRecords()
    ensures Models([]) == [] && Starts([]) == [] && Ends([]) == []
    ensures AllShaped([]) && Slots([], []) && Exact([])
  {
  }

  lemma EmptyIndex()
    ensures Disjoint([], []) && Sorted([], [])
    ensures Total(EMPTY_CACHE) == 0
  {
  }

  lemma RecordsAppend(slabs: seq<SlabRecord>, r: SlabRecord)
    ensures Models(slabs + [r]) == Models(slabs) + [r.Model()]
    ensures Starts(slabs + [r]) == Starts(slabs) + [r.start]
    ensures Ends(slabs + [r]) == Ends(slabs) + [r.end]
  {
  }

  lemma AppendKeepsShape(slabs: seq<SlabRecord>, r: SlabRecord, available: seq<nat>)
    requires AllShaped(slabs) && Disjoint(Starts(slabs), Ends(slabs)) && Slots(slabs, available) && Exact(slabs)
    requires r.Shaped() && r.slot.None?
    requires forall i :: 0 <= i < |slabs| ==> slabs[i].end <= r.start || r.end <= slabs[i].start
    ensures AllShaped(slabs + [r]) && Slots(slabs + [r], available)
    ensures Disjoint(Starts(slabs + [r]), Ends(slabs + [r]))
    ensures forall i :: 0 <= i < |slabs| ==> SlotExact((slabs + [r])[i])
  {
  }

  /** `LocalSlab::pop_block_unchecked`: a reclaimed block first, otherwise the next fresh one. */
  function PopRecord(r: SlabRecord): (SlabRecord, Addr, BlockReuse) {
    if r.free != [] then (r.(free := r.free[1..]), r.free[0], HotReuseRequestedOnly)
    else (r.(nextFresh := r.nextFresh + 1), Arena.BlockAt(r.start, r.blockSize, r.nextFresh), NeedsHeaderRewrite)
  }

  lemma PopRecordIs(r: SlabRecord)
    requires r.Shaped() && r.HasAvailableBlocks()
    ensures r.Model().untouched != [] || r.Model().free != []
    ensures var (rest, b, reuse) := PopRecord(r);
            && rest.Shaped() && rest == r.(free := rest.free, nextFresh := rest.nextFresh)
            && rest.Model() == PopSlab(r.Model())
            && b == (if r.free != [] then r.free[0] else r.Model().untouched[0])
            && reuse == (if r.free != [] then HotReuseRequestedOnly else NeedsHeaderRewrite)
  {
  }

  /** With no hot block and no available slab, all blocks are shared. */
  lemma SharedIsLast(c: ClassCache)
    requires Total(c) > 0 && c.hot.None? && forall i :: !HasBlocks(c, i)
    ensures c.shared != []
  {
    PopSourceExists(c);
  }

  /** With no shared block and no available slab, the hot block is the last one. */
  lemma HotIsLast(c: ClassCache)
    requires Total(c) > 0 && c.shared == [] && forall i :: !HasBlocks(c, i)
    ensures c.hot.Some?
  {
    DrainSourceExists(c);
  }

  /** The headers of all blocks. */
  class HeaderStore {
    var hdr: map<Addr, Header>

    constructor ()
      ensures hdr == map[]
    {
      hdr := map[];
    }
  }

  function Set(blocks: seq<Addr>): set<Addr> { set b | b in blocks }

  /** The blocks that a drain takes from the untouched part of a slab. */
  function NewlyTouched(before: LocalSlab, after: LocalSlab): set<Addr> {
    var n := |before.untouched| - |after.untouched|;
    Set(before.untouched[..if n >= 0 then n else 0])
  }

  function DrainTouches(c: ClassCache, src: Source, max: nat): set<Addr> {
    match src
    case FromSlab(i) => if i < |c.slabs| then NewlyTouched(c.slabs[i], DrainSlab(c.slabs[i], max, []).0) else {}
    case _ => {}
  }

  /** Exactly the blocks of `touched` got initialized metadata for class `c`. */
  ghost predicate HeadersInitialized(hdr: map<Addr, Header>, hdr': map<Addr, Header>, touched: set<Addr>, c: SizeClass) {
    && hdr'.Keys == hdr.Keys + touched
    && (forall b :: b in hdr' ==> hdr'[b] == if b in touched then InitializeSmall(c) else hdr[b])
  }

  lemma NothingTouched(c: ClassCache, src: Source, max: nat, hdr: map<Addr, Header>, cls: SizeClass)
    requires !src.FromSlab?
    ensures HeadersInitialized(hdr, hdr, DrainTouches(c, src, max), cls)
  {
  }

  /** The record after its next `j` fresh blocks were reserved. */
  function Reserve(r: SlabRecord, j: nat): SlabRecord { r.(nextFresh := r.nextFresh + j) }

  lemma DrainReclaimedStep(r: SlabRecord, max: nat, list: seq<Addr>)
    requires r.free != [] && max > 0
    ensures DrainSlab(r.Model(), max, list) ==
            DrainSlab(r.(free := r.free[1..]).Model(), max - 1, [r.free[0]] + list)
  {
  }

  lemma DrainFreshStep(r: SlabRecord, max: nat, list: seq<Addr>)
    requires r.Shaped() && r.free == [] && r.nextFresh < r.capacity && max > 0
    ensures DrainSlab(r.Model(), max, list) ==
            DrainSlab(Reserve(r, 1).Model(), max - 1, [Arena.BlockAt(r.start, r.blockSize, r.nextFresh)] + list)
  {
    assert r.Model().untouched[1..] == Reserve(r, 1).Model().untouched;
  }

  lemma DrainEnds(r: SlabRecord, max: nat, list: seq<Addr>)
    requires r.Shaped() && (max == 0 || (r.free == [] && r.nextFresh == r.capacity))
    ensures DrainSlab(r.Model(), max, list) == (r.Model(), list)
  {
  }

  lemma TouchOne(hdr: map<Addr, Header>, hdr': map<Addr, Header>, blocks: seq<Addr>, i: nat, j: nat, c: SizeClass)
    requires i <= j < |blocks| && HeadersInitialized(hdr, hdr', Set(blocks[i..j]), c)
    ensures HeadersInitialized(hdr, hdr'[blocks[j] := InitializeSmall(c)], Set(blocks[i..j + 1]), c)
  {
    assert blocks[i..j + 1] == blocks[i..j] + [blocks[j]];
  }

  lemma TouchedIs(r: SlabRecord, rest: SlabRecord)
    requires r.Shaped() && rest.Shaped() && rest == r.(free := rest.free, nextFresh := rest.nextFresh)
    requires r.nextFresh <= rest.nextFresh
    ensures NewlyTouched(r.Model(), rest.Model()) == Set(r.Geometry()[r.nextFresh..rest.nextFresh])
  {
    var n := rest.nextFresh - r.nextFresh;
    assert r.Model().untouched[..n] == r.Geometry()[r.nextFresh..rest.nextFresh];
  }

  /** `LocalSlab::pop_batch`: one loop over reclaimed blocks, then one over fresh ones. */
  method DrainRecord(r: SlabRecord, max: nat, c: SizeClass, mem: HeaderStore) returns (rest: SlabRecord, batch: seq<Addr>)
    requires r.Shaped() && max != 0
    modifies mem
    ensures rest.Shaped() && rest == r.(free := rest.free, nextFresh := rest.nextFresh)
    ensures (rest.Model(), batch) == DrainSlab(r.Model(), max, [])
    ensures HeadersInitialized(old(mem.hdr), mem.hdr, NewlyTouched(r.Model(), rest.Model()), c)
  {
    hide HeadersInitialized, NewlyTouched, DrainSlab, SlabRecord.Model, Arena.BlockAt;
    batch, rest := [], r;
    var reclaimed := Min(|r.free|, max);
    for k := 0 to reclaimed
      invariant mem.hdr == old(mem.hdr) && rest == r.(free := r.free[k..])
      invariant DrainSlab(r.Model(), max, []) == DrainSlab(rest.Model(), max - k, batch)
    {
      DrainReclaimedStep(rest, max - k, batch);
      batch := [rest.free[0]] + batch;
      rest := rest.(free := rest.free[1..]);
    }
    ghost var left := max - reclaimed;
    var taken := Min(max - reclaimed, r.capacity - r.nextFresh);
    ghost var drained := rest;
    assert Reserve(drained, 0) == drained;
    rest := Reserve(rest, taken);
    var block := Arena.BlockAt(r.start, r.blockSize, r.nextFresh);
    TouchNone(mem.hdr, r.Geometry(), r.nextFresh, c);
    for j := 0 to taken
      invariant block == Arena.BlockAt(r.start, r.blockSize, r.nextFresh + j)
      invariant DrainSlab(r.Model(), max, []) == DrainSlab(Reserve(drained, j).Model(), left - j, batch)
      invariant HeadersInitialized(old(mem.hdr), mem.hdr, Set(r.Geometry()[r.nextFresh..r.nextFresh + j]), c)
    {
      DrainFreshStep(Reserve(drained, j), left - j, batch);
      TouchOne(old(mem.hdr), mem.hdr, r.Geometry(), r.nextFresh, r.nextFresh + j, c);
      assert r.Geometry()[r.nextFresh + j] == block;
      mem.hdr := mem.hdr[block := InitializeSmall(c)];
      batch := [block] + batch;
      Arena.BlockInside(r.start, r.blockSize, r.capacity, r.nextFresh + j);
      block := block + r.blockSize;
    }
    DrainEnds(rest, left - taken, batch);
    TouchedIs(r, rest);
  }

  lemma TouchNone(hdr: map<Addr, Header>, blocks: seq<Addr>, i: nat, c: SizeClass)
    requires i <= |blocks|
    ensures HeadersInitialized(hdr, hdr, Set(blocks[i..i]), c)
  {
  }

  class LocalClassCache {
    var hotBlock: Option<Addr>
    var slabs: seq<SlabRecord>
    var slabsByStart: seq<nat>
    var availableSlabs: seq<nat>
    var recentSlab: Option<nat>
    var shared: seq<Addr>
    var sharedLen: nat
    var totalLen: nat

    /** The abstract value this object stands for. */
    ghost function Model(): ClassCache
      reads this
    {
      ClassCache(hotBlock, Models(slabs), shared)
    }

    /** Geometry, index and shortcut: what lookups rely on. */
    ghost predicate Indexed()
      reads this
    {
      && AllShaped(slabs) && Disjoint(Starts(slabs), Ends(slabs)) && Sorted(Starts(slabs), slabsByStart)
      && (recentSlab.Some? ==> recentSlab.value < |slabs|)
    }

    /** Everything but the total count. */
    ghost predicate Structured()
      reads this
    {
      Indexed() && Slots(slabs, availableSlabs) && Exact(slabs) && sharedLen == |shared|
    }

    ghost predicate Valid()
      reads this
    {
      Structured() && totalLen == Total(Model())
    }

    constructor ()
      ensures Valid() && Model() == EMPTY_CACHE
    {
      hide Slots, Exact, Sorted, Disjoint, AllShaped, Models, Starts, Ends, Total;
      hotBlock, slabs, slabsByStart, availableSlabs, recentSlab := None, [], [], [], None;
      shared, sharedLen, totalLen := [], 0, 0;
      new;
      EmptyRecords();
      EmptyIndex();
    }

    /** Partition point and range check agree with a linear scan. */
    method FindSlab(b: Addr) returns (r: Option<nat>)
      requires Indexed()
      ensures r == if HomeOf(Models(slabs), b) < |slabs| then Some(HomeOf(Models(slabs), b)) else None
    {
      var n := PartitionPoint(Starts(slabs), slabsByStart, b);
      if n > 0 {
        var id := slabsByStart[n - 1];
        if Contains(slabs[id].start, slabs[id].end, slabs[id].blockSize, b) {
          HomeIs(slabs, b, id);
          return Some(id);
        }
      }
      forall i | 0 <= i < |slabs| ensures !Contains(slabs[i].start, slabs[i].end, slabs[i].blockSize, b) {
        if Contains(slabs[i].start, slabs[i].end, slabs[i].blockSize, b) {
          assert Starts(slabs)[i] == slabs[i].start && Ends(slabs)[i] == slabs[i].end;
          OnlyCandidate(Starts(slabs), Ends(slabs), slabsByStart, b, n, i);
        }
      }
      HomeIsNowhere(slabs, b);
      r := None;
    }

    method MarkSlabAvailable(id: nat)
      requires id < |slabs| && Slots(slabs, availableSlabs)
      modifies this`slabs, this`availableSlabs
      ensures Slots(slabs, availableSlabs) && SameButSlots(old(slabs), slabs)
      ensures slabs[id].slot.Some? && forall j :: 0 <= j < |slabs| && j != id ==> slabs[j] == old(slabs)[j]
      ensures availableSlabs == if old(slabs[id]).slot.Some? then old(availableSlabs) else old(availableSlabs) + [id]
    {
      if slabs[id].slot.Some? {
        return;
      }
      var slot := |availableSlabs|;
      availableSlabs := availableSlabs + [id];
      slabs := slabs[id := slabs[id].(slot := Some(slot))];
    }

    /** Removal by swapping with the last entry, whose back-pointer moves along. */
    method MarkSlabUnavailable(id: nat)
      requires id < |slabs| && Slots(slabs, availableSlabs)
      modifies this`slabs, this`availableSlabs
      ensures Slots(slabs, availableSlabs) && SameButSlots(old(slabs), slabs)
      ensures slabs[id].slot.None?
      ensures forall j :: 0 <= j < |slabs| && j != id ==> (slabs[j].slot.Some? <==> old(slabs)[j].slot.Some?)
    {
      if slabs[id].slot.None? {
        return;
      }
      var slot := slabs[id].slot.value;
      slabs := slabs[id := slabs[id].(slot := None)];
      var last := |availableSlabs| - 1;
      var moved := availableSlabs[last];
      availableSlabs := availableSlabs[slot := moved][..last];
      if slot < |availableSlabs| {
        slabs := slabs[moved := slabs[moved].(slot := Some(slot))];
      }
    }

    /** `push_spilled_block`, after the caller has counted the block. */
    method PushSpilledBlock(b: Addr)
      requires Structured() && totalLen == Total(Model()) + 1
      modifies this
      ensures Valid() && Model() == Spill(old(Model()), b)
      ensures var i := HomeOf(old(Models(slabs)), b); recentSlab == if i < |old(slabs)| then Some(i) else old(recentSlab)
    {
      hide Slots, Exact, Sorted, Disjoint, AllShaped, Models, Total;
      SpillTotal(Model(), b);
      var home := if RecentHas(b) then recentSlab else None;
      if home.None? {
        home := FindSlab(b);
      }
      if home.Some? {
        recentSlab := home;
        PushToSlab(home.value, b);
        return;
      }
      shared, sharedLen := [b] + shared, sharedLen + 1;
    }

    /** The shortcut only ever answers with the slab a linear scan would find. */
    predicate RecentHas(b: Addr)
      requires Indexed()
      reads this
      ensures RecentHas(b) ==> recentSlab == Some(HomeOf(Models(slabs), b))
    {
      if recentSlab.Some? && Contains(slabs[recentSlab.value].start, slabs[recentSlab.value].end, slabs[recentSlab.value].blockSize, b)
      then
        HomeIs(slabs, b, recentSlab.value);
        true
      else false
    }

    /** The reclaimed block joins its slab, which becomes available if it was empty. */
    method PushToSlab(id: nat, b: Addr)
      requires Structured() && id < |slabs|
      modifies this`slabs, this`availableSlabs
      ensures Structured()
      ensures Models(slabs) == old(Models(slabs)[id := Models(slabs)[id].(free := [b] + Models(slabs)[id].free)])
    {
      var r := slabs[id].(free := [b] + slabs[id].free);
      var wasEmpty := !slabs[id].HasAvailableBlocks();
      ModelsUpdate(slabs, id, r);
      slabs := slabs[id := r];
      if wasEmpty {
        SetAvailable(id);
      }
    }

    /** Makes the slot of one record right again after its blocks changed. */
    method SetAvailable(id: nat)
      requires Indexed() && Slots(slabs, availableSlabs) && sharedLen == |shared| && id < |slabs|
      requires forall i :: 0 <= i < |slabs| && i != id ==> SlotExact(slabs[i])
      requires slabs[id].HasAvailableBlocks()
      modifies this`slabs, this`availableSlabs
      ensures Structured() && Models(slabs) == old(Models(slabs))
    {
      MarkSlabAvailable(id);
      SlotsAreInvisible(old(slabs), slabs);
    }

    method SetUnavailable(id: nat)
      requires Indexed() && Slots(slabs, availableSlabs) && sharedLen == |shared| && id < |slabs|
      requires forall i :: 0 <= i < |slabs| && i != id ==> SlotExact(slabs[i])
      requires !slabs[id].HasAvailableBlocks()
      modifies this`slabs, this`availableSlabs
      ensures Structured() && Models(slabs) == old(Models(slabs))
    {
      MarkSlabUnavailable(id);
      SlotsAreInvisible(old(slabs), slabs);
    }

    /** `push_block`: the freed block is hot, the previous hot block is spilled. */
    method PushBlock(b: Addr)
      requires Valid()
      modifies this
      ensures Valid() && Model() == Push(old(Model()), b)
      ensures totalLen == old(totalLen) + 1
    {
      hide Slots, Exact, Sorted, Disjoint, AllShaped, Models;
      PushTotal(Model(), b);
      var previous := hotBlock;
      hotBlock, totalLen := Some(b), totalLen + 1;
      if previous.Some? {
        PushSpilledBlock(previous.value);
      }
    }

    // ----- Refilling

    /** The span is a known slab with this geometry, or disjoint from every known one. */
    ghost predicate KnownOrNew(start: Addr, blockSize: nat, capacity: nat)
      reads this
    {
      forall i :: 0 <= i < |slabs| ==>
        if slabs[i].start == start then slabs[i].blockSize == blockSize && slabs[i].capacity == capacity
        else slabs[i].end <= start || start + blockSize * capacity <= slabs[i].start
    }

    /**
     `push_owned_slab`. Adding `capacity` to the total is right exactly when the record it
     resets held nothing.
     */
    method PushOwnedSlab(start: Addr, blockSize: nat, capacity: nat)
      requires Valid() && blockSize > 0 && capacity > 0 && KnownOrNew(start, blockSize, capacity)
      modifies this
      ensures Structured() && Model() == OwnSlab(old(Model()), start, Arena.Carve(start, blockSize, capacity))
      ensures totalLen == old(totalLen) + capacity && recentSlab == Some(SlabAt(old(Models(slabs)), start))
      ensures Valid() <==> (SlabAt(old(Models(slabs)), start) < |old(slabs)| ==>
                              SlabLen(old(Models(slabs))[SlabAt(old(Models(slabs)), start)]) == 0)
    {
      hide Slots, Exact, Sorted, Disjoint, AllShaped, Models, Arena.Carve, Total;
      OwnSlabTotal(Model(), start, Arena.Carve(start, blockSize, capacity));
      var found, slot := BinarySearch(Starts(slabs), slabsByStart, start);
      var id := |slabs|;
      if found {
        id := slabsByStart[slot];
        ResetSlab(id, start, blockSize, capacity);
      } else {
        AddSlab(slot, start, blockSize, capacity);
      }
      recentSlab, totalLen := Some(id), totalLen + capacity;
      assert Model() == OwnSlab(old(Model()), start, Arena.Carve(start, blockSize, capacity));
    }

    /** The record of a slab that is issued again starts over; it is available. */
    method ResetSlab(id: nat, start: Addr, blockSize: nat, capacity: nat)
      requires Structured() && blockSize > 0 && capacity > 0 && KnownOrNew(start, blockSize, capacity)
      requires id < |slabs| && slabs[id].start == start
      modifies this`slabs, this`availableSlabs
      ensures Structured() && |slabs| == old(|slabs|)
      ensures SlabAt(old(Models(slabs)), start) == id
      ensures Models(slabs) == old(Models(slabs))[id := FreshSlab(start, Arena.Carve(start, blockSize, capacity))]
    {
      StartIs(slabs, start, id);
      MarkSlabUnavailable(id);
      SlotsAreInvisible(old(slabs), slabs);
      var r := slabs[id].(nextFresh := 0, free := [], slot := None);
      ModelsUpdate(slabs, id, r);
      slabs := slabs[id := r];
      SetAvailable(id);
    }

    /** A slab this cache has not seen gets a record and its place in the index. */
    method AddSlab(slot: nat, start: Addr, blockSize: nat, capacity: nat)
      requires Structured() && blockSize > 0 && capacity > 0 && KnownOrNew(start, blockSize, capacity)
      requires slot <= |slabsByStart| && start !in Starts(slabs)
      requires forall k :: 0 <= k < slot ==> Starts(slabs)[slabsByStart[k]] < start
      requires forall k :: slot <= k < |slabsByStart| ==> start < Starts(slabs)[slabsByStart[k]]
      modifies this`slabs, this`slabsByStart, this`availableSlabs
      ensures Structured() && |slabs| == old(|slabs|) + 1
      ensures SlabAt(old(Models(slabs)), start) == old(|slabs|)
      ensures Models(slabs) == old(Models(slabs)) + [FreshSlab(start, Arena.Carve(start, blockSize, capacity))]
    {
      hide Insert, Arena.Carve, Models, Starts, Ends, AllShaped, Disjoint, Slots, Exact, Sorted;
      StartIsNew(slabs, start);
      var r := NewRecord(start, blockSize, capacity);
      InsertKeepsSorted(Starts(slabs), slabsByStart, slot, start);
      RecordsAppend(slabs, r);
      AppendKeepsShape(slabs, r, availableSlabs);
      slabsByStart := Insert(slabsByStart, slot, |slabs|);
      slabs := slabs + [r];
      SetAvailable(|slabs| - 1);
    }

    /** `push_shared_batch`. */
    method PushSharedBatch(batch: seq<Addr>)
      requires Valid()
      modifies this
      ensures Valid() && Model() == AcceptBatch(old(Model()), batch)
    {
      hide Slots, Exact, Sorted, Disjoint, AllShaped, Models;
      shared, sharedLen, totalLen := batch + shared, sharedLen + |batch|, totalLen + |batch|;
    }

    // ----- Taking blocks out

    /** `pop_block_unchecked`: the source it picks is one the specification allows, and is never empty. */
    method PopBlockUnchecked() returns (b: Addr, reuse: BlockReuse, ghost src: Source)
      requires Valid() && totalLen != 0
      modifies this
      ensures Valid() && PopSource(old(Model()), src)
      ensures src == if old(hotBlock).Some? then FromHot
                     else if old(availableSlabs) != [] then FromSlab(old(availableSlabs)[|old(availableSlabs)| - 1])
                     else FromShared
      ensures recentSlab == if src.FromSlab? then Some(src.slab) else old(recentSlab)
      ensures b == PopBlock(old(Model()), src) && reuse == PopReuse(old(Model()), src)
      ensures Model() == PopRest(old(Model()), src)
    {
      hide Slots, Exact, Sorted, Disjoint, AllShaped, Models, Total;
      if hotBlock.Some? {
        src := FromHot;
        PopTotal(Model(), src);
        b, reuse := hotBlock.value, HotReuseRequestedOnly;
        hotBlock, totalLen := None, totalLen - 1;
        return;
      }
      if availableSlabs != [] {
        var id := LastAvailable();
        src := FromSlab(id);
        PopTotal(Model(), src);
        b, reuse := PopFromSlab(id);
        recentSlab, totalLen := Some(id), totalLen - 1;
        return;
      }
      src := FromShared;
      NothingAvailable();
      SharedIsLast(Model());
      PopTotal(Model(), src);
      b, reuse := shared[0], NeedsOwnerAndRequestedSizeRefresh;
      shared, sharedLen, totalLen := shared[1..], sharedLen - 1, totalLen - 1;
    }

    /** Membership in the vector of available slabs guarantees a block. */
    method LastAvailable() returns (id: nat)
      requires Structured() && availableSlabs != []
      ensures id == availableSlabs[|availableSlabs| - 1]
      ensures id < |slabs| && HasBlocks(Model(), id) && slabs[id].HasAvailableBlocks()
    {
      id := availableSlabs[|availableSlabs| - 1];
      assert SlotExact(slabs[id]);
      ModelLen(slabs[id]);
    }

    lemma NothingAvailable()
      requires Structured() && availableSlabs == []
      ensures forall i :: !HasBlocks(Model(), i)
    {
      forall i: nat ensures !HasBlocks(Model(), i) {
        if i < |slabs| {
          assert SlotExact(slabs[i]);
          ModelLen(slabs[i]);
        }
      }
    }

    method PopFromSlab(id: nat) returns (b: Addr, reuse: BlockReuse)
      requires Structured() && id < |slabs| && slabs[id].HasAvailableBlocks()
      modifies this`slabs, this`availableSlabs
      ensures HasBlocks(old(Model()), id)
      ensures Structured() && Models(slabs) == old(Models(slabs)[id := PopSlab(Models(slabs)[id])])
      ensures b == old(PopBlock(Model(), FromSlab(id))) && reuse == old(PopReuse(Model(), FromSlab(id)))
    {
      var r := slabs[id];
      PopRecordIs(r);
      var (rest, block, how) := PopRecord(r);
      b, reuse := block, how;
      ModelsUpdate(slabs, id, rest);
      ReplaceSlab(id, rest);
    }

    /** One record gives up blocks; it leaves the vector when it has none left. */
    method ReplaceSlab(id: nat, rest: SlabRecord)
      requires Structured() && id < |slabs| && rest.Shaped() && slabs[id].HasAvailableBlocks()
      requires rest.start == slabs[id].start && rest.end == slabs[id].end && rest.slot == slabs[id].slot
      modifies this`slabs, this`availableSlabs
      ensures Structured() && Models(slabs) == old(Models(slabs))[id := rest.Model()]
    {
      ModelsUpdate(slabs, id, rest);
      slabs := slabs[id := rest];
      if !rest.HasAvailableBlocks() {
        SetUnavailable(id);
      }
    }

    /** `pop_batch`: shared blocks, else those of one available slab, else the hot block. */
    method PopBatch(max: nat, c: SizeClass, mem: HeaderStore) returns (batch: seq<Addr>, ghost src: Source)
      requires Valid() && totalLen != 0 && max != 0
      modifies this, mem
      ensures Valid() && DrainSource(old(Model()), src)
      ensures src == if old(shared) != [] then FromShared
                     else if old(availableSlabs) != [] then FromSlab(old(availableSlabs)[|old(availableSlabs)| - 1])
                     else FromHot
      ensures recentSlab == old(recentSlab)
      ensures batch == DrainBatch(old(Model()), src, max) && Model() == DrainRest(old(Model()), src, max)
      ensures HeadersInitialized(old(mem.hdr), mem.hdr, DrainTouches(old(Model()), src, max), c)
    {
      hide Slots, Exact, Sorted, Disjoint, AllShaped, Models, Total, DrainTouches, HeadersInitialized;
      if sharedLen != 0 {
        src := FromShared;
        DrainTotal(Model(), src, max);
        var n := Min(max, |shared|);
        batch := shared[..n];
        shared, sharedLen, totalLen := shared[n..], sharedLen - n, totalLen - n;
        NothingTouched(old(Model()), src, max, mem.hdr, c);
        return;
      }
      if availableSlabs != [] {
        var id := LastAvailable();
        src := FromSlab(id);
        DrainTotal(Model(), src, max);
        batch := PopBatchFromSlab(id, max, c, mem);
        totalLen := totalLen - |batch|;
        return;
      }
      src := FromHot;
      NothingAvailable();
      HotIsLast(Model());
      DrainTotal(Model(), src, max);
      batch := [hotBlock.value];
      hotBlock, totalLen := None, totalLen - 1;
      NothingTouched(old(Model()), src, max, mem.hdr, c);
    }

    method PopBatchFromSlab(id: nat, max: nat, c: SizeClass, mem: HeaderStore) returns (batch: seq<Addr>)
      requires Structured() && id < |slabs| && slabs[id].HasAvailableBlocks() && max != 0
      modifies this`slabs, this`availableSlabs, mem
      ensures Structured() && |slabs| == old(|slabs|)
      ensures Models(slabs) == old(Models(slabs)[id := DrainSlab(Models(slabs)[id], max, []).0])
      ensures batch == old(DrainSlab(Models(slabs)[id], max, []).1)
      ensures HeadersInitialized(old(mem.hdr), mem.hdr, DrainTouches(old(Model()), FromSlab(id), max), c)
    {
      var r := slabs[id];
      var rest;
      rest, batch := DrainRecord(r, max, c, mem);
      ReplaceSlab(id, rest);
    }

    /** The loop of `drain_all_to_central` over this class: it ends, empty, with every block handed over once. */
    method DrainAll(c: SizeClass, mem: HeaderStore) returns (drained: seq<Addr>)
      requires Valid()
      modifies this, mem
      ensures Valid() && totalLen == 0 && multiset(drained) == Bag(old(Model())) && Bag(Model()) == multiset{}
    {
      hide Slots, Exact, Sorted, Disjoint, AllShaped, Models, SlabsBag, SlabsLen, Bag, DrainRest, DrainBatch, HeadersInitialized, DrainTouches;
      drained := [];
      while totalLen != 0
        invariant Valid() && Bag(Model()) + multiset(drained) == Bag(old(Model()))
        decreases totalLen
      {
        ghost var before := Model();
        var batch;
        ghost var src;
        var len := totalLen;
        batch, src := PopBatch(len, c, mem);
        DrainTakes(before, src, len);
        DrainTotal(before, src, len);
        drained := drained + batch;
      }
      BagSize(Model());
    }
  }
}

/**
 The abstract value of one class of a thread cache (src/thread_cache.rs).

 Lists are sequences of block addresses, first block first. A local slab keeps its
 geometry `blocks`, the blocks never handed out since it was (re)issued, `untouched`, and
 the reclaimed list `free`. `LocalCache.LocalClassCache` refines these functions with
 the index, slot and counter bookkeeping; `AllocatorModel` runs them concurrently.
 */
module CacheModel {
  import opened Basics

  datatype LocalSlab = LocalSlab(start: Addr, blocks: seq<Addr>, untouched: seq<Addr>, free: seq<Addr>)

  datatype ClassCache = ClassCache(hot: Option<Addr>, slabs: seq<LocalSlab>, shared: seq<Addr>)

  const EMPTY_CACHE := ClassCache(None, [], [])

  /** Which header fields a popped block still needs. */
  datatype BlockReuse = HotReuseRequestedOnly | NeedsOwnerAndRequestedSizeRefresh | NeedsHeaderRewrite

  /** Where a block leaves the cache from. */
  datatype Source = FromHot | FromSlab(slab: nat) | FromShared

  // ----- Counting

  function SlabLen(slab: LocalSlab): nat { |slab.untouched| + |slab.free| }

  function SlabsLen(slabs: seq<LocalSlab>): nat {
    if slabs == [] then 0 else SlabsLen(slabs[..|slabs| - 1]) + SlabLen(slabs[|slabs| - 1])
  }

  function HotSeq(c: ClassCache): seq<Addr> { if c.hot.Some? then [c.hot.value] else [] }

  /** `total_len`: the blocks this class of the cache can hand out. */
  function Total(c: ClassCache): nat { |HotSeq(c)| + SlabsLen(c.slabs) + |c.shared| }

  lemma {:induction false} SlabsLenUpdate(slabs: seq<LocalSlab>, i: nat, slab: LocalSlab)
    requires i < |slabs|
    ensures SlabsLen(slabs[i := slab]) == SlabsLen(slabs) - SlabLen(slabs[i]) + SlabLen(slab)
    ensures SlabLen(slabs[i]) <= SlabsLen(slabs)
  {
    var last := |slabs| - 1;
    if i == last {
      assert slabs[i := slab][..last] == slabs[..last];
    } else {
      SlabsLenUpdate(slabs[..last], i, slab);
      assert slabs[i := slab][..last] == slabs[..last][i := slab];
    }
  }

  lemma SlabsLenAppend(slabs: seq<LocalSlab>, slab: LocalSlab)
    ensures SlabsLen(slabs + [slab]) == SlabsLen(slabs) + SlabLen(slab)
  {
    assert (slabs + [slab])[..|slabs|] == slabs;
  }

  /** The slabs hold nothing exactly when no slab does. */
  lemma {:induction false} SlabsLenZero(slabs: seq<LocalSlab>)
    ensures SlabsLen(slabs) == 0 <==> forall i :: 0 <= i < |slabs| ==> SlabLen(slabs[i]) == 0
  {
    if slabs != [] {
      var last := |slabs| - 1;
      SlabsLenZero(slabs[..last]);
      assert forall i :: 0 <= i < last ==> slabs[..last][i] == slabs[i];
    }
  }

  // ----- Lookup, as a linear scan

  /** Index of the first slab whose geometry has `b`, or |slabs|. */
  function HomeOf(slabs: seq<LocalSlab>, b: Addr): (i: nat)
    ensures i <= |slabs|
    ensures i < |slabs| ==> b in slabs[i].blocks
    ensures forall j :: 0 <= j < i ==> b !in slabs[j].blocks
  {
    FirstWhere(slabs, (slab: LocalSlab) => b in slab.blocks)
  }

  /** Index of the first slab that begins at `start`, or |slabs|. */
  function SlabAt(slabs: seq<LocalSlab>, start: Addr): (i: nat)
    ensures i <= |slabs|
    ensures i < |slabs| ==> slabs[i].start == start
    ensures forall j :: 0 <= j < i ==> slabs[j].start != start
  {
    FirstWhere(slabs, (slab: LocalSlab) => slab.start == start)
  }

  // ----- Freeing into the cache

  /** `push_spilled_block`: back to its local slab if this cache has a record of it, else shared. */
  function Spill(c: ClassCache, b: Addr): ClassCache {
    var i := HomeOf(c.slabs, b);
    if i < |c.slabs| then c.(slabs := c.slabs[i := c.slabs[i].(free := [b] + c.slabs[i].free)])
    else c.(shared := [b] + c.shared)
  }

  /** `push_block`: the new block takes the hot slot and the previous one is spilled. */
  function Push(c: ClassCache, b: Addr): ClassCache {
    var cold := c.(hot := None);
    (if c.hot.Some? then Spill(cold, c.hot.value) else cold).(hot := Some(b))
  }

  lemma SpillTotal(c: ClassCache, b: Addr)
    ensures Total(Spill(c, b)) == Total(c) + 1
  {
    var i := HomeOf(c.slabs, b);
    if i < |c.slabs| {
      SlabsLenUpdate(c.slabs, i, c.slabs[i].(free := [b] + c.slabs[i].free));
    }
  }

  lemma PushTotal(c: ClassCache, b: Addr)
    ensures Total(Push(c, b)) == Total(c) + 1
  {
    if c.hot.Some? {
      SpillTotal(c.(hot := None), c.hot.value);
    }
  }

  // ----- Refilling the cache

  function FreshSlab(start: Addr, blocks: seq<Addr>): LocalSlab { LocalSlab(start, blocks, blocks, []) }

  /** `push_owned_slab`: a record for this start is reset in place, otherwise a new one is added. */
  function OwnSlab(c: ClassCache, start: Addr, blocks: seq<Addr>): ClassCache {
    var i := SlabAt(c.slabs, start);
    if i < |c.slabs| then c.(slabs := c.slabs[i := FreshSlab(start, blocks)])
    else c.(slabs := c.slabs + [FreshSlab(start, blocks)])
  }

  function AcceptBatch(c: ClassCache, batch: seq<Addr>): ClassCache { c.(shared := batch + c.shared) }

  /** Adding `capacity` to the total is right exactly when a reset record held nothing. */
  lemma OwnSlabTotal(c: ClassCache, start: Addr, blocks: seq<Addr>)
    ensures var i := SlabAt(c.slabs, start);
            var lost := if i < |c.slabs| then SlabLen(c.slabs[i]) else 0;
            Total(OwnSlab(c, start, blocks)) == Total(c) + |blocks| - lost
  {
    var i := SlabAt(c.slabs, start);
    if i < |c.slabs| {
      SlabsLenUpdate(c.slabs, i, FreshSlab(start, blocks));
    } else {
      SlabsLenAppend(c.slabs, FreshSlab(start, blocks));
    }
  }

  // ----- Allocating from the cache

  predicate HasBlocks(c: ClassCache, i: nat) {
    i < |c.slabs| && (c.slabs[i].untouched != [] || c.slabs[i].free != [])
  }

  /** The sources `pop_block_unchecked` may use: hot, else any available slab, else shared. */
  ghost predicate PopSource(c: ClassCache, src: Source) {
    match src
    case FromHot => c.hot.Some?
    case FromSlab(i) => c.hot.None? && HasBlocks(c, i)
    case FromShared => c.hot.None? && c.shared != [] && forall i :: !HasBlocks(c, i)
  }

  predicate Nonempty(c: ClassCache, src: Source) {
    match src
    case FromHot => c.hot.Some?
    case FromSlab(i) => HasBlocks(c, i)
    case FromShared => c.shared != []
  }

  function PopBlock(c: ClassCache, src: Source): Addr
    requires Nonempty(c, src)
  {
    match src
    case FromHot => c.hot.value
    case FromSlab(i) => if c.slabs[i].free != [] then c.slabs[i].free[0] else c.slabs[i].untouched[0]
    case FromShared => c.shared[0]
  }

  function PopReuse(c: ClassCache, src: Source): BlockReuse
    requires Nonempty(c, src)
  {
    match src
    case FromHot => HotReuseRequestedOnly
    case FromSlab(i) => if c.slabs[i].free != [] then HotReuseRequestedOnly else NeedsHeaderRewrite
    case FromShared => NeedsOwnerAndRequestedSizeRefresh
  }

  function PopSlab(slab: LocalSlab): LocalSlab
    requires slab.untouched != [] || slab.free != []
  {
    if slab.free != [] then slab.(free := slab.free[1..]) else slab.(untouched := slab.untouched[1..])
  }

  function PopRest(c: ClassCache, src: Source): ClassCache
    requires Nonempty(c, src)
  {
    match src
    case FromHot => c.(hot := None)
    case FromSlab(i) => c.(slabs := c.slabs[i := PopSlab(c.slabs[i])])
    case FromShared => c.(shared := c.shared[1..])
  }

  lemma PopTotal(c: ClassCache, src: Source)
    requires Nonempty(c, src)
    ensures Total(PopRest(c, src)) == Total(c) - 1
  {
    if src.FromSlab? {
      SlabsLenUpdate(c.slabs, src.slab, PopSlab(c.slabs[src.slab]));
    }
  }

  /** A non-empty class always has a source, so the unchecked pops are never reached empty. */
  lemma PopSourceExists(c: ClassCache)
    ensures Total(c) > 0 <==> exists src :: PopSource(c, src)
  {
    SlabsLenZero(c.slabs);
    if c.hot.Some? {
      assert PopSource(c, FromHot);
    } else if exists i :: HasBlocks(c, i) {
      var i :| HasBlocks(c, i);
      assert PopSource(c, FromSlab(i));
    } else {
      assert forall i :: 0 <= i < |c.slabs| ==> SlabLen(c.slabs[i]) == 0 by {
        forall i | 0 <= i < |c.slabs| ensures SlabLen(c.slabs[i]) == 0 { assert !HasBlocks(c, i); }
      }
      assert c.shared != [] ==> PopSource(c, FromShared);
    }
  }

  // ----- Draining the cache

  /** The sources `pop_batch` may use: shared, else any available slab, else the hot slot. */
  ghost predicate DrainSource(c: ClassCache, src: Source) {
    match src
    case FromShared => c.shared != []
    case FromSlab(i) => c.shared == [] && HasBlocks(c, i)
    case FromHot => c.shared == [] && c.hot.Some? && forall i :: !HasBlocks(c, i)
  }

  /** `LocalSlab::pop_batch`: reclaimed blocks go first onto the outgoing list, then fresh ones. */
  function DrainSlab(slab: LocalSlab, max: nat, out: seq<Addr>): (LocalSlab, seq<Addr>)
    decreases max
  {
    if max == 0 then (slab, out)
    else if slab.free != [] then DrainSlab(slab.(free := slab.free[1..]), max - 1, [slab.free[0]] + out)
    else if slab.untouched != [] then DrainSlab(slab.(untouched := slab.untouched[1..]), max - 1, [slab.untouched[0]] + out)
    else (slab, out)
  }

  function DrainBatch(c: ClassCache, src: Source, max: nat): seq<Addr>
    requires Nonempty(c, src)
  {
    match src
    case FromShared => c.shared[..Min(max, |c.shared|)]
    case FromSlab(i) => DrainSlab(c.slabs[i], max, []).1
    case FromHot => [c.hot.value]
  }

  function DrainRest(c: ClassCache, src: Source, max: nat): ClassCache
    requires Nonempty(c, src)
  {
    match src
    case FromShared => c.(shared := c.shared[Min(max, |c.shared|)..])
    case FromSlab(i) => c.(slabs := c.slabs[i := DrainSlab(c.slabs[i], max, []).0])
    case FromHot => c.(hot := None)
  }

  lemma {:induction false} DrainSlabTotal(slab: LocalSlab, max: nat, out: seq<Addr>)
    ensures var (rest, batch) := DrainSlab(slab, max, out);
            && |batch| == |out| + Min(max, SlabLen(slab))
            && SlabLen(rest) + |batch| == SlabLen(slab) + |out|
            && rest.start == slab.start && rest.blocks == slab.blocks
    decreases max
  {
    if max == 0 {
    } else if slab.free != [] {
      DrainSlabTotal(slab.(free := slab.free[1..]), max - 1, [slab.free[0]] + out);
    } else if slab.untouched != [] {
      DrainSlabTotal(slab.(untouched := slab.untouched[1..]), max - 1, [slab.untouched[0]] + out);
    }
  }

  /** How many blocks a source holds. */
  function SourceLen(c: ClassCache, src: Source): nat {
    match src
    case FromShared => |c.shared|
    case FromSlab(i) => if i < |c.slabs| then SlabLen(c.slabs[i]) else 0
    case FromHot => |HotSeq(c)|
  }

  /** A drain moves as many blocks as asked and held by its source, and accounts for every one of them. */
  lemma DrainTotal(c: ClassCache, src: Source, max: nat)
    requires Nonempty(c, src) && max > 0
    ensures 1 <= |DrainBatch(c, src, max)| == Min(max, SourceLen(c, src))
    ensures Total(DrainRest(c, src, max)) + |DrainBatch(c, src, max)| == Total(c)
  {
    if src.FromSlab? {
      var i := src.slab;
      DrainSlabTotal(c.slabs[i], max, []);
      SlabsLenUpdate(c.slabs, i, DrainSlab(c.slabs[i], max, []).0);
    }
  }

  lemma DrainSourceExists(c: ClassCache)
    ensures Total(c) > 0 <==> exists src :: DrainSource(c, src)
  {
    SlabsLenZero(c.slabs);
    if c.shared != [] {
      assert DrainSource(c, FromShared);
    } else if exists i :: HasBlocks(c, i) {
      var i :| HasBlocks(c, i);
      assert DrainSource(c, FromSlab(i));
    } else {
      assert forall i :: 0 <= i < |c.slabs| ==> SlabLen(c.slabs[i]) == 0 by {
        forall i | 0 <= i < |c.slabs| ensures SlabLen(c.slabs[i]) == 0 { assert !HasBlocks(c, i); }
      }
      assert c.hot.Some? ==> DrainSource(c, FromHot);
    }
  }

  /** With two blocks or more, a drain never reaches the hot slot. */
  lemma DrainKeepsHot(c: ClassCache, src: Source, max: nat)
    requires DrainSource(c, src) && Total(c) >= 2 && max > 0
    ensures DrainRest(c, src, max).hot == c.hot
  {
    if src == FromHot {
      SlabsLenZero(c.slabs);
      forall i | 0 <= i < |c.slabs| ensures SlabLen(c.slabs[i]) == 0 { assert !HasBlocks(c, i); }
    }
  }
}

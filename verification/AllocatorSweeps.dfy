/**
 Cold sweeps. The center sweeps a pool inside longer lock sections: after its inbox is drained
 and again when the section is done with the pool. What it advises there is unused.
 */
module AllocatorSweeps {
  import opened Basics
  import opened SizeClasses
  import opened Headers
  import opened CacheModel
  import opened PoolModel
  import opened AllocatorModel
  import opened AllocatorMoves
  import opened DrainActions
  import opened RefillActions
  import opened PoolActions
  import opened AllocatorSteps
  import opened AllocatorInvariant
  import opened AllocatorSafety
  import opened AllocatorRuns
  import Arena
  import ClassPools

  // ----- Where the center sweeps

  /** `return_batch` for a batch drained from a cache: the inbox comes first, then the batch. */
  ghost predicate DrainSweeps(s: State, k: Key, src: Source, max: nat, s1: State) {
    s1 == DrainInbox(Detach(s, k, src, max), k.cls) || s1 == DrainTo(s, k, src, max)
  }

  /** Inside step `l` from `s`, at `s1`, the pool of class `c` is swept. */
  ghost predicate SweepsInside(s: State, l: Label, c: SizeClass, s1: State)
    requires s.arena.alignment > 0
  {
    match l
    case AllocBatch(_, requested, slab) =>
      && c == RequestClass(requested) && slab < |PoolOf(DrainInbox(s, c), c)|
      && s1 == TakeBatch(DrainInbox(s, c), c, slab, Limits(s, c).refill)
    case AllocSlab(id, requested, slab) =>
      && c == RequestClass(requested) && slab < |PoolOf(DrainInbox(s, c), c)|
      && s1 == LoanSlab(DrainInbox(s, c), Key(id, c), slab)
    case RegisterSpan(id) =>
      var ph := PhaseOf(s, id);
      ph.Carved? && ph.cls == c && ph.blocks != [] && s1 == RegisterCarved(s, Key(id, c), ph.blocks)
    case DrainLocal(id, cls, src) => cls == c && DrainSweeps(s, Key(id, c), src, Total(CacheOf(s, Key(id, c))), s1)
    case Free(id, b, expected, src) =>
      var k := Key(id, c);
      && FreeCheck(s, b, expected) == Ok(c) && Hdr(s, b).owner == id
      && Total(CacheOf(PushFreed(s, k, b), k)) > Limits(s, c).local
      && DrainSweeps(PushFreed(s, k, b), k, src, Limits(s, c).drain, s1)
    case _ => false
  }

  /** The states from `s` on, up to the end of the next step, in which the pool of class `c` may be swept. */
  ghost predicate SweepPoint(s: State, c: SizeClass, s1: State) {
    || s1 == s
    || s1 == DrainInbox(s, c)
    || (s.arena.alignment > 0 && exists l :: Enabled(s, l) && SweepsInside(s, l, c, s1))
  }

  lemma DrainSweepInv(s: State, k: Key, src: Source, max: nat, s1: State, loc: Locs) returns (loc': Locs)
    requires Inv(s, loc) && s.hand == [] && max > 0 && DrainSource(CacheOf(s, k), src) && DrainSweeps(s, k, src, max, s1)
    ensures Inv(s1, loc')
  {
    hide Inv, Detach, DrainInbox, DrainTo, DrainSource;
    DrainSourceNonempty(CacheOf(s, k), src);
    if s1 == DrainTo(s, k, src, max) {
      loc' := DrainToInv(s, k, src, max, loc);
    } else {
      loc' := DetachInv(s, k, src, max, loc);
      loc' := DrainInboxInv(Detach(s, k, src, max), k.cls, loc');
    }
  }

  lemma RefillSweepInv(s: State, l: Label, c: SizeClass, s1: State, loc: Locs) returns (loc': Locs)
    requires StepInv(s, loc) && Enabled(s, l) && SweepsInside(s, l, c, s1) && (l.AllocBatch? || l.AllocSlab?)
    ensures Inv(s1, loc')
  {
    hide Placed, Shaped, Threaded, BlocksOk, PendingOk, OneOwner, CarvedOk, RegisteredOk, Bounded, PhasesOk;
    hide DrainInbox, TakeBatch, LoanSlab, Total;
    if l.AllocBatch? {
      assert Limits(s, c).Valid();
      loc' := DrainInboxInv(s, c, loc);
      DrainInboxFrame(s, c);
      TakeBatchInv(DrainInbox(s, c), c, l.slab, Limits(s, c).refill, loc');
      loc' := Relocate(loc', multiset(s1.hand), Hand);
    } else {
      loc' := SlabInv(s, loc, Key(l.id, c), l.slab);
    }
  }

  lemma FreeSweepInv(s: State, l: Label, c: SizeClass, s1: State, loc: Locs) returns (loc': Locs)
    requires StepInv(s, loc) && Enabled(s, l) && SweepsInside(s, l, c, s1) && l.Free?
    ensures Inv(s1, loc')
  {
    hide Placed, Shaped, Threaded, BlocksOk, PendingOk, OneOwner, CarvedOk, RegisteredOk, Bounded, PhasesOk;
    hide FreeCheck, PushFreed, DrainSweeps, DrainSource, Total;
    var k := Key(l.id, c);
    assert Limits(s, c).Valid();
    FreeCheckExact(s, loc, l.block, l.expected);
    PushFreedFrame(s, k, l.block);
    loc' := PushFreedInv(s, loc, k, l.block);
    loc' := DrainSweepInv(PushFreed(s, k, l.block), k, l.src, Limits(s, c).drain, s1, loc');
  }

  /** The core invariant holds wherever a pool is swept. */
  lemma SweepPointInv(s: State, c: SizeClass, s1: State) returns (loc: Locs)
    requires Reachable(s) && SweepPoint(s, c, s1)
    ensures Inv(s1, loc)
  {
    hide Placed, Shaped, Threaded, BlocksOk, PendingOk, OneOwner, CarvedOk, RegisteredOk, Bounded, PhasesOk, Reachable;
    hide SweepsInside, Enabled, DrainInbox;
    loc := ReachableInv(s);
    if s1 == s {
    } else if s1 == DrainInbox(s, c) {
      loc := DrainInboxInv(s, c, loc);
    } else {
      var l :| Enabled(s, l) && SweepsInside(s, l, c, s1);
      loc := InsideInv(s, l, c, s1, loc);
    }
  }

  lemma InsideInv(s: State, l: Label, c: SizeClass, s1: State, loc: Locs) returns (loc': Locs)
    requires StepInv(s, loc) && Enabled(s, l) && SweepsInside(s, l, c, s1)
    ensures Inv(s1, loc')
  {
    hide Placed, Shaped, Threaded, BlocksOk, OneOwner, CarvedOk, RegisteredOk, Bounded, PhasesOk;
    hide FreeCheck, DrainSweeps, DrainInbox, RegisterCarved;
    if l.AllocBatch? || l.AllocSlab? {
      loc' := RefillSweepInv(s, l, c, s1, loc);
    } else if l.Free? {
      loc' := FreeSweepInv(s, l, c, s1, loc);
    } else if l.DrainLocal? {
      var k := Key(l.id, c);
      DrainSourceExists(CacheOf(s, k));
      loc' := DrainSweepInv(s, k, l.src, Total(CacheOf(s, k)), s1, loc);
    } else {
      var k, blocks := Key(l.id, c), PhaseOf(s, l.id).blocks;
      RegisterCarvedInv(s, loc, k, blocks);
      loc' := WithBlocks(loc, blocks, NewLoc(s, k));
    }
  }

  // ----- A sweep inside a lock section may as well follow it

  lemma SweepThenTake(s: State, c: SizeClass, i: nat, slab: nat, max: nat)
    requires i < |PoolOf(s, c)| && PoolOf(s, c)[i].state == FullHot
    requires slab < |PoolOf(s, c)| && PoolOf(s, c)[slab].state == Partial
    ensures |PoolOf(TakeBatch(s, c, slab, max), c)| == |PoolOf(s, c)|
    ensures TakeBatch(SweepSlab(s, c, i), c, slab, max) == SweepSlab(TakeBatch(s, c, slab, max), c, i)
  {
    hide TakePartial, PartialBatch;
    var pool := PoolOf(s, c);
    var cold := pool[i := pool[i].(state := FullCold)];
    assert PoolOf(SweepSlab(s, c, i), c) == cold && cold[slab] == pool[slab];
    if PartialBatch(pool[slab], max) != [] {
      var rest := TakePartial(pool[slab], max);
      assert cold[slab := rest] == pool[slab := rest][i := cold[i]];
      assert s.pools[c := cold][c := cold[slab := rest]] == s.pools[c := pool[slab := rest]][c := pool[slab := rest][i := cold[i]]];
    }
  }

  lemma SweepThenLoan(s: State, k: Key, i: nat, slab: nat)
    requires i < |PoolOf(s, k.cls)| && PoolOf(s, k.cls)[i].state == FullHot && slab < |PoolOf(s, k.cls)|
    ensures |PoolOf(LoanSlab(s, k, slab), k.cls)| == |PoolOf(s, k.cls)|
    ensures LoanSlab(SweepSlab(s, k.cls, i), k, slab) ==
            if slab == i then LoanSlab(s, k, slab) else SweepSlab(LoanSlab(s, k, slab), k.cls, i)
  {
    var s1 := LoanSlab(SweepSlab(s, k.cls, i), k, slab);
    var s2 := if slab == i then LoanSlab(s, k, slab) else SweepSlab(LoanSlab(s, k, slab), k.cls, i);
    assert PoolOf(s1, k.cls) == PoolOf(s2, k.cls);
    assert s1.pools == s2.pools;
  }

  lemma SweepThenReturnOne(s: State, loc: Locs, i: nat)
    requires Inv(s, loc) && s.hand != [] && i < |PoolOf(s, s.handCls)| && PoolOf(s, s.handCls)[i].state == FullHot
    ensures var s1 := ReturnFromHand(s);
            && i < |PoolOf(s1, s.handCls)| && PoolOf(s1, s.handCls)[i].state == FullHot
            && ReturnFromHand(SweepSlab(s, s.handCls, i)) == SweepSlab(s1, s.handCls, i)
  {
    hide Placed, Shaped, Threaded, BlocksOk, PendingOk, OneOwner, CarvedOk, RegisteredOk, LimitsOk, PoolHome;
    var c, b := s.handCls, s.hand[0];
    HandTarget(s, loc);
    ReturnTarget(s, loc, b);
    SameHome(PoolOf(s, c), PoolOf(SweepSlab(s, c, i), c), b);
    var s1, s2 := ReturnFromHand(SweepSlab(s, c, i)), SweepSlab(ReturnFromHand(s), c, i);
    assert PoolOf(s1, c) == PoolOf(s2, c);
    assert s1.pools == s2.pools;
  }

  lemma {:induction false} SweepThenReturn(s: State, loc: Locs, i: nat)
    requires Inv(s, loc) && i < |PoolOf(s, s.handCls)| && PoolOf(s, s.handCls)[i].state == FullHot
    ensures i < |PoolOf(ReturnHand(s), s.handCls)|
    ensures ReturnHand(SweepSlab(s, s.handCls, i)) == SweepSlab(ReturnHand(s), s.handCls, i)
    decreases |s.hand|
  {
    hide Inv, PoolOf, ReturnFromHand, SweepSlab;
    HandAfter(s, i);
    if s.hand != [] {
      SweepThenReturnOne(s, loc, i);
      var loc' := ReturnFromHandInv(s, loc);
      SweepThenReturn(ReturnFromHand(s), loc', i);
    }
  }

  lemma HandAfter(s: State, i: nat)
    requires i < |PoolOf(s, s.handCls)|
    ensures SweepSlab(s, s.handCls, i).hand == s.hand && SweepSlab(s, s.handCls, i).handCls == s.handCls
    ensures s.hand != [] ==> ReturnFromHand(s).hand == s.hand[1..] && ReturnFromHand(s).handCls == s.handCls
  {
    hide ReturnBlock, ReturnLink;
  }

  // ----- What a sweep advises

  /** Dropping the pages of the range drops a byte of block `b`. */
  ghost predicate Dropped(s: State, range: (Addr, nat), page: nat, b: Addr)
    requires page > 0 && b in s.carved
  {
    exists p: Addr :: Arena.PageOf(range, page, p) && b < p + page && p < b + Limits(s, s.carved[b]).blockSize
  }

  /** The block has a byte on the pages that advice for slab `i` drops. */
  ghost predicate OnAdvisedPages(s: State, c: SizeClass, i: nat, page: nat, b: Addr)
    requires i < |PoolOf(s, c)| && page > 0 && b in s.carved
  {
    var slab := PoolOf(s, c)[i];
    var range := Arena.PageAlignedInnerRange(slab.start, Limits(s, c).blockSize * |slab.blocks|, page);
    range.Some? && Dropped(s, range.value, page, b)
  }

  /** Advice for a slab only drops bytes of the slab. */
  lemma DroppedIsInside(s: State, range: (Addr, nat), page: nat, b: Addr, start: Addr, len: nat)
    requires page > 0 && b in s.carved && Arena.PageAlignedInnerRange(start, len, page) == Some(range) && Dropped(s, range, page, b)
    ensures b < start + len && start < b + Limits(s, s.carved[b]).blockSize
  {
    hide Arena.PageAlignedInnerRange, Limits;
    Arena.InnerRangeIsWholePages(start, len, page);
    var p: Addr :| Arena.PageOf(range, page, p) && b < p + page && p < b + Limits(s, s.carved[b]).blockSize;
    Arena.PageInsideRange(range.0, range.1, page, p);
  }

  /**
   Wherever a pool is swept, the pages that advice for a full slab drops hold no byte of a
   block of any other slab, and none of its own blocks is live or on a list, so reclaiming
   them destroys nothing in use.
   */
  lemma ColdPagesAreUnused(s: State, s1: State, c: SizeClass, i: nat, page: nat, b: Addr)
    requires Reachable(s) && SweepPoint(s, c, s1)
    requires i < |PoolOf(s1, c)| && PoolOf(s1, c)[i].Full() && page > 0 && b in s1.carved
    requires OnAdvisedPages(s1, c, i, page, b)
    ensures b in PoolOf(s1, c)[i].blocks && b !in s1.live
    ensures forall p :: IsList(s1, p) ==> b !in Contents(s1, p)
  {
    hide Reachable, SweepPoint, Dropped;
    var loc := SweepPointInv(s, c, s1);
    var slab, len := PoolOf(s1, c)[i], Limits(s1, c).blockSize * |PoolOf(s1, c)[i].blocks|;
    DroppedIsInside(s1, Arena.PageAlignedInnerRange(slab.start, len, page).value, page, b, slab.start, len);
    InsideSlab(s1, loc, c, i, b);
    FullSlabIsUnused(s1, loc, c, i, b);
  }

  /** Hot full slabs may have turned cold, as an earlier sweep of the same lock section does. */
  ghost predicate Cooled(pool: Pool, pool': Pool) {
    && |pool'| == |pool|
    && (forall i :: 0 <= i < |pool| ==>
          pool'[i] == pool[i] || (pool[i].state == FullHot && pool'[i] == pool[i].(state := FullCold)))
  }

  /**
   What a sweep of the pool's own records advises, anywhere the center sweeps, is unused, and
   its effect on the pool is the sweep step of the state machine.
   */
  lemma SweepAdvisesUnusedPages(s: State, s1: State, c: SizeClass, slabs: seq<ClassPools.SlabRecord>, i: nat, epoch: nat,
                                advised: bool, page: nat, range: Option<(Addr, nat)>, pool': Pool)
    requires Reachable(s) && SweepPoint(s, c, s1) && page > 0 && range.Some?
    requires Cooled(PoolOf(s1, c), ClassPools.Models(slabs))
    requires forall j :: 0 <= j < |slabs| ==> slabs[j].blockSize == Limits(s1, c).blockSize
    requires ClassPools.SweptSlab(slabs, i, epoch, advised, page, range, pool')
    ensures s1.arena.alignment > 0 && Enabled(s1, Sweep(c, i))
    ensures Cooled(PoolOf(if advised then SweepSlab(s1, c, i) else s1, c), pool')
    ensures advised && ClassPools.Models(slabs) == PoolOf(s1, c) ==> PoolOf(SweepSlab(s1, c, i), c) == pool'
    ensures forall b :: b in s1.carved && Dropped(s1, range.value, page, b) ==>
              b in PoolOf(s1, c)[i].blocks && b !in s1.live && forall p :: IsList(s1, p) ==> b !in Contents(s1, p)
  {
    hide Reachable, SweepPoint, IsList, Contents, Limits, Arena.PageAlignedInnerRange, Dropped;
    hide Placed, Shaped, Threaded, BlocksOk, PendingOk, OneOwner, CarvedOk, RegisteredOk;
    var loc := SweepPointInv(s, c, s1);
    assert ClassPools.Models(slabs)[i] == slabs[i].Model();
    assert PoolOf(s1, c)[i] == slabs[i].Model() && PoolOf(s1, c)[i].Full();
    forall b | b in s1.carved && Dropped(s1, range.value, page, b)
      ensures b in PoolOf(s1, c)[i].blocks && b !in s1.live && forall p :: IsList(s1, p) ==> b !in Contents(s1, p)
    {
      ColdPagesAreUnused(s, s1, c, i, page, b);
    }
  }

  lemma FullSlabIsUnused(s: State, loc: Locs, c: SizeClass, i: nat, b: Addr)
    requires Placed(s, loc) && i < |PoolOf(s, c)| && PoolOf(s, c)[i].Full() && b in PoolOf(s, c)[i].blocks
    ensures b !in s.live
    ensures forall p :: IsList(s, p) ==> b !in Contents(s, p)
  {
    PlacedAt(s, loc, Central(c, i));
    assert b in At(s, Central(c, i));
    PlacedAt(s, loc, Live);
    assert b !in At(s, Live);
    forall p | IsList(s, p) ensures b !in Contents(s, p) {
      PlacedAt(s, loc, p);
      assert b in Contents(s, p) ==> b in At(s, p);
    }
  }

  /** An address inside a span lies in one of its blocks. */
  lemma InsideBlock(start: Addr, size: nat, n: nat, b: Addr)
    requires size > 0 && start <= b < start + size * n
    ensures var j := Quotient(b - start, size);
            j < n && Arena.BlockAt(start, size, j) <= b < Arena.BlockAt(start, size, j) + size
  {
    var j := Quotient(b - start, size);
    Arena.QuotientBounds(b - start, size);
    if j >= n {
      MulMonotone(n, j, size);
    }
  }

  /** Of two carved blocks that overlap, both are the same. */
  lemma OverlapIsSame(s: State, b: Addr, x: Addr)
    requires s.arena.alignment > 0 && CarvedOk(s) && b in s.carved && x in s.carved
    requires x <= b < x + Limits(s, s.carved[x]).blockSize
    ensures x == b
  {
  }

  /** A carved block that overlaps a slab's bytes is one of its blocks. */
  lemma InsideSlab(s: State, loc: Locs, c: SizeClass, i: nat, b: Addr)
    requires LimitsOk(s) && CarvedOk(s) && RegisteredOk(s, loc) && Shaped(s, loc)
    requires i < |PoolOf(s, c)| && b in s.carved
    requires var slab, size := PoolOf(s, c)[i], Limits(s, c).blockSize;
             b < slab.start + size * |slab.blocks| && slab.start < b + Limits(s, s.carved[b]).blockSize
    ensures b in PoolOf(s, c)[i].blocks
  {
    hide LimitsOk, Shaped, RegisteredOk, Limits, Quotient, Arena.BlockAt, CarvedOk, IsSpan, PoolOf;
    var slab, size := PoolOf(s, c)[i], Limits(s, c).blockSize;
    SlabIsSpan(s, loc, c, i);
    SlabBlockCarved(s, loc, c, i, slab.start);
    if b < slab.start {
      OverlapIsSame(s, slab.start, b);
    }
    var j := Quotient(b - slab.start, size);
    InsideBlock(slab.start, size, |slab.blocks|, b);
    SpanBlock(slab.blocks, size, j);
    var x: Addr := Arena.BlockAt(slab.start, size, j);
    SlabBlockCarved(s, loc, c, i, x);
    OverlapIsSame(s, b, x);
  }

  lemma SlabIsSpan(s: State, loc: Locs, c: SizeClass, i: nat)
    requires LimitsOk(s) && Shaped(s, loc) && i < |PoolOf(s, c)|
    ensures var slab := PoolOf(s, c)[i];
            && slab.blocks != [] && slab.start == slab.blocks[0] && slab.start in slab.blocks
            && IsSpan(slab.blocks, Limits(s, c).blockSize)
    ensures Limits(s, c).blockSize > 0 && s.arena.alignment > 0
  {
    assert PoolSlabOk(s, loc, c, i);
    assert Limits(s, c).Valid();
  }

  lemma SpanBlock(blocks: seq<Addr>, size: nat, j: nat)
    requires IsSpan(blocks, size) && j < |blocks|
    ensures Arena.BlockAt(blocks[0], size, j) in blocks
  {
    assert Arena.BlockAt(blocks[0], size, j) == blocks[j];
  }

  lemma SlabBlockCarved(s: State, loc: Locs, c: SizeClass, i: nat, x: Addr)
    requires RegisteredOk(s, loc) && Shaped(s, loc) && i < |PoolOf(s, c)| && x in PoolOf(s, c)[i].blocks
    ensures x in s.carved && s.carved[x] == c
  {
    assert PoolSlabOk(s, loc, c, i);
  }
}

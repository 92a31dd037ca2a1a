/**
 How many blocks each step moves, from where to where: reservations, refills, hits, local and
 remote frees, and what the center makes of blocks that come back.
 */
module AllocatorTransfers {
  import opened Basics
  import opened SizeClasses
  import opened CacheModel
  import opened PoolModel
  import opened AllocatorModel
  import opened AllocatorSteps
  import opened AllocatorInvariant
  import opened AllocatorSafety
  import opened AllocatorRuns
  import opened AllocatorEffects
  import opened PoolActions
  import Arena

  // ----- Reservations

  lemma BaseShift(base: Addr, len: nat, size: nat, target: nat, start: nat, n: nat)
    requires Arena.TakesWhatFits(len, size, target, start, n)
    ensures Arena.TakesWhatFits(base + len, size, target, base + start, n)
  {
  }

  lemma PlannedSpan(s: State, c: SizeClass)
    requires LimitsOk(s) && CarvedOk(s) && PlanFor(s, c).Some?
    ensures Limits(s, c).blockSize > 0
    ensures var span, size := PlanFor(s, c).value, Limits(s, c).blockSize;
            var start, n := s.arena.base + span.start, |CarvedBlocks(s, c, span)|;
            && CarvedBlocks(s, c, span) == Arena.Carve(start, size, n) && span.size == n * size
            && s.next <= start < s.next + s.arena.alignment && start % s.arena.alignment == 0
            && Arena.TakesWhatFits(s.arena.base + s.arena.len, size, Limits(s, c).refill, start, n)
  {
    hide Arena.TakesWhatFits, Arena.PlanBlocks;
    assert Limits(s, c).Valid();
    var g, size, cur := s.arena, Limits(s, c).blockSize, s.next - s.arena.base;
    Arena.PlanFits(g, Arena.Request.Blocks(size, Limits(s, c).refill), cur);
    var span := PlanFor(s, c).value;
    var n: nat :| span.size == n * size && Arena.TakesWhatFits(g.len, size, Limits(s, c).refill, span.start, n);
    QuotientOfProduct(n, size);
    BaseShift(g.base, g.len, size, Limits(s, c).refill, span.start, n);
    Arena.SumOfMultiples(g.base, span.start, g.alignment);
  }

  /** A reservation starts at the first aligned address behind the cursor and takes as many blocks as fit, up to a refill. */
  lemma CarveTakesWhatFits(s: State, id: nat, s': State)
    requires Reachable(s) && Step(s, CarveSpan(id), s')
    ensures PhaseOf(s, id).Carving? && PhaseOf(s', id).Carved?
    ensures var c, blocks := PhaseOf(s, id).cls, PhaseOf(s', id).blocks;
            var size := Limits(s, c).blockSize;
            && PhaseOf(s', id).cls == c && PhaseOf(s', id).requested == PhaseOf(s, id).requested
            && blocks != [] && blocks == Arena.Carve(blocks[0], size, |blocks|)
            && s.next <= blocks[0] < s.next + s.arena.alignment && blocks[0] % s.arena.alignment == 0
            && Arena.TakesWhatFits(s.arena.base + s.arena.len, size, Limits(s, c).refill, blocks[0], |blocks|)
            && s'.next == blocks[0] + |blocks| * size
  {
    hide Reachable, PlanFor, CarvedBlocks;
    hide Placed, Shaped, Threaded, BlocksOk, PendingOk, OneOwner, RegisteredOk, Bounded, PhasesOk;
    var loc := ReachableInv(s);
    PlannedSpan(s, PhaseOf(s, id).cls);
  }

  // ----- Refills

  /** A refill brings all it can: a batch as many blocks as a refill allows and its slab holds, a slab all its blocks. */
  lemma RefillBringsAll(s: State, l: Label, s': State)
    requires Reachable(s) && Step(s, l, s') && (l.AllocBatch? || l.AllocSlab?)
    ensures var k := Key(l.id, RequestClass(l.requested));
            var pool := PoolOf(DrainInbox(s, k.cls), k.cls);
            && l.slab < |pool|
            && Total(CacheOf(s', k)) + 1 ==
               if l.AllocBatch? then Min(Limits(s, k.cls).refill, |pool[l.slab].free|) else |pool[l.slab].blocks|
  {
    hide Reachable, Placed, Shaped, Threaded, BlocksOk, PendingOk, OneOwner, CarvedOk, RegisteredOk, LimitsOk, Bounded, PhasesOk;
    hide DrainInbox, Total, AllocFromBatch, AllocFromSlab;
    var loc := ReachableInv(s);
    var k := Key(l.id, RequestClass(l.requested));
    if l.AllocBatch? {
      BatchBrings(s, loc, k, l.requested, l.slab);
    } else {
      SlabBrings(s, loc, k, l.requested, l.slab);
    }
  }

  lemma BatchBrings(s: State, loc: Locs, k: Key, requested: nat, slab: nat)
    requires Inv(s, loc) && s.hand == [] && Total(CacheOf(s, k)) == 0
    requires RefillChoice(PoolOf(DrainInbox(s, k.cls), k.cls), Batch(slab))
    ensures Total(CacheOf(AllocFromBatch(s, k, requested, slab), k)) + 1 ==
            Min(Limits(s, k.cls).refill, |PoolOf(DrainInbox(s, k.cls), k.cls)[slab].free|)
  {
    hide Placed, Shaped, Threaded, BlocksOk, PendingOk, OneOwner, CarvedOk, RegisteredOk, LimitsOk, DrainInbox, AcceptHand, Total, TakePartial;
    var loc' := BatchInv(s, loc, k, slab);
    BatchFrame(s, k, slab);
    var s2 := TakeBatch(DrainInbox(s, k.cls), k.cls, slab, Limits(s, k.cls).refill);
    PopNewBatch(CacheOf(s, k), s2.hand);
    PopLiveLeaves(AcceptHand(s2, k), k, FromShared, requested);
  }

  lemma SlabBrings(s: State, loc: Locs, k: Key, requested: nat, slab: nat)
    requires Inv(s, loc) && Total(CacheOf(s, k)) == 0
    requires RefillChoice(PoolOf(DrainInbox(s, k.cls), k.cls), Whole(slab))
    ensures Total(CacheOf(AllocFromSlab(s, k, requested, slab), k)) + 1 == |PoolOf(DrainInbox(s, k.cls), k.cls)[slab].blocks|
  {
    hide Placed, Shaped, Threaded, BlocksOk, PendingOk, OneOwner, CarvedOk, RegisteredOk, LimitsOk, DrainInbox, LoanSlab, Total;
    var loc' := SlabInv(s, loc, k, slab);
    SlabFrame(s, k, slab);
    var s1 := DrainInbox(s, k.cls);
    var lent, src := PoolOf(s1, k.cls)[slab], RecordFor(s1, k, PoolOf(s1, k.cls)[slab].start);
    PopNewSlab(s, k, lent.start, lent.blocks, src);
    PopLiveLeaves(LoanSlab(s1, k, slab), k, src, requested);
  }

  // ----- Hits

  /**
   A hit takes the hot block if there is one; else a block of a local slab, a reclaimed one
   before a fresh one; else the first shared block. Of each list it takes the block that came last.
   */
  lemma HitTakesNearest(s: State, l: Label, s': State) returns (b: Addr)
    requires Reachable(s) && Step(s, l, s') && l.AllocHit?
    ensures Issues(s, s', Key(l.id, RequestClass(l.requested)), l.requested, b)
    ensures var c := CacheOf(s, Key(l.id, RequestClass(l.requested)));
            if c.hot.Some? then b == c.hot.value
            else if exists i: nat :: HasBlocks(c, i) then
              exists i: nat :: HasBlocks(c, i) && b == if c.slabs[i].free != [] then c.slabs[i].free[0] else c.slabs[i].untouched[0]
            else c.shared != [] && b == c.shared[0]
  {
    hide Reachable, Placed, Shaped, Threaded, BlocksOk, PendingOk, OneOwner, CarvedOk, RegisteredOk, Bounded, PhasesOk, Issues, Apply;
    var loc := ReachableInv(s);
    b := AllocIssues(s, loc, l);
  }

  /** A hit writes a link word only for a block never handed out before; a reused block keeps its stale one. */
  lemma HitKeepsLinks(s: State, l: Label, s': State) returns (b: Addr)
    requires Reachable(s) && Step(s, l, s') && l.AllocHit?
    ensures var k := Key(l.id, RequestClass(l.requested));
            && Issues(s, s', k, l.requested, b)
            && s'.link == if l.src.FromSlab? && b in Contents(s, Untouched(k, l.src.slab)) then s.link[b := 0] else s.link
  {
    hide Reachable, Placed, Shaped, Threaded, BlocksOk, PendingOk, OneOwner, CarvedOk, RegisteredOk, Bounded, PhasesOk, Issues;
    hide PopTo, Contents, CacheOf;
    var loc := ReachableInv(s);
    b := AllocIssues(s, loc, l);
    PopLinks(s, loc, Key(l.id, RequestClass(l.requested)), l.src, l.requested);
  }

  lemma PopLinks(s: State, loc: Locs, k: Key, src: Source, requested: nat)
    requires Placed(s, loc) && PopSource(CacheOf(s, k), src)
    ensures Nonempty(CacheOf(s, k), src)
    ensures var b := PopBlock(CacheOf(s, k), src);
            PopTo(s, k, src, requested).link ==
            if src.FromSlab? && b in Contents(s, Untouched(k, src.slab)) then s.link[b := 0] else s.link
  {
    hide Placed, At, CacheOf;
    PopLinkWrite(s, k, src, requested);
    if src.FromSlab? && CacheOf(s, k).slabs[src.slab].free != [] {
      ReclaimedIsNotUntouched(s, loc, k, src.slab);
    }
  }

  lemma PopLinkWrite(s: State, k: Key, src: Source, requested: nat)
    requires Nonempty(CacheOf(s, k), src)
    ensures PopTo(s, k, src, requested).link ==
            if PopReuse(CacheOf(s, k), src) == NeedsHeaderRewrite then s.link[PopBlock(CacheOf(s, k), src) := 0] else s.link
  {
    hide Refreshed, PopRest, Hdr, CacheOf;
  }

  lemma ReclaimedIsNotUntouched(s: State, loc: Locs, k: Key, i: nat)
    requires Placed(s, loc) && i < |CacheOf(s, k).slabs| && CacheOf(s, k).slabs[i].free != []
    ensures CacheOf(s, k).slabs[i].free[0] !in Contents(s, Untouched(k, i))
  {
    var b := CacheOf(s, k).slabs[i].free[0];
    PlacedAt(s, loc, Reclaimed(k, i));
    assert b in At(s, Reclaimed(k, i));
    PlacedAt(s, loc, Untouched(k, i));
    assert b !in At(s, Untouched(k, i));
  }

  // ----- Frees

  /**
   A free through the owner cache keeps every block up to the limit; above it, one drain hands
   the center `drain_count` blocks, or all of its source.
   */
  lemma LocalFreeDrains(s: State, l: Label, s': State)
    requires Reachable(s) && Step(s, l, s') && l.Free?
    requires FreeCheck(s, l.block, l.expected).Ok? && Hdr(s, l.block).owner == l.id
    ensures var k := Key(l.id, FreeCheck(s, l.block, l.expected).value);
            var n, lim, pushed := Total(CacheOf(s, k)) + 1, Limits(s, k.cls), Push(CacheOf(s, k), l.block);
            var drained := if n <= lim.local then 0 else Min(lim.drain, SourceLen(pushed, l.src));
            && Total(CacheOf(s', k)) + drained == n && AtRest(s', k.cls) == AtRest(s, k.cls) + drained
            && (n > lim.local ==> DrainSource(pushed, l.src) && drained > 0)
  {
    hide Reachable, Placed, Shaped, Threaded, BlocksOk, PendingOk, OneOwner, CarvedOk, RegisteredOk, Bounded, PhasesOk;
    hide FreeCheck, PushFreed, Total, DrainTo, DrainSource, SourceLen, AtRest, Push, Limits;
    var loc := ReachableInv(s);
    var k := Key(l.id, FreeCheck(s, l.block, l.expected).value);
    FreeCheckExact(s, loc, l.block, l.expected);
    LimitsAt(s, k.cls);
    PushFreedFrame(s, k, l.block);
    PushTotal(CacheOf(s, k), l.block);
    var s1 := PushFreed(s, k, l.block);
    SameAtRest(s, s1, k.cls);
    if Total(CacheOf(s1, k)) > Limits(s, k.cls).local {
      var loc1 := PushFreedInv(s, loc, k, l.block);
      DrainHandsOver(s1, loc1, k, l.src, Limits(s, k.cls).drain);
    }
  }

  lemma LimitsAt(s: State, c: SizeClass)
    requires LimitsOk(s)
    ensures Limits(s, c).Valid()
  {
  }

  lemma SameAtRest(s: State, s': State, c: SizeClass)
    requires s'.pools == s.pools && s'.inboxes == s.inboxes
    ensures AtRest(s', c) == AtRest(s, c)
  {
  }

  lemma DrainHandsOver(s: State, loc: Locs, k: Key, src: Source, max: nat)
    requires Inv(s, loc) && s.hand == [] && max > 0 && DrainSource(CacheOf(s, k), src)
    ensures var s', n := DrainTo(s, k, src, max), Min(max, SourceLen(CacheOf(s, k), src));
            n > 0 && Total(CacheOf(s', k)) + n == Total(CacheOf(s, k)) && AtRest(s', k.cls) == AtRest(s, k.cls) + n
  {
    hide Inv, DrainTo, Total, AtRest, SourceLen, DrainRest, DrainBatch;
    DrainSourceNonempty(CacheOf(s, k), src);
    DrainToCount(s, loc, k, src, max);
    DrainToFrame(s, k, src, max);
    DrainTotal(CacheOf(s, k), src, max);
  }

  /** A free through another cache stages the block in front; at `drain_count` the whole list goes to the inbox, in order. */
  lemma RemoteFreeStages(s: State, l: Label, s': State)
    requires Reachable(s) && Step(s, l, s') && l.Free?
    requires FreeCheck(s, l.block, l.expected).Ok? && Hdr(s, l.block).owner != l.id
    ensures var k := Key(l.id, FreeCheck(s, l.block, l.expected).value);
            var staged := [l.block] + StagedOf(s, k);
            if |staged| < Limits(s, k.cls).drain then StagedOf(s', k) == staged && s'.inboxes == s.inboxes
            else StagedOf(s', k) == [] && InboxOf(s', k.cls) == staged + InboxOf(s, k.cls)
  {
    hide Reachable, FreeCheck;
    var k := Key(l.id, FreeCheck(s, l.block, l.expected).value);
    assert s' == FreeRemote(s, k, l.block);
    hide Apply, Enabled;
    FreeToStagedFrame(s, k, l.block);
  }

  /** At most one record of a cache has a given block. */
  lemma HomeIsUnique(s: State, loc: Locs, k: Key, i: nat, j: nat, b: Addr)
    requires Shaped(s, loc) && i < |CacheOf(s, k).slabs| && j < |CacheOf(s, k).slabs|
    requires b in CacheOf(s, k).slabs[i].blocks && b in CacheOf(s, k).slabs[j].blocks
    ensures i == j
  {
    assert LocalSlabOk(s, loc, k, i) && LocalSlabOk(s, loc, k, j);
    var x, y := loc[CacheOf(s, k).slabs[i].start].slab, loc[CacheOf(s, k).slabs[j].start].slab;
    assert PoolSlabOk(s, loc, k.cls, x) && PoolSlabOk(s, loc, k.cls, y);
  }

  /** Where the previous hot block of class `k` belongs: the list of its own slab, or the shared list. */
  ghost predicate BelongsTo(s: State, k: Key, b: Addr, p: Place) {
    match p
    case Reclaimed(q, i) => q == k && i < |CacheOf(s, k).slabs| && b in CacheOf(s, k).slabs[i].blocks
    case Shared(q) => q == k && forall i :: 0 <= i < |CacheOf(s, k).slabs| ==> b !in CacheOf(s, k).slabs[i].blocks
    case _ => false
  }

  /**
   A free through the owner cache that drains nothing makes its block hot and puts the previous
   hot block in front of the list it belongs to; no other place changes.
   */
  lemma FreedBlocksGoHome(s: State, l: Label, s': State, p: Place)
    requires Reachable(s) && Step(s, l, s') && l.Free?
    requires FreeCheck(s, l.block, l.expected).Ok? && Hdr(s, l.block).owner == l.id
    requires var k := Key(l.id, FreeCheck(s, l.block, l.expected).value); Total(CacheOf(s, k)) < Limits(s, k.cls).local
    ensures var k := Key(l.id, FreeCheck(s, l.block, l.expected).value);
            var hot := CacheOf(s, k).hot;
            Contents(s', p) ==
            if p == Hot(k) then [l.block]
            else if hot.Some? && BelongsTo(s, k, hot.value, p) then [hot.value] + Contents(s, p)
            else Contents(s, p)
  {
    hide Reachable, Placed, Threaded, BlocksOk, PendingOk, OneOwner, CarvedOk, RegisteredOk, LimitsOk, Bounded, PhasesOk;
    hide FreeCheck, PushFreed, Total, DrainTo, DrainSource, Push, Limits;
    var loc := ReachableInv(s);
    var k := Key(l.id, FreeCheck(s, l.block, l.expected).value);
    PushFreedFrame(s, k, l.block);
    PushTotal(CacheOf(s, k), l.block);
    assert s' == PushFreed(s, k, l.block);
    hide Apply, Enabled;
    PushedContents(s, s', loc, k, l.block, p);
  }

  lemma PushedContents(s: State, s': State, loc: Locs, k: Key, b: Addr, p: Place)
    requires Shaped(s, loc) && s'.(live := s.live, hdr := s.hdr, caches := s.caches, link := s.link) == s
    requires CacheOf(s', k) == Push(CacheOf(s, k), b) && forall q :: q != k ==> CacheOf(s', q) == CacheOf(s, q)
    ensures var hot := CacheOf(s, k).hot;
            Contents(s', p) ==
            if p == Hot(k) then [b]
            else if hot.Some? && BelongsTo(s, k, hot.value, p) then [hot.value] + Contents(s, p)
            else Contents(s, p)
  {
    hide Shaped;
    var c := CacheOf(s, k);
    if c.hot.Some? {
      var h, i := c.hot.value, HomeOf(c.slabs, c.hot.value);
      if p.Reclaimed? && p.key == k && p.slab < |c.slabs| && h in c.slabs[p.slab].blocks {
        HomeIsUnique(s, loc, k, i, p.slab, h);
      }
    }
  }

  // ----- What the center makes of it

  /** A slab turns cold by a sweep only. */
  lemma OnlySweepsCool(s: State, l: Label, s': State, c: SizeClass, i: nat)
    requires Reachable(s) && Step(s, l, s') && i < |PoolOf(s', c)| && PoolOf(s', c)[i].state == FullCold
    ensures i < |PoolOf(s, c)|
    ensures PoolOf(s, c)[i].state == FullCold || l == Sweep(c, i)
  {
    hide Reachable, StepInv, Warm;
    var loc := ReachableInv(s);
    if l.Sweep? {
      SweepIs(s, l);
      SweptOnly(s, l.cls, l.slab, c, i);
    } else {
      hide Apply, Enabled;
      StepWarm(s, loc, l, s');
      WarmAt(s, s', c, i);
    }
  }

  lemma SweptOnly(s: State, c: SizeClass, i: nat, d: SizeClass, j: nat)
    requires i < |PoolOf(s, c)| && j < |PoolOf(SweepSlab(s, c, i), d)|
    ensures j < |PoolOf(s, d)| && (d != c || j != i ==> PoolOf(SweepSlab(s, c, i), d)[j] == PoolOf(s, d)[j])
    ensures PoolOf(SweepSlab(s, c, i), d)[j].blocks == PoolOf(s, d)[j].blocks
  {
  }

  lemma WarmAt(s: State, s': State, c: SizeClass, i: nat)
    requires Warm(s, s') && i < |PoolOf(s', c)| && PoolOf(s', c)[i].state == FullCold
    ensures i < |PoolOf(s, c)| && PoolOf(s, c)[i].state == FullCold
  {
    assert PoolWarm(PoolOf(s, c), PoolOf(s', c));
  }

  /** A slab that a step gives blocks back is full and hot if none is missing any more, and partial otherwise. */
  lemma RegainingSlab(s: State, l: Label, s': State, c: SizeClass, i: nat)
    requires Reachable(s) && Step(s, l, s') && i < |PoolOf(s, c)| && i < |PoolOf(s', c)|
    requires |PoolOf(s', c)[i].Central()| > |PoolOf(s, c)[i].Central()|
    ensures PoolOf(s', c)[i].blocks == PoolOf(s, c)[i].blocks
    ensures PoolOf(s', c)[i].state == if |PoolOf(s', c)[i].Central()| == |PoolOf(s, c)[i].blocks| then FullHot else Partial
  {
    hide Reachable, Placed, Threaded, BlocksOk, PendingOk, OneOwner, CarvedOk, RegisteredOk, Bounded, PhasesOk, Apply, Enabled;
    var loc := ReachableInv(s);
    StepGrows(s, loc, l, s');
    assert PoolGrows(PoolOf(s, c), PoolOf(s', c));
    StepReachable(s, l, s');
    var loc' := ReachableInv(s');
    assert PoolSlabOk(s', loc', c, i) && PoolSlabOk(s, loc, c, i);
    if PoolOf(s', c)[i].state == FullCold {
      OnlySweepsCool(s, l, s', c, i);
      if PoolOf(s, c)[i].state != FullCold {
        SweepKeepsCount(s, l, s');
      }
    }
  }

  /** A swept slab was full before. */
  lemma SweepKeepsCount(s: State, l: Label, s': State)
    requires Step(s, l, s') && l.Sweep?
    ensures l.slab < |PoolOf(s, l.cls)| && l.slab < |PoolOf(s', l.cls)|
    ensures PoolOf(s', l.cls)[l.slab].Central() == PoolOf(s, l.cls)[l.slab].Central()
  {
    SweepIs(s, l);
    hide Apply;
  }
}

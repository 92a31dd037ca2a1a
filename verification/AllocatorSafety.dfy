/** Step by step: every label keeps the invariant between steps, and so does every run. */
module AllocatorSafety {
  import opened Basics
  import opened SizeClasses
  import opened Headers
  import opened CacheModel
  import opened PoolModel
  import opened AllocatorModel
  import opened AllocatorMoves
  import opened AllocatorActions
  import opened RefillActions
  import opened PoolActions
  import opened AllocatorSteps
  import opened AllocatorInvariant
  import Arena

  // ----- Free validation is exact

  /** How a free of a block start of this allocator is answered. */
  ghost function FreeAnswer(s: State, b: Addr, expected: Option<nat>): Result<SizeClass> {
    if b in s.live then
      if expected.Some? && expected.value != s.live[b].requested then Err(SizeMismatch(expected.value, s.live[b].requested))
      else Ok(s.live[b].cls)
    else if Validate(Hdr(s, b)).Ok? then Err(DoubleFree)
    else Err(CorruptHeader)
  }

  /** A header that decodes as small outside the arena's block starts is foreign, whatever else it says. */
  lemma ForeignBlocksAreRefused(s: State, b: Addr, expected: Option<nat>)
    requires s.arena.alignment > 0 && !Arena.ContainsBlockStart(s.arena, b)
    ensures Validate(Hdr(s, b)).Ok? && Validate(Hdr(s, b)).value.Small? ==> FreeCheck(s, b, expected) == Err(ForeignPointer)
    ensures FreeCheck(s, b, expected).Err?
  {
  }

  /**
   On any block start of this allocator the free path accepts exactly the live blocks, with a
   matching size if one is given. Of the others, a block whose header still decodes is a
   double free, and one whose header does not is corrupt.
   */
  lemma FreeCheckExact(s: State, loc: Locs, b: Addr, expected: Option<nat>)
    requires Inv(s, loc) && b in s.carved
    ensures FreeCheck(s, b, expected).Ok? <==>
            b in s.live && (expected.Some? ==> expected.value == s.live[b].requested)
    ensures b in s.live ==> Hdr(s, b).owner == s.live[b].owner && Hdr(s, b).requested == s.live[b].requested
    ensures FreeCheck(s, b, expected) == FreeAnswer(s, b, expected)
  {
    BlockStanding(s, loc, b);
    CarvedIsAligned(s, b);
    if b in s.live {
      LiveFreeCheck(s, b, expected);
    } else {
      DeadFreeCheck(s, b, expected);
    }
  }

  /** Every carved block starts at a multiple of 64. */
  lemma CarvedIsAligned(s: State, b: Addr)
    requires LimitsOk(s) && CarvedOk(s) && b in s.carved
    ensures b % HEADER_ALIGNMENT == 0 && b < 0x1_0000_0000_0000_0000
  {
    hide Limits;
    assert PowerOfTwo(64) by { assert PowerOfTwo(2); assert PowerOfTwo(8); assert PowerOfTwo(32); }
    PowersDivide(64, s.arena.alignment);
    DividesTrans(64, s.arena.alignment, b);
  }

  /** A carved block is either live with a full header or has one the free path rejects. */
  lemma BlockStanding(s: State, loc: Locs, b: Addr)
    requires Placed(s, loc) && BlocksOk(s, loc) && PendingOk(s, loc)
    ensures b in s.live ==> b in loc && LiveHeader(Hdr(s, b), s.live[b]) && s.live[b].cls == loc[b].cls
    ensures b !in s.live ==> Rejected(Hdr(s, b))
  {
    PlacedAt(s, loc, Live);
    assert b in s.live <==> b in At(s, Live);
    if b in loc {
      assert BlockOk(s, b, loc[b]);
    } else {
      assert b !in s.hdr;
    }
  }

  lemma LiveFreeCheck(s: State, b: Addr, expected: Option<nat>)
    requires s.arena.alignment > 0 && Arena.ContainsBlockStart(s.arena, b)
    requires b < 0x1_0000_0000_0000_0000 && b % 64 == 0
    requires b in s.live && LiveHeader(Hdr(s, b), s.live[b])
    ensures FreeCheck(s, b, expected) ==
            if expected.Some? && expected.value != s.live[b].requested
            then Err(SizeMismatch(expected.value, s.live[b].requested)) else Ok(s.live[b].cls)
  {
    var r := s.live[b];
    SmallRoundTrip(r.cls, r.requested, r.owner);
    hide MarkedFreed;
    MarkedFreedIsFlag(Hdr(s, b), b);
  }

  lemma DeadFreeCheck(s: State, b: Addr, expected: Option<nat>)
    requires s.arena.alignment > 0 && Arena.ContainsBlockStart(s.arena, b)
    requires b < 0x1_0000_0000_0000_0000 && b % 64 == 0
    requires Rejected(Hdr(s, b))
    ensures FreeCheck(s, b, expected) == if Validate(Hdr(s, b)).Ok? then Err(DoubleFree) else Err(CorruptHeader)
  {
    hide MarkedFreed;
    MarkedFreedIsFlag(Hdr(s, b), b);
  }

  // ----- Frames for the invariant between steps

  /** Bounds survive a step that changes at most class `k` of one cache, to within its bounds. */
  lemma BoundsPersist(s: State, s': State, k: Key)
    requires Bounded(s) && PhasesOk(s)
    requires s'.limits == s.limits && s'.phases == s.phases
    requires forall q :: q != k ==> CacheOf(s', q) == CacheOf(s, q) && StagedOf(s', q) == StagedOf(s, q)
    requires Total(CacheOf(s', k)) <= Limits(s, k.cls).local || Total(CacheOf(s', k)) < Limits(s, k.cls).refill
    requires |StagedOf(s', k)| < Limits(s, k.cls).drain
    requires PhaseOf(s, k.id) == Idle
    ensures Bounded(s') && PhasesOk(s')
  {
    forall c ensures Limits(s', c) == Limits(s, c) {}
    forall q
      ensures Total(CacheOf(s', q)) <= Limits(s', q.cls).local || Total(CacheOf(s', q)) < Limits(s', q.cls).refill
      ensures |StagedOf(s', q)| < Limits(s', q.cls).drain
    {
      assert q == k || CacheOf(s', q) == CacheOf(s, q);
    }
    forall id | PhaseOf(s', id) != Idle
      ensures 1 <= PhaseOf(s', id).requested <= Payload(PhaseOf(s', id).cls)
      ensures Total(CacheOf(s', Key(id, PhaseOf(s', id).cls))) == 0
    {
      assert PhaseOf(s, id) == PhaseOf(s', id);
      assert id != k.id;
      assert CacheOf(s', Key(id, PhaseOf(s, id).cls)) == CacheOf(s, Key(id, PhaseOf(s, id).cls));
    }
  }

  lemma QuietKeeps(s: State, s': State)
    requires Bounded(s) && PhasesOk(s)
    requires s'.limits == s.limits && s'.phases == s.phases && s'.caches == s.caches && s'.staged == s.staged
    ensures Bounded(s') && PhasesOk(s')
  {
    forall i ensures PhaseOf(s', i) == PhaseOf(s, i) {}
    forall c ensures Limits(s', c) == Limits(s, c) {}
    forall k ensures CacheOf(s', k) == CacheOf(s, k) && StagedOf(s', k) == StagedOf(s, k) {}
  }

  // ----- Free

  lemma PushFreedFrame(s: State, k: Key, b: Addr)
    ensures var s' := PushFreed(s, k, b);
            && s'.(live := s.live, hdr := s.hdr, caches := s.caches, link := s.link) == s
            && s'.live == s.live - {b}
            && CacheOf(s', k) == Push(CacheOf(s, k), b)
            && (forall q :: q != k ==> CacheOf(s', q) == CacheOf(s, q))
    ensures CacheOf(SpillHot(s, k), k).hot.None? && SpillHot(s, k).live == s.live
  {
    var c := CacheOf(s, k);
    if c.hot.Some? {
      assert CacheOf(SpillHot(s, k), k) == Spill(c.(hot := None), c.hot.value);
    } else {
      assert c.(hot := None) == c;
    }
  }

  lemma PushFreedInv(s: State, loc: Locs, k: Key, b: Addr) returns (loc': Locs)
    requires Inv(s, loc) && b in s.live && s.live[b].cls == k.cls && s.live[b].owner == k.id
    ensures Inv(PushFreed(s, k, b), loc')
  {
    PushFreedFrame(s, k, b);
    loc' := loc;
    if CacheOf(s, k).hot.Some? {
      SpillHotInv(s, k, loc);
      loc' := Relocate(loc, multiset{CacheOf(s, k).hot.value}, SpillPlace(s, k));
    }
    FreeToHotInv(SpillHot(s, k), k, b, loc');
    loc' := Relocate(loc', multiset{b}, Hot(k));
  }

  lemma FreeLocalKeeps(s: State, loc: Locs, k: Key, b: Addr, src: Source) returns (loc': Locs)
    requires StepInv(s, loc) && PhaseOf(s, k.id) == Idle
    requires b in s.live && s.live[b].cls == k.cls && s.live[b].owner == k.id
    requires Total(CacheOf(PushFreed(s, k, b), k)) > Limits(s, k.cls).local ==>
               DrainSource(CacheOf(PushFreed(s, k, b), k), src)
    ensures StepInv(FreeLocal(s, k, b, src), loc')
  {
    hide Placed, Shaped, Threaded, BlocksOk, PendingOk, OneOwner, CarvedOk, RegisteredOk, FreeLocal, PushFreed, Total, DrainSource;
    assert Limits(s, k.cls).Valid();
    DrainSourceNonempty(CacheOf(PushFreed(s, k, b), k), src);
    loc' := FreeLocalInv(s, loc, k, b, src);
    FreeLocalFrame(s, k, b, src);
    BoundsPersist(s, FreeLocal(s, k, b, src), k);
  }

  lemma DrainSourceNonempty(c: ClassCache, src: Source)
    ensures DrainSource(c, src) ==> Nonempty(c, src)
  {
  }

  lemma FreeLocalInv(s: State, loc: Locs, k: Key, b: Addr, src: Source) returns (loc': Locs)
    requires Inv(s, loc) && s.hand == [] && Limits(s, k.cls).Valid()
    requires b in s.live && s.live[b].cls == k.cls && s.live[b].owner == k.id
    requires Total(CacheOf(PushFreed(s, k, b), k)) > Limits(s, k.cls).local ==>
               Nonempty(CacheOf(PushFreed(s, k, b), k), src)
    ensures Inv(FreeLocal(s, k, b, src), loc')
  {
    var s1 := PushFreed(s, k, b);
    loc' := PushFreedInv(s, loc, k, b);
    PushFreedFrame(s, k, b);
    if Total(CacheOf(s1, k)) > Limits(s, k.cls).local {
      loc' := DrainToInv(s1, k, src, Limits(s, k.cls).drain, loc');
    }
  }

  /** A local free changes one class of its cache; a drain brings an over-full class back within bounds and leaves the hot slot. */
  lemma FreeLocalFrame(s: State, k: Key, b: Addr, src: Source)
    requires s.hand == [] && Limits(s, k.cls).Valid()
    requires Total(CacheOf(s, k)) <= Limits(s, k.cls).local || Total(CacheOf(s, k)) < Limits(s, k.cls).refill
    requires Total(CacheOf(PushFreed(s, k, b), k)) > Limits(s, k.cls).local ==>
               DrainSource(CacheOf(PushFreed(s, k, b), k), src)
    ensures var s' := FreeLocal(s, k, b, src);
            && s'.(live := s.live, hdr := s.hdr, caches := s.caches, link := s.link, handCls := s.handCls,
                   pools := s.pools, inboxes := s.inboxes) == s
            && s'.live == s.live - {b}
            && (forall q :: q != k ==> CacheOf(s', q) == CacheOf(s, q))
            && CacheOf(s', k).hot == Some(b)
            && (Total(CacheOf(s', k)) <= Limits(s, k.cls).local || Total(CacheOf(s', k)) < Limits(s, k.cls).refill)
  {
    var s1, lim := PushFreed(s, k, b), Limits(s, k.cls);
    PushFreedFrame(s, k, b);
    PushTotal(CacheOf(s, k), b);
    if Total(CacheOf(s1, k)) > lim.local {
      DrainTotal(CacheOf(s1, k), src, lim.drain);
      DrainToFrame(s1, k, src, lim.drain);
      DrainKeepsHot(CacheOf(s1, k), src, lim.drain);
    }
  }

  lemma FreeToStagedFrame(s: State, k: Key, b: Addr)
    ensures var s' := FreeToStaged(s, k, b);
            && s'.(live := s.live, hdr := s.hdr, staged := s.staged, link := s.link) == s
            && s'.live == s.live - {b} && StagedOf(s', k) == [b] + StagedOf(s, k)
            && (forall q :: q != k ==> StagedOf(s', q) == StagedOf(s, q))
  {
  }

  lemma FlushStagedFrame(s: State, k: Key)
    ensures var s' := FlushStaged(s, k);
            && s'.(staged := s.staged, inboxes := s.inboxes, link := s.link) == s
            && StagedOf(s', k) == []
            && (forall q :: q != k ==> StagedOf(s', q) == StagedOf(s, q))
  {
  }

  lemma FreeRemoteFrame(s: State, k: Key, b: Addr)
    requires |StagedOf(s, k)| < Limits(s, k.cls).drain && Limits(s, k.cls).Valid()
    ensures var s' := FreeRemote(s, k, b);
            && s'.(live := s.live, hdr := s.hdr, staged := s.staged, inboxes := s.inboxes, link := s.link) == s
            && s'.live == s.live - {b}
            && (forall q :: q != k ==> StagedOf(s', q) == StagedOf(s, q))
            && |StagedOf(s', k)| < Limits(s, k.cls).drain
  {
    FreeToStagedFrame(s, k, b);
    FlushStagedFrame(FreeToStaged(s, k, b), k);
    hide FreeToStaged, FlushStaged, StagedOf, Limits;
  }

  lemma FreeRemoteInv(s: State, loc: Locs, k: Key, b: Addr) returns (loc': Locs)
    requires Inv(s, loc) && b in s.live && s.live[b].cls == k.cls
    ensures Inv(FreeRemote(s, k, b), loc')
  {
    var s1 := FreeToStaged(s, k, b);
    FreeToStagedInv(s, k, b, loc);
    loc' := Relocate(loc, multiset{b}, Staged(k));
    if |StagedOf(s1, k)| >= Limits(s, k.cls).drain {
      FlushStagedInv(s1, k, loc');
      loc' := Relocate(loc', multiset(StagedOf(s1, k)), Inbox(k.cls));
    }
  }

  lemma FreeRemoteKeeps(s: State, loc: Locs, k: Key, b: Addr) returns (loc': Locs)
    requires StepInv(s, loc) && PhaseOf(s, k.id) == Idle
    requires b in s.live && s.live[b].cls == k.cls
    ensures StepInv(FreeRemote(s, k, b), loc')
  {
    hide Placed, Shaped, Threaded, BlocksOk, PendingOk, OneOwner, CarvedOk, RegisteredOk, FreeRemote, Total;
    assert Limits(s, k.cls).Valid();
    loc' := FreeRemoteInv(s, loc, k, b);
    FreeRemoteFrame(s, k, b);
    BoundsPersist(s, FreeRemote(s, k, b), k);
  }

  lemma FreeKeeps(s: State, loc: Locs, l: Label) returns (loc': Locs)
    requires StepInv(s, loc) && l.Free? && Enabled(s, l)
    ensures StepInv(Apply(s, l), loc')
  {
    FreeCheckExact(s, loc, l.block, l.expected);
    match FreeCheck(s, l.block, l.expected)
    case Err(_) => loc' := loc;
    case Ok(c) =>
      if Hdr(s, l.block).owner == l.id {
        loc' := FreeLocalKeeps(s, loc, Key(l.id, c), l.block, l.src);
      } else {
        loc' := FreeRemoteKeeps(s, loc, Key(l.id, c), l.block);
      }
  }

  // ----- Allocate

  lemma RequestIsSmall(requested: nat)
    requires FromRequest(requested).Some?
    ensures 1 <= requested <= Payload(RequestClass(requested))
  {
    RequestFitsClass(requested);
  }

  /** What a pop changes besides the block it hands out. */
  lemma PopLiveLeaves(s: State, k: Key, src: Source, requested: nat)
    requires Nonempty(CacheOf(s, k), src)
    ensures var s', b := PopLive(s, k, src, requested), PopBlock(CacheOf(s, k), src);
            && s'.(live := s.live, hdr := s.hdr, caches := s.caches, link := s.link) == s
            && s'.live == s.live[b := LiveRecord(k.cls, k.id, requested)]
            && CacheOf(s', k) == PopRest(CacheOf(s, k), src)
            && (forall q :: q != k ==> CacheOf(s', q) == CacheOf(s, q))
  {
  }

  /** The pop that ends an allocation, whatever refill led to it. */
  lemma PopBounds(s0: State, s: State, k: Key, src: Source, requested: nat)
    requires Bounded(s0) && PhasesOk(s0) && PhaseOf(s0, k.id) == Idle
    requires s.limits == s0.limits && s.phases == s0.phases && s.staged == s0.staged
    requires forall q :: q != k ==> CacheOf(s, q) == CacheOf(s0, q)
    requires Nonempty(CacheOf(s, k), src)
    requires Total(CacheOf(s, k)) <= Limits(s0, k.cls).refill || Total(CacheOf(s, k)) <= Limits(s0, k.cls).local
    ensures Bounded(PopLive(s, k, src, requested)) && PhasesOk(PopLive(s, k, src, requested))
  {
    PopTotal(CacheOf(s, k), src);
    PopLiveLeaves(s, k, src, requested);
    BoundsPersist(s0, PopLive(s, k, src, requested), k);
  }

  lemma AllocHitKeeps(s: State, loc: Locs, k: Key, requested: nat, src: Source) returns (loc': Locs)
    requires StepInv(s, loc) && PhaseOf(s, k.id) == Idle
    requires PopSource(CacheOf(s, k), src) && 1 <= requested <= Payload(k.cls)
    ensures StepInv(PopTo(s, k, src, requested), loc')
  {
    PopLiveInv(s, loc, k, src, requested);
    loc' := Relocate(loc, multiset{PopBlock(CacheOf(s, k), src)}, Live);
    PopLiveLeaves(s, k, src, requested);
    PopBounds(s, s, k, src, requested);
  }

  /** An empty class has nothing in any source. */
  lemma EmptyCache(c: ClassCache)
    requires Total(c) == 0
    ensures c.hot.None? && c.shared == []
    ensures forall i :: 0 <= i < |c.slabs| ==> c.slabs[i].untouched == [] && c.slabs[i].free == []
  {
    SlabsLenZero(c.slabs);
    forall i | 0 <= i < |c.slabs| ensures c.slabs[i].untouched == [] && c.slabs[i].free == [] {
      assert SlabLen(c.slabs[i]) == 0;
    }
  }

  lemma BatchIsShort(slab: PoolSlab, max: nat)
    ensures |PartialBatch(slab, max)| <= max
  {
  }

  /** The state and the cache just before the pop that ends a batch refill. */
  lemma BatchFrame(s: State, k: Key, slab: nat)
    requires s.hand == [] && slab < |PoolOf(DrainInbox(s, k.cls), k.cls)|
    requires PartialBatch(PoolOf(DrainInbox(s, k.cls), k.cls)[slab], Limits(s, k.cls).refill) != []
    ensures var s2 := TakeBatch(DrainInbox(s, k.cls), k.cls, slab, Limits(s, k.cls).refill);
            var s3 := AcceptHand(s2, k);
            && s2.hand != [] && |s2.hand| <= Limits(s, k.cls).refill && s2.handCls == k.cls
            && s3.(pools := s.pools, inboxes := s.inboxes, link := s.link, caches := s.caches, handCls := s.handCls) == s
            && CacheOf(s3, k) == AcceptBatch(CacheOf(s, k), s2.hand)
            && (forall q :: q != k ==> CacheOf(s3, q) == CacheOf(s, q))
  {
    hide DrainInbox, TakePartial, PartialBatch, ReturnBatch, InboxOf;
    var s1 := DrainInbox(s, k.cls);
    DrainInboxFrame(s, k.cls);
    BatchIsShort(PoolOf(s1, k.cls)[slab], Limits(s, k.cls).refill);
    var s2 := TakeBatch(s1, k.cls, slab, Limits(s, k.cls).refill);
    assert s2.(pools := s1.pools, handCls := s1.handCls, hand := s1.hand, link := s1.link) == s1;
    hide TakeBatch, PoolOf, Limits;
  }

  lemma BatchInv(s: State, loc: Locs, k: Key, slab: nat) returns (loc': Locs)
    requires Inv(s, loc) && s.hand == [] && slab < |PoolOf(DrainInbox(s, k.cls), k.cls)|
    requires PoolOf(DrainInbox(s, k.cls), k.cls)[slab].state == Partial
    ensures PartialBatch(PoolOf(DrainInbox(s, k.cls), k.cls)[slab], Limits(s, k.cls).refill) != []
    ensures Inv(AcceptHand(TakeBatch(DrainInbox(s, k.cls), k.cls, slab, Limits(s, k.cls).refill), k), loc')
  {
    var s1, max := DrainInbox(s, k.cls), Limits(s, k.cls).refill;
    assert Limits(s, k.cls).Valid();
    DrainInboxFrame(s, k.cls);
    loc' := DrainInboxInv(s, k.cls, loc);
    assert PoolSlabOk(s1, loc', k.cls, slab);
    TakeBatchInv(s1, k.cls, slab, max, loc');
    loc' := Relocate(loc', multiset(TakeBatch(s1, k.cls, slab, max).hand), Hand);
    AcceptHandInv(TakeBatch(s1, k.cls, slab, max), k, loc');
    loc' := Relocate(loc', multiset(TakeBatch(s1, k.cls, slab, max).hand), Shared(k));
  }

  /** The pop after a batch refill: the shared list is its only source and is not empty. */
  lemma PopNewBatch(c: ClassCache, batch: seq<Addr>)
    requires Total(c) == 0 && batch != []
    ensures PopSource(AcceptBatch(c, batch), FromShared)
    ensures Total(PopRest(AcceptBatch(c, batch), FromShared)) == |batch| - 1
  {
    EmptyCache(c);
    PopTotal(AcceptBatch(c, batch), FromShared);
  }

  lemma AllocBatchKeeps(s: State, loc: Locs, k: Key, requested: nat, slab: nat) returns (loc': Locs)
    requires StepInv(s, loc) && PhaseOf(s, k.id) == Idle && Total(CacheOf(s, k)) == 0
    requires RefillChoice(PoolOf(DrainInbox(s, k.cls), k.cls), Batch(slab)) && 1 <= requested <= Payload(k.cls)
    ensures StepInv(AllocFromBatch(s, k, requested, slab), loc')
  {
    loc' := BatchInv(s, loc, k, slab);
    BatchFrame(s, k, slab);
    var s2 := TakeBatch(DrainInbox(s, k.cls), k.cls, slab, Limits(s, k.cls).refill);
    var s3 := AcceptHand(s2, k);
    PopNewBatch(CacheOf(s, k), s2.hand);
    PopTotal(CacheOf(s3, k), FromShared);
    PopBounds(s, s3, k, FromShared, requested);
    loc' := PopEnds(s3, loc', k, FromShared, requested);
  }

  lemma PopEnds(s: State, loc: Locs, k: Key, src: Source, requested: nat) returns (loc': Locs)
    requires Inv(s, loc) && s.hand == [] && Nonempty(CacheOf(s, k), src) && 1 <= requested <= Payload(k.cls)
    ensures Inv(PopTo(s, k, src, requested), loc') && PopTo(s, k, src, requested).hand == []
  {
    PopLiveInv(s, loc, k, src, requested);
    loc' := Relocate(loc, multiset{PopBlock(CacheOf(s, k), src)}, Live);
    PopLiveLeaves(s, k, src, requested);
  }

  /** The pop after a cache was given a slab: the new record is its only source and is full. */
  lemma PopNewSlab(s: State, k: Key, start: Addr, blocks: seq<Addr>, src: Source)
    requires Total(CacheOf(s, k)) == 0 && blocks != []
    requires src == FromSlab(SlabAt(CacheOf(s, k).slabs, start))
    ensures var c := OwnSlab(CacheOf(s, k), start, blocks);
            PopSource(c, src) && Total(PopRest(c, src)) == |blocks| - 1
  {
    EmptyCache(CacheOf(s, k));
    OwnSlabTotal(CacheOf(s, k), start, blocks);
    PopTotal(OwnSlab(CacheOf(s, k), start, blocks), src);
  }

  lemma SlabFrame(s: State, k: Key, slab: nat)
    requires slab < |PoolOf(DrainInbox(s, k.cls), k.cls)|
    ensures var s1 := DrainInbox(s, k.cls);
            var s2, lent := LoanSlab(s1, k, slab), PoolOf(s1, k.cls)[slab];
            && s2.(pools := s.pools, inboxes := s.inboxes, link := s.link, caches := s.caches) == s
            && CacheOf(s1, k) == CacheOf(s, k)
            && CacheOf(s2, k) == OwnSlab(CacheOf(s, k), lent.start, lent.blocks)
            && (forall q :: q != k ==> CacheOf(s2, q) == CacheOf(s, q))
  {
    DrainInboxFrame(s, k.cls);
  }

  lemma SlabInv(s: State, loc: Locs, k: Key, slab: nat) returns (loc': Locs)
    requires Inv(s, loc) && slab < |PoolOf(DrainInbox(s, k.cls), k.cls)|
    requires PoolOf(DrainInbox(s, k.cls), k.cls)[slab].Full()
    ensures var lent := PoolOf(DrainInbox(s, k.cls), k.cls)[slab];
            lent.blocks != [] && |lent.blocks| <= Limits(s, k.cls).refill
    ensures Inv(LoanSlab(DrainInbox(s, k.cls), k, slab), loc')
  {
    var s1 := DrainInbox(s, k.cls);
    DrainInboxFrame(s, k.cls);
    loc' := DrainInboxInv(s, k.cls, loc);
    var lent := PoolOf(s1, k.cls)[slab];
    assert PoolSlabOk(s1, loc', k.cls, slab);
    LoanSlabInv(s1, loc', k, slab);
    loc' := Relocate(loc', multiset(lent.blocks), Untouched(k, SlabAt(CacheOf(s1, k).slabs, lent.start)));
  }

  lemma AllocSlabKeeps(s: State, loc: Locs, k: Key, requested: nat, slab: nat) returns (loc': Locs)
    requires StepInv(s, loc) && PhaseOf(s, k.id) == Idle && Total(CacheOf(s, k)) == 0
    requires RefillChoice(PoolOf(DrainInbox(s, k.cls), k.cls), Whole(slab)) && 1 <= requested <= Payload(k.cls)
    ensures StepInv(AllocFromSlab(s, k, requested, slab), loc')
  {
    loc' := SlabInv(s, loc, k, slab);
    SlabFrame(s, k, slab);
    var lent := PoolOf(DrainInbox(s, k.cls), k.cls)[slab];
    var s2 := LoanSlab(DrainInbox(s, k.cls), k, slab);
    var src := RecordFor(DrainInbox(s, k.cls), k, lent.start);
    PopNewSlab(s, k, lent.start, lent.blocks, src);
    PopTotal(CacheOf(s2, k), src);
    PopBounds(s, s2, k, src, requested);
    loc' := PopEnds(s2, loc', k, src, requested);
  }

  // ----- Phases

  /** A state that differs only in phases, cursor and carved blocks has the same places, lists and headers. */
  lemma PhaseContents(s: State, s': State, p: Place)
    requires s' == s.(phases := s'.phases, next := s'.next, carved := s'.carved)
    ensures View(s')(p) == View(s)(p)
    ensures Contents(s', p) == Contents(s, p) && IsList(s', p) == IsList(s, p)
  {
    assert At(s', p) == At(s, p);
    ViewAt(s, p);
    ViewAt(s', p);
  }

  lemma PhaseBlocks(s: State, s': State, loc: Locs)
    requires s' == s.(phases := s'.phases, next := s'.next, carved := s'.carved)
    requires Placed(s, loc) && Threaded(s) && BlocksOk(s, loc) && Shaped(s, loc)
    ensures Placed(s', loc) && Threaded(s') && BlocksOk(s', loc) && Shaped(s', loc)
  {
    forall p ensures View(s')(p) == View(s)(p) { PhaseContents(s, s', p); }
    SamePlacedBy(View(s), View(s'), loc);
    ShapePersists(s, s', loc);
    forall p | IsList(s', p) ensures Linked(s'.link, Contents(s', p)) { PhaseContents(s, s', p); }
    forall b | b in loc ensures BlockOk(s', b, loc[b]) { assert BlockOk(s, b, loc[b]); }
  }

  /** A step that only moves one cache to a phase without a span. */
  lemma PhaseOnly(s: State, s': State, loc: Locs, id: nat)
    requires Inv(s, loc) && s' == s.(phases := s'.phases)
    requires forall i :: i != id ==> PhaseOf(s', i) == PhaseOf(s, i)
    requires !PhaseOf(s', id).Carved?
    ensures Inv(s', loc)
  {
    hide Placed, Shaped, Threaded, BlocksOk, OneOwner, LimitsOk, CarvedOk, RegisteredOk;
    PhaseBlocks(s, s', loc);
    ArenaPersists(s, s', loc);
    forall c ensures Limits(s', c) == Limits(s, c) {}
  }

  /** Phases and bounds when the caches are as they were and only phase `id` changed. */
  lemma PhaseBounds(s: State, s': State, id: nat)
    requires Bounded(s) && PhasesOk(s)
    requires s'.limits == s.limits && s'.caches == s.caches && s'.staged == s.staged
    requires forall i :: i != id ==> PhaseOf(s', i) == PhaseOf(s, i)
    requires PhaseOf(s', id) != Idle ==>
               && 1 <= PhaseOf(s', id).requested <= Payload(PhaseOf(s', id).cls)
               && Total(CacheOf(s, Key(id, PhaseOf(s', id).cls))) == 0
    ensures Bounded(s') && PhasesOk(s')
  {
    forall c ensures Limits(s', c) == Limits(s, c) {}
    forall k ensures CacheOf(s', k) == CacheOf(s, k) && StagedOf(s', k) == StagedOf(s, k) {}
  }

  lemma AllocMissKeeps(s: State, loc: Locs, id: nat, c: SizeClass, requested: nat) returns (loc': Locs)
    requires StepInv(s, loc) && PhaseOf(s, id) == Idle && Total(CacheOf(s, Key(id, c))) == 0
    requires 1 <= requested <= Payload(c)
    ensures var s1 := DrainInbox(s, c);
            StepInv(s1.(phases := s1.phases[id := Carving(c, requested)]), loc')
  {
    var s1 := DrainInbox(s, c);
    DrainInboxFrame(s, c);
    loc' := DrainInboxInv(s, c, loc);
    var s2 := s1.(phases := s1.phases[id := Carving(c, requested)]);
    PhaseOnly(s1, s2, loc', id);
    PhaseBounds(s, s2, id);
  }

  lemma CarveFailsKeeps(s: State, loc: Locs, id: nat)
    requires StepInv(s, loc)
    ensures StepInv(s.(phases := s.phases[id := Idle]), loc)
  {
    var s' := s.(phases := s.phases[id := Idle]);
    PhaseOnly(s, s', loc, id);
    PhaseBounds(s, s', id);
  }

  // ----- Carving

  /** New, aligned, disjoint block starts of class `c` between the cursor and `end`. */
  ghost predicate NewSpan(s: State, c: SizeClass, blocks: seq<Addr>, end: Addr)
    requires s.arena.alignment > 0
  {
    var size := Limits(s, c).blockSize;
    && blocks != [] && |blocks| <= Limits(s, c).refill
    && IsSpan(blocks, size)
    && s.next < end <= s.arena.base + s.arena.len
    && (forall b :: multiset(blocks)[b] <= 1)
    && (forall b :: b in blocks ==>
          && s.next <= b && b + size <= end && b !in s.carved
          && Arena.ContainsBlockStart(s.arena, b) && b % s.arena.alignment == 0)
    && (forall b, b' :: b in blocks && b' in blocks && b < b' ==> b + size <= b')
  }

  /** What a plan for blocks of class `c` carves is new. */
  lemma CarvedBlocksAreNew(s: State, c: SizeClass)
    requires LimitsOk(s) && CarvedOk(s) && PlanFor(s, c).Some?
    ensures var span := PlanFor(s, c).value;
            NewSpan(s, c, CarvedBlocks(s, c, span), s.arena.base + span.start + span.size)
  {
    var g, size, cur := s.arena, Limits(s, c).blockSize, s.next - s.arena.base;
    assert Limits(s, c).Valid();
    var request := Arena.Request.Blocks(size, Limits(s, c).refill);
    Arena.PlanFits(g, request, cur);
    var span := PlanFor(s, c).value;
    var n :| 1 <= n <= Limits(s, c).refill && span.size == n * size;
    QuotientOfProduct(n, size);
    var start := g.base + span.start;
    Arena.CarveOnce(start, size, n);
    var blocks := CarvedBlocks(s, c, span);
    assert blocks == Arena.Carve(start, size, n);
    assert blocks[0] == Arena.BlockAt(start, size, 0) == start;
    forall b | b in blocks
      ensures s.next <= b && b + size <= start + span.size && b !in s.carved
      ensures Arena.ContainsBlockStart(g, b) && b % g.alignment == 0
    {
      Arena.CarveInside(g, span, size, n, b);
    }
    forall b, b' | b in blocks && b' in blocks && b < b' ensures b + size <= b' {
      CarveGap(start, size, n, b, b');
    }
  }

  lemma QuotientOfProduct(n: nat, size: nat)
    requires size > 0
    ensures Quotient(n * size, size) == n
  {
    DivModUnique(n * size, n, 0, size);
  }

  lemma CarveGap(start: Addr, size: nat, n: nat, b: Addr, b': Addr)
    requires size > 0
    requires b in Arena.Carve(start, size, n) && b' in Arena.Carve(start, size, n) && b < b'
    ensures b + size <= b'
  {
    var i :| 0 <= i < n && b == Arena.BlockAt(start, size, i);
    var j :| 0 <= j < n && b' == Arena.BlockAt(start, size, j);
    if i < j {
      Arena.BlocksApart(start, size, i, j);
    } else if j < i {
      Arena.BlocksApart(start, size, j, i);
    }
  }

  /** Reserving keeps every fact about carved and registered blocks, and the new span is pending. */
  lemma TakeSpanInv(s: State, loc: Locs, id: nat, c: SizeClass, requested: nat, blocks: seq<Addr>, end: Addr)
    requires Inv(s, loc) && !PhaseOf(s, id).Carved? && NewSpan(s, c, blocks, end)
    ensures Inv(TakeSpan(s, id, c, requested, blocks, end), loc)
  {
    hide Placed, Shaped, Threaded, BlocksOk, OneOwner, CarvedOk, PendingOk, RegisteredOk, NewSpan;
    var s' := TakeSpan(s, id, c, requested, blocks, end);
    PhaseBlocks(s, s', loc);
    forall d ensures Limits(s', d) == Limits(s, d) {}
    TakeSpanCarved(s, id, c, requested, blocks, end);
    TakeSpanPending(s, loc, id, c, requested, blocks, end);
  }

  lemma SameLimits(s: State, s': State, c: SizeClass)
    requires s'.limits == s.limits
    ensures Limits(s', c) == Limits(s, c)
  {
  }

  lemma TakeSpanCarved(s: State, id: nat, c: SizeClass, requested: nat, blocks: seq<Addr>, end: Addr)
    requires s.arena.alignment > 0 && CarvedOk(s) && NewSpan(s, c, blocks, end)
    ensures CarvedOk(TakeSpan(s, id, c, requested, blocks, end))
  {
    hide Limits, IsSpan, Arena.ContainsBlockStart, LimitsOk;
    var s' := TakeSpan(s, id, c, requested, blocks, end);
    forall d ensures Limits(s', d) == Limits(s, d) { SameLimits(s, s', d); }
    forall b | b in s'.carved
      ensures s'.carved[b] == if b in blocks then c else s.carved[b]
      ensures b in blocks || b in s.carved
    {
    }
  }

  lemma TakeSpanPending(s: State, loc: Locs, id: nat, c: SizeClass, requested: nat, blocks: seq<Addr>, end: Addr)
    requires s.arena.alignment > 0 && NewSpan(s, c, blocks, end) && !PhaseOf(s, id).Carved?
    requires PendingOk(s, loc) && RegisteredOk(s, loc)
    ensures PendingOk(TakeSpan(s, id, c, requested, blocks, end), loc)
    ensures RegisteredOk(TakeSpan(s, id, c, requested, blocks, end), loc)
  {
    var s' := TakeSpan(s, id, c, requested, blocks, end);
    hide SpanOk, NewSpan;
    forall i ensures PhaseOf(s', i) == if i == id then Carved(c, requested, blocks) else PhaseOf(s, i) {}
    assert s'.hdr == s.hdr;
    forall b | b in s.carved ensures b in s'.carved && s'.carved[b] == s.carved[b] && b !in blocks { NewSpanAt(s, c, blocks, end, b); }
    forall i | PhaseOf(s', i).Carved? ensures SpanOk(s', loc, PhaseOf(s', i)) {
      TakeSpanSpans(s, loc, id, c, requested, blocks, end, i);
    }
    hide PhaseOf, TakeSpan;
    forall i, b | PhaseOf(s, i).Carved? && b in PhaseOf(s, i).blocks ensures b !in blocks {
      SpanIsCarved(s, loc, PhaseOf(s, i), b);
    }
  }

  lemma NewSpanAt(s: State, c: SizeClass, blocks: seq<Addr>, end: Addr, b: Addr)
    requires s.arena.alignment > 0 && NewSpan(s, c, blocks, end) && b in s.carved
    ensures b !in blocks
  {
  }

  lemma SpanIsCarved(s: State, loc: Locs, ph: Phase, b: Addr)
    requires ph.Carved? && SpanOk(s, loc, ph) && b in ph.blocks
    ensures b in s.carved
  {
  }

  lemma TakeSpanSpans(s: State, loc: Locs, id: nat, c: SizeClass, requested: nat, blocks: seq<Addr>, end: Addr, i: nat)
    requires s.arena.alignment > 0 && NewSpan(s, c, blocks, end) && RegisteredOk(s, loc)
    requires PhaseOf(s, i).Carved? ==> SpanOk(s, loc, PhaseOf(s, i))
    requires PhaseOf(TakeSpan(s, id, c, requested, blocks, end), i).Carved?
    ensures var s' := TakeSpan(s, id, c, requested, blocks, end); SpanOk(s', loc, PhaseOf(s', i))
  {
    var s' := TakeSpan(s, id, c, requested, blocks, end);
    forall d ensures Limits(s', d) == Limits(s, d) {}
  }

  lemma SpanTaken(s: State, id: nat, c: SizeClass, requested: nat, blocks: seq<Addr>, end: Addr)
    ensures var s' := TakeSpan(s, id, c, requested, blocks, end);
            && s'.limits == s.limits && s'.caches == s.caches && s'.staged == s.staged && s'.hand == s.hand
            && PhaseOf(s', id) == Carved(c, requested, blocks)
            && (forall i :: i != id ==> PhaseOf(s', i) == PhaseOf(s, i))
  {
  }

  lemma CarveSpanKeeps(s: State, loc: Locs, id: nat)
    requires StepInv(s, loc) && PhaseOf(s, id).Carving? && PlanFor(s, PhaseOf(s, id).cls).Some?
    ensures StepInv(ReserveFor(s, id, PhaseOf(s, id).cls, PhaseOf(s, id).requested), loc)
  {
    hide PlanFor, CarvedBlocks, NewSpan, Placed, Shaped, Threaded, BlocksOk, PendingOk, OneOwner, RegisteredOk, TakeSpan;
    var ph := PhaseOf(s, id);
    var span := PlanFor(s, ph.cls).value;
    assert Limits(s, ph.cls).Valid();
    var blocks, end := CarvedBlocks(s, ph.cls, span), s.arena.base + span.start + span.size;
    CarvedBlocksAreNew(s, ph.cls);
    SpanTaken(s, id, ph.cls, ph.requested, blocks, end);
    TakeSpanInv(s, loc, id, ph.cls, ph.requested, blocks, end);
    PhaseBounds(s, TakeSpan(s, id, ph.cls, ph.requested, blocks, end), id);
  }

  /** The pop after a registration: the new record is its only source and is not empty. */
  lemma RegisterSpanKeeps(s: State, loc: Locs, id: nat) returns (loc': Locs)
    requires StepInv(s, loc) && PhaseOf(s, id).Carved?
    ensures var ph := PhaseOf(s, id);
            var k := Key(id, ph.cls);
            ph.blocks != [] &&
            StepInv(PopTo(RegisterCarved(s, k, ph.blocks), k, RecordFor(s, k, ph.blocks[0]), ph.requested), loc')
  {
    hide Placed, Shaped, Threaded, BlocksOk, OneOwner, CarvedOk, LimitsOk, RegisteredOk, PendingOk;
    var ph := PhaseOf(s, id);
    PendingSpan(s, loc, id);
    var k := Key(id, ph.cls);
    var s1, src := RegisterCarved(s, k, ph.blocks), RecordFor(s, k, ph.blocks[0]);
    RegisterFrame(s, k, ph.blocks);
    RegisterCarvedInv(s, loc, k, ph.blocks);
    hide RegisterCarved, RecordFor;
    PopNewSlab(s, k, ph.blocks[0], ph.blocks, src);
    PopTotal(CacheOf(s1, k), src);
    RegisterBounds(s, s1, k, src);
    loc' := PopEnds(s1, WithBlocks(loc, ph.blocks, NewLoc(s, k)), k, src, ph.requested);
  }

  lemma PendingSpan(s: State, loc: Locs, id: nat)
    requires PendingOk(s, loc) && PhaseOf(s, id).Carved?
    ensures PhaseOf(s, id).blocks != [] && |PhaseOf(s, id).blocks| <= Limits(s, PhaseOf(s, id).cls).refill
  {
    assert SpanOk(s, loc, PhaseOf(s, id));
  }

  lemma RegisterBounds(s: State, s1: State, k: Key, src: Source)
    requires Bounded(s) && PhasesOk(s) && PhaseOf(s, k.id) != Idle
    requires s1.limits == s.limits && s1.staged == s.staged && s1.phases == s.phases[k.id := Idle]
    requires forall q :: q != k ==> CacheOf(s1, q) == CacheOf(s, q)
    requires Nonempty(CacheOf(s1, k), src) && Total(CacheOf(s1, k)) <= Limits(s, k.cls).refill
    ensures var s' := PopLive(s1, k, src, PhaseOf(s, k.id).requested);
            Bounded(s') && PhasesOk(s')
  {
    var s0 := s.(phases := s.phases[k.id := Idle]);
    PhaseBounds(s, s0, k.id);
    PopBounds(s0, s1, k, src, PhaseOf(s, k.id).requested);
  }

  lemma RegisterFrame(s: State, k: Key, blocks: seq<Addr>)
    requires blocks != []
    ensures var s' := RegisterCarved(s, k, blocks);
            && s'.(pools := s.pools, caches := s.caches, phases := s.phases) == s
            && s'.phases == s.phases[k.id := Idle]
            && CacheOf(s', k) == OwnSlab(CacheOf(s, k), blocks[0], blocks)
            && (forall q :: q != k ==> CacheOf(s', q) == CacheOf(s, q))
  {
  }

  lemma ReserveOtherKeeps(s: State, loc: Locs, size: nat)
    requires StepInv(s, loc) && Arena.PlanBytes(s.arena, size, s.next - s.arena.base).Some?
    ensures var span := Arena.PlanBytes(s.arena, size, s.next - s.arena.base).value;
            StepInv(s.(next := s.arena.base + span.start + span.size), loc)
  {
    hide Arena.PlanBytes, Bounded, PhasesOk, Placed, Shaped, Threaded, BlocksOk, PendingOk, OneOwner, RegisteredOk;
    Arena.PlanFits(s.arena, Arena.Request.Bytes(size), s.next - s.arena.base);
    var span := Arena.PlanBytes(s.arena, size, s.next - s.arena.base).value;
    var s' := s.(next := s.arena.base + span.start + span.size);
    PhaseBlocks(s, s', loc);
    NextOnly(s, s', loc);
    QuietKeeps(s, s');
  }

  lemma NextOnly(s: State, s': State, loc: Locs)
    requires LimitsOk(s) && CarvedOk(s) && RegisteredOk(s, loc) && PendingOk(s, loc)
    requires s' == s.(next := s'.next) && s.next <= s'.next <= s.arena.base + s.arena.len
    ensures LimitsOk(s') && CarvedOk(s') && RegisteredOk(s', loc) && PendingOk(s', loc)
  {
    forall c ensures Limits(s', c) == Limits(s, c) {}
    PendingPersists(s, s', loc, loc);
  }
}

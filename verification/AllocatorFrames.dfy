/** What every step of every cache leaves alone: the arena, other caches, and hot blocks. */
module AllocatorFrames {
  import opened Basics
  import opened Headers
  import opened CacheModel
  import opened PoolModel
  import opened AllocatorModel
  import opened PoolActions
  import opened AllocatorSteps
  import opened AllocatorInvariant
  import opened AllocatorSafety
  import opened AllocatorEffects
  import Arena

  /** The label may change the hot slot of `k`: its own allocations, local frees and drains of that class. */
  ghost predicate UsesHotSlot(s: State, l: Label, k: Key)
    requires s.arena.alignment > 0
  {
    match l
    case AllocHit(id, requested, _) => Key(id, RequestClass(requested)) == k
    case Free(id, b, expected, _) =>
      FreeCheck(s, b, expected) == Ok(k.cls) && id == k.id && Hdr(s, b).owner == id
    case DrainLocal(id, c, _) => Key(id, c) == k
    case _ => false
  }

  /** The cache that takes the step, for the steps that caches take. */
  predicate ActsFor(l: Label, id: nat) {
    match l
    case Sweep(_, _) => false
    case EraseUntouched(_, _, _) => false
    case EraseCold(_, _, _) => false
    case ReserveOther(_) => false
    case _ => l.id == id
  }

  /** The arena keeps its shape, only reservations move its cursor, and forward; blocks are only ever carved behind it. */
  ghost predicate ArenaAdvances(s: State, l: Label, s': State) {
    && s'.arena == s.arena && s'.limits == s.limits && s'.next >= s.next
    && (s'.next != s.next ==> l.CarveSpan? || l.ReserveOther?)
    && (forall b :: b in s.carved ==> b in s'.carved && s'.carved[b] == s.carved[b])
    && (forall b :: b in s'.carved && b !in s.carved ==> s.next <= b)
  }

  /** The only way into the carving phase is a miss. */
  ghost predicate PhasesFollow(s: State, l: Label, s': State) {
    forall id :: PhaseOf(s', id).Carving? && PhaseOf(s, id) != PhaseOf(s', id) ==>
      l.AllocMiss? && l.id == id && PhaseOf(s', id) == Carving(RequestClass(l.requested), l.requested)
  }

  /** A hot block stays hot through every step of any thread that does not use its slot. */
  ghost predicate HotStays(s: State, l: Label, s': State)
    requires s.arena.alignment > 0
  {
    forall k :: CacheOf(s, k).hot.Some? && !UsesHotSlot(s, l, k) ==> CacheOf(s', k).hot == CacheOf(s, k).hot
  }

  /** This class of the cache, its staging list and the cache's phase are the same in both states. */
  ghost predicate SameCache(s: State, s': State, k: Key) {
    CacheOf(s', k) == CacheOf(s, k) && StagedOf(s', k) == StagedOf(s, k) && PhaseOf(s', k.id) == PhaseOf(s, k.id)
  }

  /** A step leaves every other cache alone. */
  ghost predicate OthersStay(s: State, l: Label, s': State) {
    forall k: Key :: !ActsFor(l, k.id) ==> SameCache(s, s', k)
  }

  ghost predicate Framed(s: State, l: Label, s': State)
    requires s.arena.alignment > 0
  {
    ArenaAdvances(s, l, s') && PhasesFollow(s, l, s') && HotStays(s, l, s') && OthersStay(s, l, s')
  }

  /** Phases, staging lists and the arena are as they were. */
  ghost predicate Quiet(s: State, s': State) {
    && s'.phases == s.phases && s'.staged == s.staged
    && s'.arena == s.arena && s'.limits == s.limits && s'.next == s.next && s'.carved == s.carved
  }

  /** An allocation from cache or center leaves other caches, phases and the arena alone. */
  lemma AllocFrame(s: State, loc: Locs, l: Label)
    requires StepInv(s, loc) && Step(s, l, Apply(s, l)) && (l.AllocHit? || l.AllocBatch? || l.AllocSlab?)
    ensures forall q :: q != Key(l.id, RequestClass(l.requested)) ==> CacheOf(Apply(s, l), q) == CacheOf(s, q)
    ensures Quiet(s, Apply(s, l))
  {
    hide Placed, Shaped, Threaded, BlocksOk, PendingOk, OneOwner, CarvedOk, RegisteredOk, Bounded, PhasesOk;
    hide PopTo, AllocFromBatch, AllocFromSlab, CacheOf, RefillChoice, PopSource;
    var k := Key(l.id, RequestClass(l.requested));
    match l
    case AllocHit(_, _, src) => PopToLeaves(s, k, src, l.requested);
    case AllocBatch(_, _, slab) => BatchAllocFrame(s, loc, k, l.requested, slab);
    case AllocSlab(_, _, slab) => SlabAllocFrame(s, k, l.requested, slab);
  }

  lemma SlabAllocFrame(s: State, k: Key, requested: nat, slab: nat)
    requires RefillChoice(PoolOf(DrainInbox(s, k.cls), k.cls), Whole(slab))
    ensures var s' := AllocFromSlab(s, k, requested, slab);
            && (forall q :: q != k ==> CacheOf(s', q) == CacheOf(s, q))
            && Quiet(s, s')
  {
    SlabFrame(s, k, slab);
    var s1 := DrainInbox(s, k.cls);
    PopToLeaves(LoanSlab(s1, k, slab), k, RecordFor(s1, k, PoolOf(s1, k.cls)[slab].start), requested);
    hide PopTo, DrainInbox, LoanSlab, CacheOf, RecordFor;
  }

  lemma BatchAllocFrame(s: State, loc: Locs, k: Key, requested: nat, slab: nat)
    requires Inv(s, loc) && s.hand == [] && RefillChoice(PoolOf(DrainInbox(s, k.cls), k.cls), Batch(slab))
    ensures var s' := AllocFromBatch(s, k, requested, slab);
            && (forall q :: q != k ==> CacheOf(s', q) == CacheOf(s, q))
            && Quiet(s, s')
  {
    hide Placed, Shaped, Threaded, BlocksOk, PendingOk, OneOwner, CarvedOk, RegisteredOk, LimitsOk;
    var loc' := BatchInv(s, loc, k, slab);
    BatchFrame(s, k, slab);
    var s3 := AcceptHand(TakeBatch(DrainInbox(s, k.cls), k.cls, slab, Limits(s, k.cls).refill), k);
    PopToLeaves(s3, k, FromShared, requested);
    hide PopTo, AcceptHand, TakeBatch, DrainInbox, CacheOf;
  }

  lemma PopToLeaves(s: State, k: Key, src: Source, requested: nat)
    ensures var s' := PopTo(s, k, src, requested);
            && s'.(live := s.live, hdr := s.hdr, caches := s.caches, link := s.link) == s
            && (forall q :: q != k ==> CacheOf(s', q) == CacheOf(s, q))
  {
    if Nonempty(CacheOf(s, k), src) {
      PopLiveLeaves(s, k, src, requested);
    }
  }

  /** Only class `own` of the acting cache changed, and if its slot was occupied the label uses it. */
  lemma OneCacheFrame(s: State, l: Label, s': State, own: Key)
    requires s.arena.alignment > 0 && Quiet(s, s') && ActsFor(l, own.id)
    requires forall q :: q != own ==> CacheOf(s', q) == CacheOf(s, q)
    requires CacheOf(s, own).hot.None? || UsesHotSlot(s, l, own)
    ensures Framed(s, l, s')
  {
    hide CacheOf, UsesHotSlot;
    forall id ensures PhaseOf(s', id) == PhaseOf(s, id) {}
    forall k ensures StagedOf(s', k) == StagedOf(s, k) {}
  }

  lemma AllocStepFrame(s: State, loc: Locs, l: Label)
    requires StepInv(s, loc) && Step(s, l, Apply(s, l)) && (l.AllocHit? || l.AllocBatch? || l.AllocSlab?)
    ensures Framed(s, l, Apply(s, l))
  {
    hide Framed, Placed, Shaped, Threaded, BlocksOk, PendingOk, OneOwner, CarvedOk, RegisteredOk, Bounded, PhasesOk, Apply, CacheOf, Quiet;
    AllocFrame(s, loc, l);
    var own := Key(l.id, RequestClass(l.requested));
    if !l.AllocHit? {
      EmptyCache(CacheOf(s, own));
    }
    OneCacheFrame(s, l, Apply(s, l), own);
  }

  lemma MissStepFrame(s: State, l: Label, s': State)
    requires Step(s, l, s') && l.AllocMiss?
    ensures Framed(s, l, s')
  {
    hide DrainInbox;
    var c := RequestClass(l.requested);
    DrainInboxFrame(s, c);
    assert s'.caches == s.caches && s'.staged == s.staged && s'.phases == s.phases[l.id := Carving(c, l.requested)];
    assert s'.arena == s.arena && s'.limits == s.limits && s'.next == s.next && s'.carved == s.carved;
    forall k ensures CacheOf(s', k) == CacheOf(s, k) && StagedOf(s', k) == StagedOf(s, k) {}
    forall id | id != l.id ensures PhaseOf(s', id) == PhaseOf(s, id) {}
    hide Apply, Enabled, CacheOf, StagedOf;
  }

  lemma DrainStepFrame(s: State, l: Label, s': State)
    requires s.hand == [] && Step(s, l, s') && l.DrainLocal?
    ensures Framed(s, l, s')
  {
    hide Framed, DrainTo, CacheOf;
    var k := Key(l.id, l.cls);
    DrainSourceExists(CacheOf(s, k));
    DrainToFrame(s, k, l.src, Total(CacheOf(s, k)));
    OneCacheFrame(s, l, s', k);
  }

  lemma FreeStepFrame(s: State, l: Label)
    requires LimitsOk(s) && s.hand == [] && Bounded(s)
    requires Step(s, l, Apply(s, l)) && l.Free?
    ensures Framed(s, l, Apply(s, l))
  {
    hide FreeCheck, Bounded;
    FreeFrame(s, l);
    var s' := Apply(s, l);
    forall id ensures PhaseOf(s', id) == PhaseOf(s, id) {}
    hide Apply, Enabled;
  }

  lemma CarveStepFrame(s: State, l: Label, s': State)
    requires LimitsOk(s) && CarvedOk(s) && Step(s, l, s') && l.CarveSpan?
    ensures Framed(s, l, s')
  {
    hide PlanFor, CarvedBlocks, IsSpan, LimitsOk, CarvedOk, Limits, Arena.ContainsBlockStart;
    CarvedBlocksAreNew(s, PhaseOf(s, l.id).cls);
    forall k ensures CacheOf(s', k) == CacheOf(s, k) && StagedOf(s', k) == StagedOf(s, k) {}
    forall id | id != l.id ensures PhaseOf(s', id) == PhaseOf(s, id) {}
    hide CacheOf, StagedOf;
  }

  lemma CursorStepFrame(s: State, l: Label, s': State)
    requires LimitsOk(s) && CarvedOk(s) && Step(s, l, s') && (l.CarveFails? || l.ReserveOther?)
    ensures Framed(s, l, s')
  {
    hide LimitsOk, CarvedOk, Limits;
    if l.ReserveOther? {
      ReserveAdvances(s, l.size);
    }
    forall k ensures CacheOf(s', k) == CacheOf(s, k) && StagedOf(s', k) == StagedOf(s, k) {}
    forall id ensures PhaseOf(s', id) == PhaseOf(s, id) || (ActsFor(l, id) && PhaseOf(s', id) == Idle) {}
    hide CacheOf, StagedOf, PhaseOf;
  }

  lemma ReserveAdvances(s: State, size: nat)
    requires LimitsOk(s) && s.arena.base <= s.next && Arena.PlanBytes(s.arena, size, s.next - s.arena.base).Some?
    ensures var span := Arena.PlanBytes(s.arena, size, s.next - s.arena.base).value;
            s.next <= s.arena.base + span.start + span.size
  {
    Arena.PlanFits(s.arena, Arena.Request.Bytes(size), s.next - s.arena.base);
  }

  lemma RegisterIs(s: State, l: Label)
    requires s.arena.alignment > 0 && (forall c :: Limits(s, c).blockSize > 0)
    requires l.RegisterSpan? && PhaseOf(s, l.id).Carved? && PhaseOf(s, l.id).blocks != []
    ensures var ph := PhaseOf(s, l.id);
            var k := Key(l.id, ph.cls);
            Apply(s, l) == PopTo(RegisterCarved(s, k, ph.blocks), k, RecordFor(s, k, ph.blocks[0]), ph.requested)
  {
    hide RegisterCarved, PopTo, RecordFor, Limits;
  }

  /** What a registration and its pop leave alone. */
  lemma RegisterLeaves(s: State, k: Key, blocks: seq<Addr>, requested: nat)
    requires blocks != []
    ensures var s' := PopTo(RegisterCarved(s, k, blocks), k, RecordFor(s, k, blocks[0]), requested);
            && Quiet(s, s'.(phases := s.phases)) && s'.phases == s.phases[k.id := Idle]
            && (forall q :: q != k ==> CacheOf(s', q) == CacheOf(s, q))
  {
    hide RegisterCarved, PopTo, RecordFor, CacheOf;
    RegisterFrame(s, k, blocks);
    PopToLeaves(RegisterCarved(s, k, blocks), k, RecordFor(s, k, blocks[0]), requested);
  }

  /** One class of the acting cache, with no hot block, and the cache's phase changed. */
  lemma OwnPhaseFrame(s: State, l: Label, s': State, own: Key)
    requires s.arena.alignment > 0 && ActsFor(l, own.id) && !l.AllocMiss?
    requires Quiet(s, s'.(phases := s.phases)) && s'.phases == s.phases[own.id := Idle]
    requires (forall q :: q != own ==> CacheOf(s', q) == CacheOf(s, q)) && CacheOf(s, own).hot.None?
    ensures Framed(s, l, s')
  {
    hide CacheOf, UsesHotSlot;
    forall id ensures PhaseOf(s', id) == if id == own.id then Idle else PhaseOf(s, id) {}
    forall k ensures StagedOf(s', k) == StagedOf(s, k) {}
    hide PhaseOf, StagedOf;
  }

  lemma RegisterStepFrame(s: State, l: Label, s': State)
    requires Step(s, l, s') && l.RegisterSpan? && PhaseOf(s, l.id).Carved? && PhaseOf(s, l.id).blocks != []
    requires Total(CacheOf(s, Key(l.id, PhaseOf(s, l.id).cls))) == 0
    ensures Framed(s, l, s')
  {
    hide RegisterCarved, PopTo, RecordFor, Limits, Enabled, Apply, Framed, Quiet, CacheOf;
    var ph := PhaseOf(s, l.id);
    var k := Key(l.id, ph.cls);
    RegisterIs(s, l);
    RegisterLeaves(s, k, ph.blocks, ph.requested);
    EmptyCache(CacheOf(s, k));
    OwnPhaseFrame(s, l, s', k);
  }

  lemma CarvedIsEmpty(s: State, loc: Locs, id: nat)
    requires PhasesOk(s) && PendingOk(s, loc) && PhaseOf(s, id).Carved?
    ensures PhaseOf(s, id).blocks != [] && Total(CacheOf(s, Key(id, PhaseOf(s, id).cls))) == 0
  {
    PendingSpan(s, loc, id);
  }

  /** A step that touches neither caches nor phases. */
  lemma StillFrame(s: State, l: Label, s': State)
    requires s.arena.alignment > 0 && (Quiet(s, s') || Quiet(s, s'.(staged := s.staged))) && s'.caches == s.caches
    requires s'.staged == s.staged || forall k: Key :: !ActsFor(l, k.id) ==> StagedOf(s', k) == StagedOf(s, k)
    ensures Framed(s, l, s')
  {
    hide UsesHotSlot;
    forall id ensures PhaseOf(s', id) == PhaseOf(s, id) {}
    forall k ensures CacheOf(s', k) == CacheOf(s, k) {}
    forall k | s'.staged == s.staged ensures StagedOf(s', k) == StagedOf(s, k) {}
  }

  lemma OffCacheStep(s: State, l: Label, s': State)
    requires s.arena.alignment > 0 && (forall c :: Limits(s, c).blockSize > 0) && s' == Apply(s, l)
    requires l.Sweep? || l.EraseUntouched? || l.EraseCold?
    ensures Quiet(s, s') && s'.caches == s.caches
  {
    hide Limits, FreeCheck, FreeLocal, FreeRemote, DrainTo, PopTo, AllocFromBatch, AllocFromSlab;
    hide ReserveFor, RegisterCarved, DrainInbox, RecordFor, RequestClass;
    match l
    case Sweep(c, i) => assert s' == s || s' == SweepSlab(s, c, i);
    case EraseUntouched(_, _, b) => assert s' == EraseBlock(s, b);
    case EraseCold(_, _, b) => assert s' == EraseBlock(s, b);
  }

  lemma FlushIs(s: State, l: Label)
    requires s.arena.alignment > 0 && (forall c :: Limits(s, c).blockSize > 0) && l.Flush?
    ensures Apply(s, l) == FlushStaged(s, Key(l.id, l.cls))
  {
  }

  lemma FlushStepFrame(s: State, l: Label, s': State)
    requires s.arena.alignment > 0 && l.Flush? && s' == FlushStaged(s, Key(l.id, l.cls))
    ensures Framed(s, l, s')
  {
    hide Framed, FlushStaged, StagedOf;
    FlushStagedFrame(s, Key(l.id, l.cls));
    StillFrame(s, l, s');
  }

  /** Every step of every cache, sweep and page reclaim stays within its frame. */
  lemma StepFrame(s: State, loc: Locs, l: Label)
    requires StepInv(s, loc) && Step(s, l, Apply(s, l))
    ensures Framed(s, l, Apply(s, l))
  {
    hide Framed, Apply, Bounded, PhasesOk, Placed, Shaped, Threaded, BlocksOk, PendingOk, OneOwner, RegisteredOk;
    if l.AllocHit? || l.AllocBatch? || l.AllocSlab? {
      AllocStepFrame(s, loc, l);
    } else if l.AllocMiss? {
      MissStepFrame(s, l, Apply(s, l));
    } else if l.DrainLocal? {
      DrainStepFrame(s, l, Apply(s, l));
    } else if l.Free? {
      FreeStepFrame(s, l);
    } else if l.CarveSpan? {
      CarveStepFrame(s, l, Apply(s, l));
    } else if l.CarveFails? || l.ReserveOther? {
      CursorStepFrame(s, l, Apply(s, l));
    } else if l.RegisterSpan? {
      CarvedIsEmpty(s, loc, l.id);
      RegisterStepFrame(s, l, Apply(s, l));
    } else if l.Flush? {
      FlushStepFrame(s, l, FlushStaged(s, Key(l.id, l.cls)));
      assert Apply(s, l) == FlushStaged(s, Key(l.id, l.cls)) by { FlushIs(s, l); }
    } else {
      OffCacheStep(s, l, Apply(s, l));
      StillFrame(s, l, Apply(s, l));
    }
  }
}

/** Runs that start from a configuration: they exist, and what its sizing numbers promise on them. */
module AllocatorConfigs {
  import opened Basics
  import opened SizeClasses
  import opened CacheModel
  import opened PoolModel
  import opened AllocatorModel
  import opened AllocatorSteps
  import opened AllocatorInvariant
  import opened AllocatorSafety
  import opened AllocatorRuns
  import opened AllocatorEffects
  import opened AllocatorFrames
  import opened AllocatorSweeps
  import Arena

  // ----- Starting

  const ALL_CLASSES: set<SizeClass> := {B64, B256, B4K, B6K, B8K, B16K, B32K, B64K, B128K, B256K, B1M, B16M}

  /** The per-class table of a configuration. */
  function TableFor(cfg: Config): map<SizeClass, ClassLimits> { map c | c in ALL_CLASSES :: LimitsFor(cfg, c) }

  /** The state of a new allocator whose mapping has its aligned base at `base`. */
  function NewAllocator(cfg: Config, base: Addr): State {
    State(TableFor(cfg), Arena.Geometry(base, cfg.arenaSize, cfg.alignment), base,
          map[], map[], map[], map[], map[], map[], map[], map[], map[], B64, [])
  }

  ghost predicate Configured(cfg: Config, base: Addr) {
    ValidConfig(cfg) && base > 0 && base % cfg.alignment == 0 && base + cfg.arenaSize <= Arena.USIZE_MAX
  }

  lemma NewLimits(cfg: Config, base: Addr, c: SizeClass)
    ensures Limits(NewAllocator(cfg, base), c) == LimitsFor(cfg, c)
  {
    assert c in ALL_CLASSES;
  }

  /** Every valid configuration starts a run, so there are reachable states. */
  lemma NewAllocatorIsReachable(cfg: Config, base: Addr)
    requires Configured(cfg, base)
    ensures Init(NewAllocator(cfg, base)) && Reachable(NewAllocator(cfg, base))
  {
    var s := NewAllocator(cfg, base);
    hide LimitsFor;
    forall c
      ensures Limits(s, c).Valid() && Limits(s, c).blockSize % s.arena.alignment == 0
      ensures Limits(s, c).blockSize >= HEADER_SIZE + Payload(c)
    {
      NewLimits(cfg, base, c);
      LimitsAreValid(cfg, c);
    }
    var labels: seq<Label> := [];
    assert Run([s], labels) && [s][|labels|] == s;
  }

  /** The states that an allocator with this configuration can reach. */
  ghost predicate ReachableFrom(cfg: Config, base: Addr, s: State) {
    exists states, labels :: Run(states, labels) && states[0] == NewAllocator(cfg, base) && states[|labels|] == s
  }

  // ----- What a class can keep

  /** A class keeps at most its limit, or less than some registered slab of its class. */
  ghost predicate WithinASlab(s: State, k: Key) {
    || Total(CacheOf(s, k)) <= Limits(s, k.cls).local
    || exists i :: 0 <= i < |PoolOf(s, k.cls)| && Total(CacheOf(s, k)) < |PoolOf(s, k.cls)[i].blocks|
  }

  ghost predicate Tight(s: State) { forall k :: WithinASlab(s, k) }

  lemma WithinASlabGrows(s: State, s': State, k: Key)
    requires WithinASlab(s, k) && Grows(s, s') && s'.limits == s.limits
    requires Total(CacheOf(s', k)) <= Max(Total(CacheOf(s, k)), Limits(s, k.cls).local)
    ensures WithinASlab(s', k)
  {
    hide Total, CacheOf, PoolOf;
    SameLimits(s, s', k.cls);
    if Total(CacheOf(s', k)) > Limits(s', k.cls).local {
      var i :| 0 <= i < |PoolOf(s, k.cls)| && Total(CacheOf(s, k)) < |PoolOf(s, k.cls)[i].blocks|;
      assert PoolGrows(PoolOf(s, k.cls), PoolOf(s', k.cls));
      assert Total(CacheOf(s', k)) < |PoolOf(s', k.cls)[i].blocks|;
    }
  }

  /** A refill leaves one block less than the slab or batch it took. */
  lemma BatchTotal(s: State, loc: Locs, k: Key, requested: nat, slab: nat)
    requires Inv(s, loc) && s.hand == [] && Total(CacheOf(s, k)) == 0
    requires RefillChoice(PoolOf(DrainInbox(s, k.cls), k.cls), Batch(slab))
    ensures slab < |PoolOf(s, k.cls)|
    ensures Total(CacheOf(AllocFromBatch(s, k, requested, slab), k)) < |PoolOf(s, k.cls)[slab].blocks|
  {
    hide Placed, Threaded, BlocksOk, PendingOk, OneOwner, CarvedOk, RegisteredOk, LimitsOk, DrainInbox, TakeBatch, AcceptHand, Total;
    var s1 := DrainInbox(s, k.cls);
    DrainInboxGrows(s, k.cls);
    assert PoolGrows(PoolOf(s, k.cls), PoolOf(s1, k.cls));
    DrainInboxFrame(s, k.cls);
    ReturnBatchGrows(PoolOf(s, k.cls), InboxOf(s, k.cls));
    var loc1 := DrainInboxInv(s, k.cls, loc);
    assert PoolSlabOk(s1, loc1, k.cls, slab);
    var loc2 := BatchInv(s, loc, k, slab);
    BatchFrame(s, k, slab);
    BatchFromSlab(s1, k.cls, slab, Limits(s, k.cls).refill);
    var s2 := TakeBatch(s1, k.cls, slab, Limits(s, k.cls).refill);
    PopNewBatch(CacheOf(s, k), s2.hand);
    PopLiveLeaves(AcceptHand(s2, k), k, FromShared, requested);
  }

  lemma BatchFromSlab(s: State, c: SizeClass, slab: nat, max: nat)
    requires slab < |PoolOf(s, c)| && PartialBatch(PoolOf(s, c)[slab], max) != []
    ensures TakeBatch(s, c, slab, max).hand == PartialBatch(PoolOf(s, c)[slab], max)
    ensures |TakeBatch(s, c, slab, max).hand| <= |PoolOf(s, c)[slab].free|
  {
  }

  lemma SlabTotal(s: State, loc: Locs, k: Key, requested: nat, slab: nat)
    requires Inv(s, loc) && Total(CacheOf(s, k)) == 0
    requires RefillChoice(PoolOf(DrainInbox(s, k.cls), k.cls), Whole(slab))
    ensures slab < |PoolOf(s, k.cls)|
    ensures Total(CacheOf(AllocFromSlab(s, k, requested, slab), k)) < |PoolOf(s, k.cls)[slab].blocks|
  {
    hide Placed, Shaped, Threaded, BlocksOk, PendingOk, OneOwner, CarvedOk, RegisteredOk, LimitsOk, DrainInbox, LoanSlab, Total;
    var s1 := DrainInbox(s, k.cls);
    DrainInboxGrows(s, k.cls);
    assert PoolGrows(PoolOf(s, k.cls), PoolOf(s1, k.cls));
    DrainInboxFrame(s, k.cls);
    ReturnBatchGrows(PoolOf(s, k.cls), InboxOf(s, k.cls));
    var loc2 := SlabInv(s, loc, k, slab);
    SlabFrame(s, k, slab);
    var lent, src := PoolOf(s1, k.cls)[slab], RecordFor(s1, k, PoolOf(s1, k.cls)[slab].start);
    PopNewSlab(s, k, lent.start, lent.blocks, src);
    PopLiveLeaves(LoanSlab(s1, k, slab), k, src, requested);
  }

  lemma RegisterTotal(s: State, k: Key, blocks: seq<Addr>, requested: nat)
    requires Total(CacheOf(s, k)) == 0 && blocks != []
    ensures var s' := PopTo(RegisterCarved(s, k, blocks), k, RecordFor(s, k, blocks[0]), requested);
            && Total(CacheOf(s', k)) == |blocks| - 1
            && (exists i :: 0 <= i < |PoolOf(s', k.cls)| && PoolOf(s', k.cls)[i].blocks == blocks)
  {
    hide Total;
    var s1, src := RegisterCarved(s, k, blocks), RecordFor(s, k, blocks[0]);
    RegisterFrame(s, k, blocks);
    PopNewSlab(s, k, blocks[0], blocks, src);
    PopLiveLeaves(s1, k, src, requested);
    var s', n := PopLive(s1, k, src, requested), |PoolOf(s, k.cls)|;
    assert PoolOf(s1, k.cls)[n].blocks == blocks;
    assert PoolOf(s', k.cls) == PoolOf(s1, k.cls);
  }

  /** A free never leaves more than there was, or than the limit. */
  lemma FreeTotal(s: State, k: Key, b: Addr, src: Source)
    requires s.hand == [] && Limits(s, k.cls).Valid()
    requires Total(CacheOf(PushFreed(s, k, b), k)) > Limits(s, k.cls).local ==>
               DrainSource(CacheOf(PushFreed(s, k, b), k), src)
    ensures Total(CacheOf(FreeLocal(s, k, b, src), k)) <= Max(Total(CacheOf(s, k)), Limits(s, k.cls).local)
  {
    hide DrainTo, PushFreed, Total;
    var s1, lim := PushFreed(s, k, b), Limits(s, k.cls);
    PushFreedFrame(s, k, b);
    PushTotal(CacheOf(s, k), b);
    if Total(CacheOf(s1, k)) > lim.local {
      DrainSourceNonempty(CacheOf(s1, k), src);
      DrainTotal(CacheOf(s1, k), src, lim.drain);
      DrainToFrame(s1, k, src, lim.drain);
    }
  }

  /** Refills of an empty class, and what they leave. */
  lemma RefillTight(s: State, loc: Locs, l: Label, s': State)
    requires StepInv(s, loc) && Step(s, l, s') && (l.AllocBatch? || l.AllocSlab?) && Grows(s, s')
    ensures var k := Key(l.id, RequestClass(l.requested));
            WithinASlab(s', k) && forall q :: q != k ==> CacheOf(s', q) == CacheOf(s, q)
  {
    hide Placed, Shaped, Threaded, BlocksOk, PendingOk, OneOwner, CarvedOk, RegisteredOk, Bounded, PhasesOk;
    hide AllocFromBatch, AllocFromSlab, Total, CacheOf, PoolOf, RefillChoice, DrainInbox;
    var k := Key(l.id, RequestClass(l.requested));
    AllocFrame(s, loc, l);
    match l
    case AllocBatch(_, requested, slab) => BatchTotal(s, loc, k, requested, slab);
    case AllocSlab(_, requested, slab) => SlabTotal(s, loc, k, requested, slab);
    assert PoolGrows(PoolOf(s, k.cls), PoolOf(s', k.cls));
    assert Total(CacheOf(s', k)) < |PoolOf(s', k.cls)[l.slab].blocks|;
  }

  lemma RegisterTight(s: State, loc: Locs, id: nat, s': State)
    requires StepInv(s, loc) && Step(s, RegisterSpan(id), s')
    ensures var k := Key(id, PhaseOf(s, id).cls);
            WithinASlab(s', k) && forall q :: q != k ==> CacheOf(s', q) == CacheOf(s, q)
  {
    hide Placed, Shaped, Threaded, BlocksOk, PendingOk, OneOwner, CarvedOk, RegisteredOk, LimitsOk, RegisterCarved, PopTo, RecordFor, Total;
    var ph := PhaseOf(s, id);
    var k := Key(id, ph.cls);
    PendingSpan(s, loc, id);
    RegisterTotal(s, k, ph.blocks, ph.requested);
    RegisterFrame(s, k, ph.blocks);
    PopToLeaves(RegisterCarved(s, k, ph.blocks), k, RecordFor(s, k, ph.blocks[0]), ph.requested);
    var i :| 0 <= i < |PoolOf(s', k.cls)| && PoolOf(s', k.cls)[i].blocks == ph.blocks;
    assert Total(CacheOf(s', k)) < |PoolOf(s', k.cls)[i].blocks|;
  }

  /** Every other step leaves each class with at most what it had, or its limit. */
  lemma OtherTotals(s: State, loc: Locs, l: Label, s': State, k: Key)
    requires StepInv(s, loc) && Step(s, l, s') && !l.AllocBatch? && !l.AllocSlab? && !l.RegisterSpan?
    ensures Total(CacheOf(s', k)) <= Max(Total(CacheOf(s, k)), Limits(s, k.cls).local)
  {
    hide Placed, Shaped, Threaded, BlocksOk, PendingOk, OneOwner, CarvedOk, RegisteredOk, Total;
    if l.AllocHit? {
      HitTotal(s, l, k);
    } else if l.Free? {
      FreeTotals(s, l, k);
    } else if l.DrainLocal? {
      DrainTotals(s, l, k);
    } else {
      QuietCaches(s, l, s');
      SameCaches(s, s', k);
    }
  }

  lemma SameCaches(s: State, s': State, k: Key)
    requires s'.caches == s.caches
    ensures CacheOf(s', k) == CacheOf(s, k)
  {
  }

  lemma QuietCaches(s: State, l: Label, s': State)
    requires Step(s, l, s')
    requires l.AllocMiss? || l.CarveSpan? || l.CarveFails? || l.Flush? || l.Sweep? || l.EraseUntouched? || l.EraseCold? || l.ReserveOther?
    ensures s'.caches == s.caches
  {
    hide Enabled, FlushStaged, DrainInbox, Apply;
    if l.AllocMiss? || l.CarveSpan? || l.CarveFails? || l.ReserveOther? {
      PhaseCaches(s, l);
    } else if l.Flush? {
      FlushStagedFrame(s, Key(l.id, l.cls));
      FlushIs(s, l);
    } else {
      OffCacheStep(s, l, s');
    }
  }

  lemma PhaseCaches(s: State, l: Label)
    requires s.arena.alignment > 0 && (forall c :: Limits(s, c).blockSize > 0)
    requires l.AllocMiss? || l.CarveSpan? || l.CarveFails? || l.ReserveOther?
    ensures Apply(s, l).caches == s.caches
  {
    hide DrainInbox, PlanFor, CarvedBlocks, Limits, RequestClass, Arena.PlanBytes, FreeCheck, FreeLocal, FreeRemote;
    hide DrainTo, PopTo, AllocFromBatch, AllocFromSlab, RegisterCarved, RecordFor, FlushStaged;
    if l.AllocMiss? {
      DrainInboxFrame(s, RequestClass(l.requested));
    }
  }

  lemma HitTotal(s: State, l: Label, k: Key)
    requires l.AllocHit? && PopSource(CacheOf(s, Key(l.id, RequestClass(l.requested))), l.src)
    ensures Total(CacheOf(PopTo(s, Key(l.id, RequestClass(l.requested)), l.src, l.requested), k)) <= Total(CacheOf(s, k))
  {
    var own := Key(l.id, RequestClass(l.requested));
    PopTotal(CacheOf(s, own), l.src);
    PopLiveLeaves(s, own, l.src, l.requested);
    hide PopLive, Total, CacheOf, RequestClass;
  }

  lemma FreeTotals(s: State, l: Label, k: Key)
    requires LimitsOk(s) && s.hand == [] && Bounded(s) && s.arena.alignment > 0 && l.Free? && Enabled(s, l)
    ensures forall c :: Limits(s, c).blockSize > 0
    ensures Total(CacheOf(Apply(s, l), k)) <= Max(Total(CacheOf(s, k)), Limits(s, k.cls).local)
  {
    hide Total, FreeLocal, FreeRemote, DrainSource, LimitsOk, Bounded, Limits, Hdr;
    FreeFrame(s, l);
    match FreeCheck(s, l.block, l.expected)
    case Err(_) =>
    case Ok(c) =>
      if k == Key(l.id, c) && Hdr(s, l.block).owner == l.id {
        BoundedAt(s, k);
        FreeTotal(s, k, l.block, l.src);
      }
  }

  lemma DrainTotals(s: State, l: Label, k: Key)
    requires s.hand == [] && l.DrainLocal? && DrainSource(CacheOf(s, Key(l.id, l.cls)), l.src)
    ensures var own := Key(l.id, l.cls);
            Total(CacheOf(DrainTo(s, own, l.src, Total(CacheOf(s, own))), k)) <= Total(CacheOf(s, k))
  {
    hide DrainTo, Total;
    var own := Key(l.id, l.cls);
    DrainSourceExists(CacheOf(s, own));
    DrainSourceNonempty(CacheOf(s, own), l.src);
    DrainToFrame(s, own, l.src, Total(CacheOf(s, own)));
    DrainTotal(CacheOf(s, own), l.src, Total(CacheOf(s, own)));
  }

  lemma StepKeepsTight(s: State, loc: Locs, l: Label, s': State)
    requires StepInv(s, loc) && Tight(s) && Step(s, l, s')
    ensures Tight(s')
  {
    hide Placed, Shaped, Threaded, BlocksOk, PendingOk, OneOwner, CarvedOk, RegisteredOk, Bounded, PhasesOk;
    hide Apply, Enabled, Total, CacheOf, WithinASlab, Grows;
    StepGrows(s, loc, l, s');
    StepFrame(s, loc, l);
    if l.AllocBatch? || l.AllocSlab? {
      RefillTight(s, loc, l, s');
    } else if l.RegisterSpan? {
      RegisterTight(s, loc, l.id, s');
    }
    forall k ensures WithinASlab(s', k) {
      if !WithinASlab(s', k) {
        if !l.AllocBatch? && !l.AllocSlab? && !l.RegisterSpan? {
          OtherTotals(s, loc, l, s', k);
        }
        WithinASlabGrows(s, s', k);
      }
    }
  }

  lemma {:induction false} RunTight(states: seq<State>, labels: seq<Label>, n: nat)
    requires Run(states, labels) && n < |states|
    ensures Tight(states[n]) && states[n].limits == states[0].limits && states[n].arena == states[0].arena
  {
    hide Tight, StepAt, Init;
    if n == 0 {
      InitTight(states[0]);
    } else {
      RunTight(states, labels, n - 1);
      RunStepTight(states, labels, n - 1);
    }
  }

  lemma RunStepTight(states: seq<State>, labels: seq<Label>, n: nat)
    requires Run(states, labels) && n < |labels| && Tight(states[n])
    ensures Tight(states[n + 1]) && states[n + 1].limits == states[n].limits && states[n + 1].arena == states[n].arena
  {
    hide Tight, Init, StepInv, Enabled, Apply;
    var loc := RunInv(states, labels, n);
    assert StepAt(states, labels, n);
    StepKeepsTight(states[n], loc, labels[n], states[n + 1]);
    StepArena(states[n], loc, labels[n]);
  }

  lemma StepArena(s: State, loc: Locs, l: Label)
    requires StepInv(s, loc) && Step(s, l, Apply(s, l))
    ensures Apply(s, l).arena == s.arena && Apply(s, l).limits == s.limits
  {
    hide Apply, Enabled, StepInv;
    StepFrame(s, loc, l);
  }

  lemma InitTight(s: State)
    requires Init(s)
    ensures Tight(s)
  {
    forall k ensures WithinASlab(s, k) { assert CacheOf(s, k) == EMPTY_CACHE; }
  }

  // ----- What the configuration promises

  /** A registered slab is no longer than a refill and than the whole arena. */
  lemma SlabFitsArena(s: State, loc: Locs, c: SizeClass, i: nat)
    requires LimitsOk(s) && CarvedOk(s) && RegisteredOk(s, loc) && Shaped(s, loc) && i < |PoolOf(s, c)|
    ensures Limits(s, c).blockSize > 0
    ensures |PoolOf(s, c)[i].blocks| <= Min(Limits(s, c).refill, Quotient(s.arena.len, Limits(s, c).blockSize))
  {
    hide LimitsOk, Shaped, Limits, PoolOf, RegisteredOk, IsSpan, Quotient;
    var blocks, size := PoolOf(s, c)[i].blocks, Limits(s, c).blockSize;
    SlabIsSpan(s, loc, c, i);
    SlabIsShort(s, loc, c, i);
    var n := |blocks|;
    LastBlock(blocks, size);
    SlabBlockCarved(s, loc, c, i, blocks[0]);
    SlabBlockCarved(s, loc, c, i, blocks[n - 1]);
    SpanLength(blocks[0], size, n, s.arena.base, s.arena.len);
  }

  lemma SlabIsShort(s: State, loc: Locs, c: SizeClass, i: nat)
    requires Shaped(s, loc) && i < |PoolOf(s, c)|
    ensures |PoolOf(s, c)[i].blocks| <= Limits(s, c).refill
  {
    assert PoolSlabOk(s, loc, c, i);
  }

  lemma LastBlock(blocks: seq<Addr>, size: nat)
    requires IsSpan(blocks, size)
    ensures blocks[|blocks| - 1] == Arena.BlockAt(blocks[0], size, |blocks| - 1)
  {
  }

  lemma SpanLength(start: Addr, size: nat, n: nat, base: Addr, len: nat)
    requires size > 0 && n > 0 && base <= start && Arena.BlockAt(start, size, n - 1) + size <= base + len
    ensures n <= Quotient(len, size)
  {
    assert (n - 1) * size + size == n * size;
    Arena.QuotientBounds(len, size);
    if n > Quotient(len, size) {
      MulMonotone(Quotient(len, size) + 1, n, size);
    }
  }

  /** The most blocks of a class that one refill can bring. */
  function LargestRefill(cfg: Config, c: SizeClass): nat { Min(RefillCount(cfg, c), Quotient(cfg.arenaSize, BlockSize(c, cfg.alignment))) }

  /**
   In a configured allocator a cache keeps, between steps, at most `local_limit` blocks of a
   class or fewer than its largest refill, and stages fewer than `drain_count`.
   */
  lemma RetentionIsBounded(cfg: Config, base: Addr, s: State, k: Key)
    requires Configured(cfg, base) && ReachableFrom(cfg, base, s)
    ensures Total(CacheOf(s, k)) <= LocalLimit(cfg, k.cls) || Total(CacheOf(s, k)) < LargestRefill(cfg, k.cls)
    ensures Total(CacheOf(s, k)) <= Max(LocalLimit(cfg, k.cls), RefillCount(cfg, k.cls))
    ensures |StagedOf(s, k)| < DrainCount(cfg, k.cls)
  {
    hide RefillCount, LocalLimit, DrainCount, Total, Inv;
    var states, labels :| Run(states, labels) && states[0] == NewAllocator(cfg, base) && states[|labels|] == s;
    hide Run;
    var loc := RunInv(states, labels, |labels|);
    RunTight(states, labels, |labels|);
    NewLimits(cfg, base, k.cls);
    SameLimits(states[0], s, k.cls);
    assert WithinASlab(s, k);
    if Total(CacheOf(s, k)) > LocalLimit(cfg, k.cls) {
      var i :| 0 <= i < |PoolOf(s, k.cls)| && Total(CacheOf(s, k)) < |PoolOf(s, k.cls)[i].blocks|;
      InvFitsArena(s, loc, k.cls, i);
    }
  }

  lemma InvFitsArena(s: State, loc: Locs, c: SizeClass, i: nat)
    requires Inv(s, loc) && i < |PoolOf(s, c)|
    ensures Limits(s, c).blockSize > 0
    ensures |PoolOf(s, c)[i].blocks| <= Min(Limits(s, c).refill, Quotient(s.arena.len, Limits(s, c).blockSize))
  {
    hide SizeClasses.Quotient, LimitsOk, CarvedOk, RegisteredOk, Shaped, Placed, Threaded, BlocksOk, PendingOk, OneOwner;
    SlabFitsArena(s, loc, c, i);
  }

  // ----- The limit can be exceeded exactly when a refill is larger

  lemma PayloadFits(c: SizeClass)
    ensures FromRequest(Payload(c)) == Some(c) && RequestClass(Payload(c)) == c
  {
  }

  /** How many whole blocks of a class a new arena yields to one refill. */
  function FirstCarve(s: State, c: SizeClass): nat
    requires Limits(s, c).blockSize > 0
  {
    Min(Limits(s, c).refill, Quotient(s.arena.len, Limits(s, c).blockSize))
  }

  lemma MissStep(s: State, c: SizeClass)
    requires Init(s)
    ensures Step(s, AllocMiss(0, Payload(c)), s.(phases := s.phases[0 := Carving(c, Payload(c))]))
  {
    PayloadFits(c);
    forall d ensures Limits(s, d).blockSize > 0 { assert Limits(s, d).Valid(); }
    assert DrainInbox(s, c) == s;
    assert CacheOf(s, Key(0, c)) == EMPTY_CACHE && Total(EMPTY_CACHE) == 0;
    assert RefillChoice(PoolOf(s, c), Empty);
  }

  lemma FirstPlan(s: State, c: SizeClass)
    requires LimitsOk(s) && s.next == s.arena.base
    ensures Limits(s, c).blockSize > 0
    ensures FirstCarve(s, c) > 0 ==>
              && PlanFor(s, c).Some?
              && |CarvedBlocks(s, c, PlanFor(s, c).value)| == FirstCarve(s, c)
  {
    var size, n := Limits(s, c).blockSize, Quotient(s.arena.len, Limits(s, c).blockSize);
    assert Limits(s, c).Valid();
    if FirstCarve(s, c) > 0 {
      Arena.QuotientBounds(s.arena.len, size);
      MulMonotone(FirstCarve(s, c), n, size);
      QuotientOfProduct(FirstCarve(s, c), size);
    }
  }

  lemma CarveStep(s: State, c: SizeClass, requested: nat) returns (s': State)
    requires LimitsOk(s) && s.next == s.arena.base && PhaseOf(s, 0) == Carving(c, requested)
    requires Limits(s, c).blockSize > 0 && FirstCarve(s, c) > 0
    ensures LimitsOk(s') && Step(s, CarveSpan(0), s') && s'.caches == s.caches && s'.limits == s.limits && s'.arena == s.arena
    ensures PhaseOf(s', 0).Carved? && PhaseOf(s', 0).cls == c && |PhaseOf(s', 0).blocks| == FirstCarve(s, c)
  {
    FirstPlan(s, c);
    hide PlanFor, CarvedBlocks, FirstCarve;
    forall d ensures Limits(s, d).blockSize > 0 { assert Limits(s, d).Valid(); }
    s' := Apply(s, CarveSpan(0));
    forall d ensures Limits(s', d) == Limits(s, d) { SameLimits(s, s', d); }
  }

  /** The first refill of a class: a miss, a carve of as much as fits, a registration. */
  lemma FirstRefill(s0: State, c: SizeClass) returns (states: seq<State>, labels: seq<Label>)
    requires Init(s0)
    requires Limits(s0, c).blockSize > 0 && FirstCarve(s0, c) > 0
    ensures Run(states, labels) && states[0] == s0
    ensures Total(CacheOf(states[|labels|], Key(0, c))) + 1 == FirstCarve(s0, c)
  {
    hide Step, Total, Apply, FirstCarve;
    var s1 := s0.(phases := s0.phases[0 := Carving(c, Payload(c))]);
    MissStep(s0, c);
    forall d ensures Limits(s1, d) == Limits(s0, d) { SameLimits(s0, s1, d); }
    SameFirstCarve(s0, s1, c);
    var s2 := CarveStep(s1, c, Payload(c));
    var s3 := RegisterStep(s2, c);
    SameFirstCarve(s0, s2, c);
    states, labels := [s0, s1, s2, s3], [AllocMiss(0, Payload(c)), CarveSpan(0), RegisterSpan(0)];
    assert StepAt(states, labels, 0) && StepAt(states, labels, 1) && StepAt(states, labels, 2);
  }

  lemma SameFirstCarve(s: State, s': State, c: SizeClass)
    requires s'.limits == s.limits && s'.arena == s.arena && Limits(s, c).blockSize > 0
    ensures Limits(s', c) == Limits(s, c) && FirstCarve(s', c) == FirstCarve(s, c)
  {
  }

  lemma RegisterStep(s: State, c: SizeClass) returns (s': State)
    requires LimitsOk(s) && s.caches == map[] && PhaseOf(s, 0).Carved? && PhaseOf(s, 0).cls == c && PhaseOf(s, 0).blocks != []
    ensures Step(s, RegisterSpan(0), s') && Total(CacheOf(s', Key(0, c))) + 1 == |PhaseOf(s, 0).blocks|
  {
    hide RegisterCarved, PopTo, RecordFor;
    var ph := PhaseOf(s, 0);
    forall d ensures Limits(s, d).blockSize > 0 { assert Limits(s, d).Valid(); }
    assert CacheOf(s, Key(0, c)) == EMPTY_CACHE && Total(EMPTY_CACHE) == 0;
    RegisterTotal(s, Key(0, c), ph.blocks, ph.requested);
    s' := Apply(s, RegisterSpan(0));
  }

  /**
   A configured allocator can keep more than `local_limit` blocks of a class in one cache
   exactly when its largest refill brings at least two more than that.
   */
  lemma LimitExceededIff(cfg: Config, base: Addr, c: SizeClass)
    requires Configured(cfg, base)
    ensures (exists s, id :: ReachableFrom(cfg, base, s) && Total(CacheOf(s, Key(id, c))) > LocalLimit(cfg, c))
            <==> LargestRefill(cfg, c) > LocalLimit(cfg, c) + 1
  {
    hide Total, LocalLimit, RefillCount, CacheOf, BlockSize;
    if s, id :| ReachableFrom(cfg, base, s) && Total(CacheOf(s, Key(id, c))) > LocalLimit(cfg, c) {
      RetentionIsBounded(cfg, base, s, Key(id, c));
    }
    if LargestRefill(cfg, c) > LocalLimit(cfg, c) + 1 {
      var s0 := NewAllocator(cfg, base);
      NewAllocatorIsReachable(cfg, base);
      NewLimits(cfg, base, c);
      var states, labels := FirstRefill(s0, c);
      assert ReachableFrom(cfg, base, states[|labels|]);
      assert Total(CacheOf(states[|labels|], Key(0, c))) > LocalLimit(cfg, c);
    }
  }

  /** In particular a refill of at most one block more than the limit never leaves a class above it. */
  lemma SmallRefillsStayWithinLimit(cfg: Config, base: Addr, s: State, k: Key)
    requires Configured(cfg, base) && ReachableFrom(cfg, base, s) && RefillCount(cfg, k.cls) <= LocalLimit(cfg, k.cls) + 1
    ensures Total(CacheOf(s, k)) <= LocalLimit(cfg, k.cls)
  {
    RetentionIsBounded(cfg, base, s, k);
  }
}

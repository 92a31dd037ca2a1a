/** What each step does to the program's blocks, to the registered slabs and to central counts. */
module AllocatorEffects {
  import opened Basics
  import opened SizeClasses
  import opened Headers
  import opened CacheModel
  import opened PoolModel
  import opened AllocatorModel
  import opened DrainActions
  import opened RefillActions
  import opened PoolActions
  import opened AllocatorSteps
  import opened AllocatorInvariant
  import opened AllocatorSafety

  // ----- Registered slabs only grow

  ghost predicate PoolGrows(pool: Pool, pool': Pool) {
    && |pool| <= |pool'|
    && (forall i :: 0 <= i < |pool| ==> pool'[i].start == pool[i].start && pool'[i].blocks == pool[i].blocks)
  }

  ghost predicate Grows(s: State, s': State) {
    forall c :: PoolGrows(PoolOf(s, c), PoolOf(s', c))
  }

  /** And no slab turned cold. */
  ghost predicate PoolWarm(pool: Pool, pool': Pool) {
    && PoolGrows(pool, pool')
    && (forall i :: 0 <= i < |pool'| && pool'[i].state == FullCold ==> i < |pool| && pool[i].state == FullCold)
  }

  ghost predicate Warm(s: State, s': State) {
    forall c :: PoolWarm(PoolOf(s, c), PoolOf(s', c))
  }

  lemma {:induction false} ReturnBatchGrows(pool: Pool, batch: seq<Addr>)
    ensures PoolWarm(pool, ReturnBatch(pool, batch)) && |ReturnBatch(pool, batch)| == |pool|
    decreases batch
  {
    if batch != [] {
      ReturnBatchGrows(ReturnBlock(pool, batch[0]), batch[1..]);
    }
  }

  lemma DrainInboxGrows(s: State, c: SizeClass)
    ensures Warm(s, DrainInbox(s, c))
  {
    DrainInboxFrame(s, c);
    ReturnBatchGrows(PoolOf(s, c), InboxOf(s, c));
    forall d ensures PoolWarm(PoolOf(s, d), PoolOf(DrainInbox(s, c), d)) {}
  }

  lemma PoolWarmTrans(pool: Pool, mid: Pool, pool': Pool)
    requires PoolWarm(pool, mid) && PoolWarm(mid, pool')
    ensures PoolWarm(pool, pool')
  {
  }

  lemma DrainToGrows(s: State, k: Key, src: Source, max: nat)
    requires s.hand == [] && max > 0 && Nonempty(CacheOf(s, k), src)
    ensures Warm(s, DrainTo(s, k, src, max))
  {
    hide DrainTo, DrainRest, DrainBatch, ReturnBatch, CacheOf, PoolOf, InboxOf;
    DrainToFrame(s, k, src, max);
    var mid := ReturnBatch(PoolOf(s, k.cls), InboxOf(s, k.cls));
    ReturnBatchGrows(PoolOf(s, k.cls), InboxOf(s, k.cls));
    ReturnBatchGrows(mid, DrainBatch(CacheOf(s, k), src, max));
    PoolWarmTrans(PoolOf(s, k.cls), mid, ReturnBatch(mid, DrainBatch(CacheOf(s, k), src, max)));
    forall d ensures PoolWarm(PoolOf(s, d), PoolOf(DrainTo(s, k, src, max), d)) {}
  }

  lemma SamePools(s: State, s': State)
    requires s'.pools == s.pools
    ensures Warm(s, s')
  {
    forall d ensures PoolWarm(PoolOf(s, d), PoolOf(s', d)) {}
  }

  lemma GrowsTrans(s: State, s1: State, s2: State)
    requires Warm(s, s1) && Warm(s1, s2)
    ensures Warm(s, s2)
  {
    forall d ensures PoolWarm(PoolOf(s, d), PoolOf(s2, d)) {
      assert PoolWarm(PoolOf(s, d), PoolOf(s1, d)) && PoolWarm(PoolOf(s1, d), PoolOf(s2, d));
    }
  }

  lemma PopToGrows(s: State, k: Key, src: Source, requested: nat)
    ensures Warm(s, PopTo(s, k, src, requested))
  {
    SamePools(s, PopTo(s, k, src, requested));
  }

  lemma OneSlabGrows(s: State, s': State, c: SizeClass, i: nat, slab: PoolSlab)
    requires i < |PoolOf(s, c)| && s'.pools == s.pools[c := PoolOf(s, c)[i := slab]]
    requires slab.start == PoolOf(s, c)[i].start && slab.blocks == PoolOf(s, c)[i].blocks && slab.state != FullCold
    ensures Warm(s, s')
  {
    forall d ensures PoolWarm(PoolOf(s, d), PoolOf(s', d)) {}
  }

  lemma TakeBatchGrows(s: State, c: SizeClass, slab: nat, max: nat)
    requires slab < |PoolOf(s, c)|
    ensures Warm(s, TakeBatch(s, c, slab, max))
  {
    hide Warm;
    var s' := TakeBatch(s, c, slab, max);
    if s' == s {
      SamePools(s, s');
    } else {
      OneSlabGrows(s, s', c, slab, TakePartial(PoolOf(s, c)[slab], max));
    }
  }

  lemma BatchGrows(s: State, k: Key, requested: nat, slab: nat)
    ensures Warm(s, AllocFromBatch(s, k, requested, slab))
  {
    hide Warm, PopTo, DrainInbox, TakeBatch, AcceptHand, PoolOf;
    var s1 := DrainInbox(s, k.cls);
    DrainInboxGrows(s, k.cls);
    if slab < |PoolOf(s1, k.cls)| {
      var s2 := TakeBatch(s1, k.cls, slab, Limits(s, k.cls).refill);
      var s3 := AcceptHand(s2, k);
      TakeBatchGrows(s1, k.cls, slab, Limits(s, k.cls).refill);
      AcceptHandGrows(s2, k);
      PopToGrows(s3, k, FromShared, requested);
      GrowsTrans(s, s1, s2);
      GrowsTrans(s, s2, s3);
      GrowsTrans(s, s3, PopTo(s3, k, FromShared, requested));
    }
  }

  lemma AcceptHandGrows(s: State, k: Key)
    ensures Warm(s, AcceptHand(s, k))
  {
    SamePools(s, AcceptHand(s, k));
  }

  lemma SlabGrows(s: State, k: Key, requested: nat, slab: nat)
    ensures Warm(s, AllocFromSlab(s, k, requested, slab))
  {
    hide Warm, PopTo;
    var s1 := DrainInbox(s, k.cls);
    DrainInboxGrows(s, k.cls);
    if slab < |PoolOf(s1, k.cls)| {
      var s2 := LoanSlab(s1, k, slab);
      OneSlabGrows(s1, s2, k.cls, slab, Loan(PoolOf(s1, k.cls)[slab]));
      PopToGrows(s2, k, RecordFor(s1, k, PoolOf(s1, k.cls)[slab].start), requested);
      GrowsTrans(s, s1, s2);
      GrowsTrans(s, s2, AllocFromSlab(s, k, requested, slab));
    }
  }

  lemma AllocGrows(s: State, l: Label)
    requires s.arena.alignment > 0 && forall c :: Limits(s, c).blockSize > 0
    requires Enabled(s, l) && (l.AllocHit? || l.AllocBatch? || l.AllocSlab? || l.AllocMiss?)
    ensures Warm(s, Apply(s, l))
  {
    var k := Key(l.id, RequestClass(l.requested));
    var s1 := DrainInbox(s, k.cls);
    DrainInboxGrows(s, k.cls);
    match l
    case AllocHit(_, requested, src) => PopToGrows(s, k, src, requested);
    case AllocBatch(_, requested, slab) => BatchGrows(s, k, requested, slab);
    case AllocSlab(_, requested, slab) => SlabGrows(s, k, requested, slab);
    case AllocMiss(_, requested) =>
      SamePools(s1, Apply(s, l));
      GrowsTrans(s, s1, Apply(s, l));
  }

  lemma FreeLocalGrows(s: State, k: Key, b: Addr, src: Source)
    requires s.hand == [] && Limits(s, k.cls).Valid()
    requires Total(CacheOf(PushFreed(s, k, b), k)) > Limits(s, k.cls).local ==>
               Nonempty(CacheOf(PushFreed(s, k, b), k), src)
    ensures Warm(s, FreeLocal(s, k, b, src))
  {
    var s1 := PushFreed(s, k, b);
    PushFreedFrame(s, k, b);
    SamePools(s, s1);
    if Total(CacheOf(s1, k)) > Limits(s, k.cls).local {
      DrainToGrows(s1, k, src, Limits(s, k.cls).drain);
      GrowsTrans(s, s1, FreeLocal(s, k, b, src));
    }
  }

  lemma FreeRemoteGrows(s: State, k: Key, b: Addr)
    ensures Warm(s, FreeRemote(s, k, b))
  {
    SamePools(s, FreeRemote(s, k, b));
  }

  lemma FreeGrows(s: State, l: Label)
    requires LimitsOk(s) && s.hand == [] && l.Free? && Enabled(s, l)
    ensures forall c :: Limits(s, c).blockSize > 0
    ensures Warm(s, Apply(s, l))
  {
    hide FreeLocal, FreeRemote, Warm, DrainSource;
    forall c ensures Limits(s, c).blockSize > 0 { assert Limits(s, c).Valid(); }
    match FreeCheck(s, l.block, l.expected)
    case Err(_) => SamePools(s, Apply(s, l));
    case Ok(c) =>
      assert Limits(s, c).Valid();
      if Hdr(s, l.block).owner == l.id {
        DrainSourceNonempty(CacheOf(PushFreed(s, Key(l.id, c), l.block), Key(l.id, c)), l.src);
        FreeLocalGrows(s, Key(l.id, c), l.block, l.src);
      } else {
        FreeRemoteGrows(s, Key(l.id, c), l.block);
      }
  }

  lemma RegisterGrows(s: State, k: Key, blocks: seq<Addr>, requested: nat)
    requires blocks != []
    ensures Warm(s, PopTo(RegisterCarved(s, k, blocks), k, RecordFor(s, k, blocks[0]), requested))
  {
    var s1 := RegisterCarved(s, k, blocks);
    forall d ensures PoolWarm(PoolOf(s, d), PoolOf(s1, d)) {}
    PopToGrows(s1, k, RecordFor(s, k, blocks[0]), requested);
    GrowsTrans(s, s1, PopTo(s1, k, RecordFor(s, k, blocks[0]), requested));
  }

  lemma SweepGrows(s: State, c: SizeClass, i: nat)
    requires i < |PoolOf(s, c)|
    ensures Grows(s, SweepSlab(s, c, i))
  {
    forall d ensures PoolGrows(PoolOf(s, d), PoolOf(SweepSlab(s, c, i), d)) {}
  }

  /** Only a sweep turns a slab cold. */
  lemma StepWarm(s: State, loc: Locs, l: Label, s': State)
    requires StepInv(s, loc) && Step(s, l, s') && !l.Sweep?
    ensures Warm(s, s')
  {
    hide Warm, Placed, Shaped, Threaded, BlocksOk, PendingOk, OneOwner, CarvedOk, RegisteredOk, Bounded, PhasesOk;
    hide FreeCheck, FreeLocal, FreeRemote, DrainTo, DrainInbox, PopTo, AllocFromBatch, AllocFromSlab, RegisterCarved, RecordFor;
    match l
    case AllocHit(_, _, _) => AllocGrows(s, l);
    case AllocBatch(_, _, _) => AllocGrows(s, l);
    case AllocSlab(_, _, _) => AllocGrows(s, l);
    case AllocMiss(_, _) => AllocGrows(s, l);
    case Free(_, _, _, _) => FreeGrows(s, l);
    case DrainLocal(id, c, src) =>
      DrainSourceExists(CacheOf(s, Key(id, c)));
      DrainToGrows(s, Key(id, c), src, Total(CacheOf(s, Key(id, c))));
    case RegisterSpan(id) =>
      PendingSpan(s, loc, id);
      RegisterGrows(s, Key(id, PhaseOf(s, id).cls), PhaseOf(s, id).blocks, PhaseOf(s, id).requested);
    case _ => SamePools(s, s');
  }

  lemma WarmGrows(s: State, s': State)
    requires Warm(s, s')
    ensures Grows(s, s')
  {
    forall c ensures PoolGrows(PoolOf(s, c), PoolOf(s', c)) { assert PoolWarm(PoolOf(s, c), PoolOf(s', c)); }
  }

  /** No step forgets a registered slab or changes its geometry. */
  lemma StepGrows(s: State, loc: Locs, l: Label, s': State)
    requires StepInv(s, loc) && Step(s, l, s')
    ensures Grows(s, s')
  {
    hide Grows, Warm, StepInv, Apply;
    if l.Sweep? {
      SweepIs(s, l);
      SweepGrows(s, l.cls, l.slab);
    } else {
      StepWarm(s, loc, l, s');
      WarmGrows(s, s');
    }
  }

  lemma SweepIs(s: State, l: Label)
    requires s.arena.alignment > 0 && (forall c :: Limits(s, c).blockSize > 0) && l.Sweep? && Enabled(s, l)
    ensures l.slab < |PoolOf(s, l.cls)| && Apply(s, l) == SweepSlab(s, l.cls, l.slab)
  {
  }

  // ----- What the program holds

  /** The program gets block `b`, new to it, with the full header of its request. */
  ghost predicate Issues(s: State, s': State, k: Key, requested: nat, b: Addr) {
    && b !in s.live && s'.live == s.live[b := LiveRecord(k.cls, k.id, requested)]
    && Hdr(s', b) == WriteSmall(k.cls, requested, k.id)
  }

  lemma PopIssues(s: State, loc: Locs, k: Key, src: Source, requested: nat)
    requires Inv(s, loc) && Nonempty(CacheOf(s, k), src)
    ensures Issues(s, PopTo(s, k, src, requested), k, requested, PopBlock(CacheOf(s, k), src))
  {
    PopWritesFullHeader(s, loc, k, src, requested);
    PlacedAt(s, loc, Live);
    assert PopBlock(CacheOf(s, k), src) !in At(s, Live);
  }

  lemma AllocIssues(s: State, loc: Locs, l: Label) returns (b: Addr)
    requires StepInv(s, loc) && Step(s, l, Apply(s, l)) && (l.AllocHit? || l.AllocBatch? || l.AllocSlab?)
    ensures Issues(s, Apply(s, l), Key(l.id, RequestClass(l.requested)), l.requested, b)
    ensures l.AllocHit? ==> b == PopBlock(CacheOf(s, Key(l.id, RequestClass(l.requested))), l.src)
  {
    hide Placed, Shaped, Threaded, BlocksOk, PendingOk, OneOwner, CarvedOk, RegisteredOk, LimitsOk, Bounded, PhasesOk;
    hide DrainInbox, RefillChoice, AllocFromBatch, AllocFromSlab, PopTo, Total, Issues;
    var k := Key(l.id, RequestClass(l.requested));
    match l
    case AllocHit(_, requested, src) =>
      b := PopBlock(CacheOf(s, k), src);
      PopIssues(s, loc, k, src, requested);
    case AllocBatch(_, requested, slab) => b := BatchIssues(s, loc, k, requested, slab);
    case AllocSlab(_, requested, slab) => b := SlabIssues(s, loc, k, requested, slab);
  }

  lemma BatchIssues(s: State, loc: Locs, k: Key, requested: nat, slab: nat) returns (b: Addr)
    requires Inv(s, loc) && s.hand == [] && RefillChoice(PoolOf(DrainInbox(s, k.cls), k.cls), Batch(slab))
    ensures Issues(s, AllocFromBatch(s, k, requested, slab), k, requested, b)
  {
    hide Placed, Shaped, Threaded, BlocksOk, PendingOk, OneOwner, CarvedOk, RegisteredOk, LimitsOk, DrainInbox, TakeBatch, AcceptHand, PopTo;
    var loc' := BatchInv(s, loc, k, slab);
    BatchFrame(s, k, slab);
    var s3 := AcceptHand(TakeBatch(DrainInbox(s, k.cls), k.cls, slab, Limits(s, k.cls).refill), k);
    b := PopBlock(CacheOf(s3, k), FromShared);
    PopIssues(s3, loc', k, FromShared, requested);
  }

  lemma SlabIssues(s: State, loc: Locs, k: Key, requested: nat, slab: nat) returns (b: Addr)
    requires Inv(s, loc) && Total(CacheOf(s, k)) == 0 && RefillChoice(PoolOf(DrainInbox(s, k.cls), k.cls), Whole(slab))
    ensures Issues(s, AllocFromSlab(s, k, requested, slab), k, requested, b)
  {
    hide Placed, Shaped, Threaded, BlocksOk, PendingOk, OneOwner, CarvedOk, RegisteredOk, LimitsOk, DrainInbox, LoanSlab, PopTo, Total;
    var loc' := SlabInv(s, loc, k, slab);
    SlabFrame(s, k, slab);
    var lent := PoolOf(DrainInbox(s, k.cls), k.cls)[slab];
    var s2 := LoanSlab(DrainInbox(s, k.cls), k, slab);
    var src := RecordFor(DrainInbox(s, k.cls), k, lent.start);
    PopNewSlab(s, k, lent.start, lent.blocks, src);
    b := PopBlock(CacheOf(s2, k), src);
    PopIssues(s2, loc', k, src, requested);
  }

  lemma RecordIs(s: State, k: Key, start: Addr)
    ensures RecordFor(s, k, start) == FromSlab(SlabAt(CacheOf(s, k).slabs, start))
  {
  }

  lemma RegisterIssues(s: State, loc: Locs, id: nat) returns (b: Addr)
    requires StepInv(s, loc) && Step(s, RegisterSpan(id), Apply(s, RegisterSpan(id)))
    ensures Issues(s, Apply(s, RegisterSpan(id)), Key(id, PhaseOf(s, id).cls), PhaseOf(s, id).requested, b)
  {
    hide Placed, Shaped, Threaded, BlocksOk, PendingOk, OneOwner, CarvedOk, RegisteredOk, LimitsOk, Bounded, RegisterCarved, RecordFor, Total, PopTo;
    var ph := PhaseOf(s, id);
    var k := Key(id, ph.cls);
    PendingSpan(s, loc, id);
    var s1, src := RegisterCarved(s, k, ph.blocks), RecordFor(s, k, ph.blocks[0]);
    RegisterFrame(s, k, ph.blocks);
    RegisterCarvedInv(s, loc, k, ph.blocks);
    RecordIs(s, k, ph.blocks[0]);
    PopNewSlab(s, k, ph.blocks[0], ph.blocks, src);
    b := PopBlock(CacheOf(s1, k), src);
    PopIssues(s1, WithBlocks(loc, ph.blocks, NewLoc(s, k)), k, src, ph.requested);
  }

  /** What a free leaves alone, and what it does to the cache it goes through. */
  ghost predicate FreeEffect(s: State, l: Label, s': State)
    requires s.arena.alignment > 0 && l.Free?
  {
    && s'.phases == s.phases && s'.limits == s.limits && s'.arena == s.arena && s'.next == s.next && s'.carved == s.carved
    && (forall q: Key :: q.id != l.id ==> StagedOf(s', q) == StagedOf(s, q))
    && match FreeCheck(s, l.block, l.expected)
       case Err(_) => s' == s
       case Ok(c) =>
         && s'.live == s.live - {l.block}
         && (forall q :: q != Key(l.id, c) || Hdr(s, l.block).owner != l.id ==> CacheOf(s', q) == CacheOf(s, q))
         && (Hdr(s, l.block).owner == l.id ==> CacheOf(s', Key(l.id, c)).hot == Some(l.block))
  }

  lemma FreeFrame(s: State, l: Label)
    requires LimitsOk(s) && s.hand == [] && Bounded(s) && l.Free? && Enabled(s, l)
    ensures forall c :: Limits(s, c).blockSize > 0
    ensures FreeEffect(s, l, Apply(s, l))
  {
    hide DrainSource, Bounded, FreeLocal, FreeRemote;
    forall c ensures Limits(s, c).blockSize > 0 { assert Limits(s, c).Valid(); }
    match FreeCheck(s, l.block, l.expected)
    case Err(_) =>
    case Ok(c) =>
      hide FreeEffect, FreeCheck, LimitsOk;
      if Hdr(s, l.block).owner == l.id {
        FreeLocalEffect(s, l, c);
      } else {
        FreeRemoteEffect(s, l, c);
      }
  }

  lemma FreeLocalEffect(s: State, l: Label, c: SizeClass)
    requires LimitsOk(s) && s.hand == [] && Bounded(s) && l.Free?
    requires FreeCheck(s, l.block, l.expected) == Ok(c) && Hdr(s, l.block).owner == l.id
    requires var k := Key(l.id, c);
             Total(CacheOf(PushFreed(s, k, l.block), k)) > Limits(s, c).local ==>
               DrainSource(CacheOf(PushFreed(s, k, l.block), k), l.src)
    ensures FreeEffect(s, l, FreeLocal(s, Key(l.id, c), l.block, l.src))
  {
    hide FreeCheck, LimitsOk, Bounded, FreeLocal, PushFreed, DrainSource, Limits, Hdr, CacheOf;
    BoundedAt(s, Key(l.id, c));
    FreeLocalFrame(s, Key(l.id, c), l.block, l.src);
  }

  lemma FreeRemoteEffect(s: State, l: Label, c: SizeClass)
    requires LimitsOk(s) && s.hand == [] && Bounded(s) && l.Free?
    requires FreeCheck(s, l.block, l.expected) == Ok(c) && Hdr(s, l.block).owner != l.id
    ensures FreeEffect(s, l, FreeRemote(s, Key(l.id, c), l.block))
  {
    hide FreeCheck, LimitsOk, Bounded, FreeRemote, Limits, Hdr, StagedOf;
    BoundedAt(s, Key(l.id, c));
    FreeRemoteFrame(s, Key(l.id, c), l.block);
  }

  lemma BoundedAt(s: State, k: Key)
    requires LimitsOk(s) && Bounded(s)
    ensures Limits(s, k.cls).Valid() && |StagedOf(s, k)| < Limits(s, k.cls).drain
    ensures Total(CacheOf(s, k)) <= Limits(s, k.cls).local || Total(CacheOf(s, k)) < Limits(s, k.cls).refill
  {
  }

  // ----- Central counts

  lemma ReturnCount(s: State, loc: Locs, b: Addr)
    requires Placed(s, loc) && Shaped(s, loc) && BlocksOk(s, loc)
    requires b in loc && !loc[b].place.Central?
    ensures CentralCount(ReturnBlock(PoolOf(s, loc[b].cls), b)) == CentralCount(PoolOf(s, loc[b].cls)) + 1
  {
    ReturnTarget(s, loc, b);
    var pool, i := PoolOf(s, loc[b].cls), loc[b].slab;
    CentralCountUpdate(pool, i, ReturnToSlab(pool[i], b));
  }

  lemma {:induction false} DrainInboxCount(s: State, loc: Locs, c: SizeClass)
    requires Inv(s, loc)
    ensures CentralCount(PoolOf(DrainInbox(s, c), c)) == CentralCount(PoolOf(s, c)) + |InboxOf(s, c)|
    decreases |InboxOf(s, c)|
  {
    if InboxOf(s, c) != [] {
      var s1 := ReturnFromInbox(s, c);
      InboxTarget(s, c, loc);
      ReturnCount(s, loc, InboxOf(s, c)[0]);
      var loc1 := ReturnFromInboxInv(s, c, loc);
      DrainInboxCount(s1, loc1, c);
      assert PoolOf(s1, c) == ReturnBlock(PoolOf(s, c), InboxOf(s, c)[0]);
    }
  }

  lemma {:induction false} ReturnHandCount(s: State, loc: Locs)
    requires Inv(s, loc)
    ensures CentralCount(PoolOf(ReturnHand(s), s.handCls)) == CentralCount(PoolOf(s, s.handCls)) + |s.hand|
    decreases |s.hand|
  {
    if s.hand != [] {
      var s1 := ReturnFromHand(s);
      HandTarget(s, loc);
      ReturnCount(s, loc, s.hand[0]);
      var loc1 := ReturnFromHandInv(s, loc);
      ReturnHandCount(s1, loc1);
      assert PoolOf(s1, s.handCls) == ReturnBlock(PoolOf(s, s.handCls), s.hand[0]);
    }
  }

  /** Blocks of class `c` at rest in the center: in slabs or in the inbox. */
  function AtRest(s: State, c: SizeClass): nat { CentralCount(PoolOf(s, c)) + |InboxOf(s, c)| }

  /** A drain moves exactly what leaves the cache to the center. */
  lemma DrainToCount(s: State, loc: Locs, k: Key, src: Source, max: nat)
    requires Inv(s, loc) && s.hand == [] && max > 0 && Nonempty(CacheOf(s, k), src)
    ensures var s' := DrainTo(s, k, src, max);
            && Total(CacheOf(s', k)) < Total(CacheOf(s, k))
            && AtRest(s', k.cls) + Total(CacheOf(s', k)) == AtRest(s, k.cls) + Total(CacheOf(s, k))
  {
    hide Placed, Shaped, Threaded, BlocksOk, PendingOk, OneOwner, CarvedOk, RegisteredOk, LimitsOk, DrainInbox, Detach;
    var s1 := Detach(s, k, src, max);
    var loc1 := DetachInv(s, k, src, max, loc);
    DetachIsDrain(s, k, src, max);
    DrainInboxCount(s1, loc1, k.cls);
    DrainInboxFrame(s1, k.cls);
    var s2 := DrainInbox(s1, k.cls);
    var loc2 := DrainInboxInv(s1, k.cls, loc1);
    ReturnHandCount(s2, loc2);
    DrainToFrame(s, k, src, max);
    DrainTotal(CacheOf(s, k), src, max);
  }
}

/** Every run of the allocator, from its first state, satisfies the invariant. */
module AllocatorRuns {
  import opened Basics
  import opened SizeClasses
  import opened CacheModel
  import opened PoolModel
  import opened AllocatorModel
  import opened AllocatorMoves
  import opened AllocatorActions
  import opened PoolActions
  import opened AllocatorSteps
  import opened AllocatorInvariant
  import opened AllocatorSafety
  import Arena

  lemma DrainLocalKeeps(s: State, loc: Locs, k: Key, src: Source) returns (loc': Locs)
    requires StepInv(s, loc) && PhaseOf(s, k.id) == Idle && DrainSource(CacheOf(s, k), src)
    ensures StepInv(DrainTo(s, k, src, Total(CacheOf(s, k))), loc')
  {
    hide Placed, Shaped, Threaded, BlocksOk, PendingOk, OneOwner, CarvedOk, RegisteredOk, LimitsOk, DrainTo;
    DrainSourceExists(CacheOf(s, k));
    var max := Total(CacheOf(s, k));
    loc' := DrainToInv(s, k, src, max, loc);
    DrainToFrame(s, k, src, max);
    DrainTotal(CacheOf(s, k), src, max);
    BoundsPersist(s, DrainTo(s, k, src, max), k);
  }

  lemma FlushKeeps(s: State, loc: Locs, k: Key) returns (loc': Locs)
    requires StepInv(s, loc) && PhaseOf(s, k.id) == Idle
    ensures StepInv(FlushStaged(s, k), loc')
  {
    FlushStagedInv(s, k, loc);
    loc' := Relocate(loc, multiset(StagedOf(s, k)), Inbox(k.cls));
    assert Limits(s, k.cls).Valid();
    BoundsPersist(s, FlushStaged(s, k), k);
  }

  lemma SweepKeeps(s: State, loc: Locs, c: SizeClass, i: nat)
    requires StepInv(s, loc) && i < |PoolOf(s, c)| && PoolOf(s, c)[i].state == FullHot
    ensures StepInv(SweepSlab(s, c, i), loc)
  {
    SweepSlabInv(s, loc, c, i);
    QuietKeeps(s, SweepSlab(s, c, i));
  }

  /** An erase label names a block that is untouched or in a cold full slab. */
  lemma ErasableBlock(s: State, loc: Locs, l: Label)
    requires Inv(s, loc) && Enabled(s, l) && (l.EraseUntouched? || l.EraseCold?)
    ensures l.block in loc && Erasable(s, loc[l.block])
  {
    hide Placed, Shaped, Threaded, BlocksOk, PendingOk, OneOwner;
    match l
    case EraseUntouched(k, i, b) =>
      PlacedAt(s, loc, Untouched(k, i));
      assert b in At(s, Untouched(k, i));
    case EraseCold(c, i, b) =>
      PlacedAt(s, loc, Central(c, i));
      assert b in At(s, Central(c, i));
  }

  lemma EraseKeeps(s: State, loc: Locs, l: Label)
    requires StepInv(s, loc) && Enabled(s, l) && (l.EraseUntouched? || l.EraseCold?)
    ensures StepInv(EraseBlock(s, l.block), loc)
  {
    ErasableBlock(s, loc, l);
    EraseBlockInv(s, loc, l.block);
    QuietKeeps(s, EraseBlock(s, l.block));
  }

  lemma AllocKeeps(s: State, l: Label, loc: Locs) returns (loc': Locs)
    requires StepInv(s, loc) && Step(s, l, Apply(s, l))
    requires l.AllocHit? || l.AllocBatch? || l.AllocSlab? || l.AllocMiss?
    ensures StepInv(Apply(s, l), loc')
  {
    var c := RequestClass(l.requested);
    var k := Key(l.id, c);
    RequestIsSmall(l.requested);
    match l
    case AllocHit(_, requested, src) => loc' := AllocHitKeeps(s, loc, k, requested, src);
    case AllocBatch(_, requested, slab) => loc' := AllocBatchKeeps(s, loc, k, requested, slab);
    case AllocSlab(_, requested, slab) => loc' := AllocSlabKeeps(s, loc, k, requested, slab);
    case AllocMiss(id, requested) => loc' := AllocMissKeeps(s, loc, id, c, requested);
  }

  lemma CarvePhaseKeeps(s: State, l: Label, loc: Locs) returns (loc': Locs)
    requires StepInv(s, loc) && Step(s, l, Apply(s, l))
    requires l.CarveSpan? || l.CarveFails? || l.RegisterSpan?
    ensures StepInv(Apply(s, l), loc')
  {
    loc' := loc;
    match l
    case CarveSpan(id) => CarveSpanKeeps(s, loc, id);
    case CarveFails(id) => CarveFailsKeeps(s, loc, id);
    case RegisterSpan(id) => loc' := RegisterSpanKeeps(s, loc, id);
  }

  lemma ReturnsKeep(s: State, l: Label, loc: Locs) returns (loc': Locs)
    requires StepInv(s, loc) && Step(s, l, Apply(s, l))
    requires l.Free? || l.DrainLocal? || l.Flush?
    ensures StepInv(Apply(s, l), loc')
  {
    match l
    case Free(_, _, _, _) => loc' := FreeKeeps(s, loc, l);
    case DrainLocal(id, c, src) => loc' := DrainLocalKeeps(s, loc, Key(id, c), src);
    case Flush(id, c) => loc' := FlushKeeps(s, loc, Key(id, c));
  }

  lemma SweepStep(s: State, c: SizeClass, i: nat, loc: Locs)
    requires StepInv(s, loc) && Step(s, Sweep(c, i), Apply(s, Sweep(c, i)))
    ensures StepInv(Apply(s, Sweep(c, i)), loc)
  {
    SweepKeeps(s, loc, c, i);
  }

  lemma EraseUntouchedStep(s: State, k: Key, i: nat, b: Addr, loc: Locs)
    requires StepInv(s, loc) && Step(s, EraseUntouched(k, i, b), Apply(s, EraseUntouched(k, i, b)))
    ensures StepInv(Apply(s, EraseUntouched(k, i, b)), loc)
  {
    EraseKeeps(s, loc, EraseUntouched(k, i, b));
  }

  lemma EraseColdStep(s: State, c: SizeClass, i: nat, b: Addr, loc: Locs)
    requires StepInv(s, loc) && Step(s, EraseCold(c, i, b), Apply(s, EraseCold(c, i, b)))
    ensures StepInv(Apply(s, EraseCold(c, i, b)), loc)
  {
    EraseKeeps(s, loc, EraseCold(c, i, b));
  }

  lemma ReserveOtherStep(s: State, size: nat, loc: Locs)
    requires StepInv(s, loc) && Step(s, ReserveOther(size), Apply(s, ReserveOther(size)))
    ensures StepInv(Apply(s, ReserveOther(size)), loc)
  {
    hide StepInv, Arena.PlanBytes;
    assert s.next >= s.arena.base;
    var span := Arena.PlanBytes(s.arena, size, s.next - s.arena.base).value;
    ReserveOtherKeeps(s, loc, size);
    assert Apply(s, ReserveOther(size)) == s.(next := s.arena.base + span.start + span.size);
  }

  /** Every step of every cache, of the sweeper and of the operating system keeps the invariant. */
  lemma StepKeepsInv(s: State, l: Label, s': State, loc: Locs) returns (loc': Locs)
    requires StepInv(s, loc) && Step(s, l, s')
    ensures StepInv(s', loc')
  {
    if l.AllocHit? || l.AllocBatch? || l.AllocSlab? || l.AllocMiss? {
      loc' := AllocKeeps(s, l, loc);
    } else if l.CarveSpan? || l.CarveFails? || l.RegisterSpan? {
      loc' := CarvePhaseKeeps(s, l, loc);
    } else if l.Free? || l.DrainLocal? || l.Flush? {
      loc' := ReturnsKeep(s, l, loc);
    } else if l.ReserveOther? {
      ReserveOtherStep(s, l.size, loc);
      loc' := loc;
    } else if l.Sweep? {
      SweepStep(s, l.cls, l.slab, loc);
      loc' := loc;
    } else if l.EraseUntouched? {
      EraseUntouchedStep(s, l.key, l.slab, l.block, loc);
      loc' := loc;
    } else {
      EraseColdStep(s, l.cls, l.slab, l.block, loc);
      loc' := loc;
    }
  }

  lemma InitInv(s: State)
    requires Init(s)
    ensures StepInv(s, map[])
  {
    forall p ensures View(s)(p) == multiset{} {
      ViewAt(s, p);
      assert Contents(s, p) == [];
    }
    var at := View(s);
    forall p, b ensures at(p)[b] <= 1 { assert at(p) == multiset{}; }
    forall c ensures Limits(s, c).Valid() {}
  }

  lemma {:induction false} RunInv(states: seq<State>, labels: seq<Label>, n: nat) returns (loc: Locs)
    requires Run(states, labels) && n < |states|
    ensures StepInv(states[n], loc)
  {
    if n == 0 {
      InitInv(states[0]);
      loc := map[];
    } else {
      loc := RunInv(states, labels, n - 1);
      assert StepAt(states, labels, n - 1);
      loc := StepKeepsInv(states[n - 1], labels[n - 1], states[n], loc);
    }
  }

  lemma ReachableInv(s: State) returns (loc: Locs)
    requires Reachable(s)
    ensures StepInv(s, loc)
  {
    var states, labels :| Run(states, labels) && states[|labels|] == s;
    loc := RunInv(states, labels, |labels|);
  }

  /** Runs can be extended, so whatever follows a reachable state is reachable. */
  lemma StepReachable(s: State, l: Label, s': State)
    requires Reachable(s) && Step(s, l, s')
    ensures Reachable(s')
  {
    hide Step, Init;
    var states, labels :| Run(states, labels) && states[|labels|] == s;
    var states', labels' := states + [s'], labels + [l];
    assert Run(states', labels') by {
      forall i | 0 <= i < |labels'| ensures StepAt(states', labels', i) {
        if i < |labels| {
          assert StepAt(states, labels, i);
        }
      }
    }
    assert states'[|labels'|] == s';
  }
}

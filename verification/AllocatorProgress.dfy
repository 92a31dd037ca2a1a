/**
 Every operation can always be taken, and an allocation is over after at most three steps of
 its own, whatever other threads do in between.
 */
module AllocatorProgress {
  import opened Basics
  import opened SizeClasses
  import opened CacheModel
  import opened PoolModel
  import opened AllocatorModel
  import opened AllocatorSteps
  import opened AllocatorInvariant
  import opened AllocatorRuns
  import opened AllocatorEffects
  import opened AllocatorFrames
  import opened AllocatorTheorems
  import opened AllocatorDrains

  // ----- What can be taken

  /** A refill always has a choice, and it is the empty one exactly when the pool holds nothing. */
  lemma RefillChoiceExists(pool: Pool)
    requires forall i :: 0 <= i < |pool| ==> pool[i].Consistent() && pool[i].blocks != []
    ensures (exists i :: RefillChoice(pool, Batch(i)) || RefillChoice(pool, Whole(i))) <==> CentralCount(pool) > 0
    ensures RefillChoice(pool, Empty) <==> CentralCount(pool) == 0
  {
    hide CentralCount;
    CentralCountZero(pool);
    if i :| 0 <= i < |pool| && pool[i].state == Partial {
      assert RefillChoice(pool, Batch(i));
    } else if i :| 0 <= i < |pool| && pool[i].state == FullHot {
      assert RefillChoice(pool, Whole(i));
    } else if i :| 0 <= i < |pool| && pool[i].state == FullCold {
      assert RefillChoice(pool, Whole(i));
    }
  }

  lemma DrainedPool(s: State, c: SizeClass)
    requires Reachable(s)
    ensures var pool := PoolOf(DrainInbox(s, c), c);
            && CentralCount(pool) == AtRest(s, c)
            && (forall i :: 0 <= i < |pool| ==> pool[i].Consistent() && pool[i].blocks != [])
  {
    hide Placed, Threaded, BlocksOk, PendingOk, OneOwner, CarvedOk, RegisteredOk, LimitsOk, Bounded, PhasesOk, Reachable, DrainInbox;
    var loc := ReachableInv(s);
    DrainInboxCount(s, loc, c);
    var loc1 := DrainInboxInv(s, c, loc);
    var s1 := DrainInbox(s, c);
    forall i | 0 <= i < |PoolOf(s1, c)| ensures PoolOf(s1, c)[i].Consistent() && PoolOf(s1, c)[i].blocks != [] {
      assert PoolSlabOk(s1, loc1, c, i);
    }
  }

  /**
   A small allocation can always begin, and in one way only: from its cache if the class holds
   a block, else from the center if that holds one, else by a miss.
   */
  lemma AllocationCanBegin(s: State, id: nat, requested: nat)
    requires Reachable(s) && Ready(s, id, requested)
    ensures var c := RequestClass(requested);
            var cached, central := Total(CacheOf(s, Key(id, c))), AtRest(s, c);
            && s.arena.alignment > 0
            && ((exists src :: Enabled(s, AllocHit(id, requested, src))) <==> cached > 0)
            && ((exists slab :: Enabled(s, AllocBatch(id, requested, slab)) || Enabled(s, AllocSlab(id, requested, slab)))
                <==> cached == 0 && central > 0)
            && (Enabled(s, AllocMiss(id, requested)) <==> cached == 0 && central == 0)
  {
    hide Reachable, Total, AtRest, DrainInbox, RefillChoice, PopSource, CacheOf, PoolOf, Ready, RequestClass;
    hide Placed, Shaped, Threaded, BlocksOk, PendingOk, OneOwner, CarvedOk, RegisteredOk, Bounded, PhasesOk;
    var loc := ReachableInv(s);
    var c := RequestClass(requested);
    var cache, pool := CacheOf(s, Key(id, c)), PoolOf(DrainInbox(s, c), c);
    PopSourceExists(cache);
    DrainedPool(s, c);
    RefillChoiceExists(pool);
    if src :| PopSource(cache, src) {
      assert Enabled(s, AllocHit(id, requested, src));
    }
    if src :| Enabled(s, AllocHit(id, requested, src)) {
      assert PopSource(cache, src);
    }
    if i :| (RefillChoice(pool, Batch(i)) || RefillChoice(pool, Whole(i))) && Total(cache) == 0 {
      assert Enabled(s, AllocBatch(id, requested, i)) || Enabled(s, AllocSlab(id, requested, i));
    }
    if i :| Enabled(s, AllocBatch(id, requested, i)) || Enabled(s, AllocSlab(id, requested, i)) {
      assert RefillChoice(pool, Batch(i)) || RefillChoice(pool, Whole(i));
    }
  }

  /** Any cache may free any block start ever carved, whatever size it names. */
  lemma FreeCanBegin(s: State, id: nat, b: Addr, expected: Option<nat>)
    requires Reachable(s) && PhaseOf(s, id) == Idle && b in s.carved
    ensures s.arena.alignment > 0 && exists src :: Enabled(s, Free(id, b, expected, src))
  {
    hide Reachable, Total, DrainSource, PushFreed, FreeCheck;
    hide Placed, Shaped, Threaded, BlocksOk, PendingOk, OneOwner, CarvedOk, RegisteredOk, Bounded, PhasesOk;
    var loc := ReachableInv(s);
    var check := FreeCheck(s, b, expected);
    var src := FromHot;
    if check.Ok? {
      var cache := CacheOf(PushFreed(s, Key(id, check.value), b), Key(id, check.value));
      DrainSourceExists(cache);
      if Total(cache) > 0 {
        src :| DrainSource(cache, src);
      }
    }
    assert Enabled(s, Free(id, b, expected, src));
  }

  /** So a live block can be freed through every idle cache, and then is no longer live. */
  lemma LiveBlockCanBeFreed(s: State, id: nat, b: Addr) returns (l: Label, s': State)
    requires Reachable(s) && PhaseOf(s, id) == Idle && b in s.live
    ensures l.Free? && l.id == id && l.block == b && l.expected == Some(s.live[b].requested)
    ensures Step(s, l, s') && s'.live == s.live - {b}
  {
    hide Reachable, Apply, FreeCheck, Enabled;
    hide Placed, Shaped, Threaded, BlocksOk, PendingOk, OneOwner, CarvedOk, RegisteredOk, Bounded, PhasesOk;
    LiveIsCarved(s, b);
    var expected := Some(s.live[b].requested);
    FreeCanBegin(s, id, b, expected);
    var src :| Enabled(s, Free(id, b, expected, src));
    StepIsDefined(s);
    l := Free(id, b, expected, src);
    s' := Apply(s, l);
    FreeIsExact(s, l, s');
  }

  lemma StepIsDefined(s: State)
    requires Reachable(s)
    ensures s.arena.alignment > 0 && forall c :: Limits(s, c).blockSize > 0
  {
    hide Placed, Shaped, Threaded, BlocksOk, PendingOk, OneOwner, CarvedOk, RegisteredOk, Bounded, PhasesOk, Reachable;
    var loc := ReachableInv(s);
    forall c ensures Limits(s, c).blockSize > 0 { assert Limits(s, c).Valid(); }
  }

  /** A cache that is carving can go on in exactly one way. */
  lemma CarvingCanGoOn(s: State, id: nat)
    requires Reachable(s)
    ensures s.arena.alignment > 0
    ensures PhaseOf(s, id).Carving? ==> Enabled(s, CarveSpan(id)) != Enabled(s, CarveFails(id))
    ensures PhaseOf(s, id).Carved? ==> Enabled(s, RegisterSpan(id))
  {
    hide Reachable;
    StepIsDefined(s);
  }

  // ----- An allocation ends

  predicate Begins(l: Label, id: nat, requested: nat) {
    (l.AllocHit? || l.AllocBatch? || l.AllocSlab? || l.AllocMiss?) && l.id == id && l.requested == requested
  }

  /** How many of the steps are taken by cache `id`. */
  function OwnSteps(labels: seq<Label>, id: nat): nat {
    if labels == [] then 0 else (if ActsFor(labels[0], id) then 1 else 0) + OwnSteps(labels[1..], id)
  }

  /** The step issues a block for the request, or reports that the arena has no room for one block of its class. */
  ghost predicate Answers(s: State, l: Label, s': State, id: nat, requested: nat) {
    && PhaseOf(s', id) == Idle
    && if l == CarveFails(id) then
         s'.live == s.live && s.arena.alignment > 0 && PlanFor(s, RequestClass(requested)).None?
       else
         exists b :: Issues(s, s', Key(id, RequestClass(requested)), requested, b)
  }

  /** The steps a phase is away from `Idle`. */
  function StepsLeft(ph: Phase): nat {
    match ph
    case Idle => 0
    case Carving(_, _) => 2
    case Carved(_, _, _) => 1
  }

  ghost predicate Serves(ph: Phase, requested: nat) {
    ph != Idle && ph.requested == requested && ph.cls == RequestClass(requested)
  }

  lemma StepsRemain(ph: Phase, requested: nat)
    requires Serves(ph, requested)
    ensures StepsLeft(ph) > 0
  {
  }

  /** A step of a carving cache answers its request or brings it one step closer; other steps leave it where it is. */
  lemma CarvingStep(s: State, l: Label, s': State, id: nat, requested: nat)
    requires Reachable(s) && Step(s, l, s') && Serves(PhaseOf(s, id), requested)
    ensures Reachable(s')
    ensures !ActsFor(l, id) ==> PhaseOf(s', id) == PhaseOf(s, id)
    ensures ActsFor(l, id) ==>
              || Answers(s, l, s', id, requested)
              || (Serves(PhaseOf(s', id), requested) && StepsLeft(PhaseOf(s', id)) < StepsLeft(PhaseOf(s, id)))
  {
    hide Reachable, PlanFor, CarvedBlocks, RecordFor, CacheOf, DrainTo, FreeCheck, AllocFromBatch, AllocFromSlab;
    StepReachable(s, l, s');
    if !ActsFor(l, id) {
      OthersLeaveCacheAlone(s, l, s', Key(id, RequestClass(requested)));
    } else {
      LiveLedger(s, l, s');
    }
  }

  /** A carving allocation is answered as soon as its cache has taken the steps left. */
  lemma {:induction false} CarvingIsAnswered(states: seq<State>, labels: seq<Label>, id: nat, requested: nat) returns (n: nat)
    requires Stretch(states, labels) && Reachable(states[0]) && Serves(PhaseOf(states[0], id), requested)
    requires OwnSteps(labels, id) >= StepsLeft(PhaseOf(states[0], id))
    ensures n < |labels| && Answers(states[n], labels[n], states[n + 1], id, requested)
    ensures OwnSteps(labels[..n + 1], id) <= StepsLeft(PhaseOf(states[0], id))
    decreases |labels|
  {
    hide Reachable, Step, Answers, Serves, ActsFor;
    StepsRemain(PhaseOf(states[0], id), requested);
    assert StepAt(states, labels, 0);
    CarvingStep(states[0], labels[0], states[1], id, requested);
    if ActsFor(labels[0], id) && Answers(states[0], labels[0], states[1], id, requested) {
      n := 0;
      assert labels[..1][1..] == [];
    } else {
      StretchTail(states, labels);
      n := CarvingIsAnswered(states[1..], labels[1..], id, requested);
      assert labels[..n + 2][1..] == labels[1..][..n + 1];
      n := n + 1;
    }
  }

  lemma StretchTail(states: seq<State>, labels: seq<Label>)
    requires Stretch(states, labels) && labels != []
    ensures Stretch(states[1..], labels[1..])
  {
    hide Step;
    forall i | 0 <= i < |labels| - 1 ensures StepAt(states[1..], labels[1..], i) {
      assert StepAt(states, labels, i + 1);
    }
  }

  /** The first step of an allocation issues a block, or is a miss that leaves two steps to take. */
  lemma FirstStep(s: State, l: Label, s': State, id: nat, requested: nat)
    requires Reachable(s) && Step(s, l, s') && Begins(l, id, requested)
    ensures Reachable(s') && ActsFor(l, id)
    ensures if l.AllocMiss? then Serves(PhaseOf(s', id), requested) && StepsLeft(PhaseOf(s', id)) == 2
            else Answers(s, l, s', id, requested)
  {
    hide Reachable, Placed, Shaped, Threaded, BlocksOk, PendingOk, OneOwner, CarvedOk, RegisteredOk, Bounded, PhasesOk;
    hide DrainInbox, AllocFromBatch, AllocFromSlab, PopTo, RefillChoice;
    StepReachable(s, l, s');
    if l.AllocMiss? {
      DrainInboxFrame(s, RequestClass(requested));
    } else {
      LiveLedger(s, l, s');
      var loc := ReachableInv(s);
      AllocFrame(s, loc, l);
    }
  }

  /**
   However other threads interleave, an allocation that begins is answered within three steps
   of its own: it has been issued a block by then, or not one more block fits the arena.
   */
  lemma AllocationIsAnswered(states: seq<State>, labels: seq<Label>, id: nat, requested: nat) returns (n: nat)
    requires Stretch(states, labels) && Reachable(states[0])
    requires OwnSteps(labels, id) >= 3 && Begins(labels[0], id, requested)
    ensures n < |labels| && OwnSteps(labels[..n + 1], id) <= 3
    ensures Answers(states[n], labels[n], states[n + 1], id, requested)
  {
    hide Reachable, Step, Answers, Serves, ActsFor, Begins;
    assert StepAt(states, labels, 0);
    FirstStep(states[0], labels[0], states[1], id, requested);
    if labels[0].AllocMiss? {
      StretchTail(states, labels);
      n := CarvingIsAnswered(states[1..], labels[1..], id, requested);
      assert labels[..n + 2][1..] == labels[1..][..n + 1];
      n := n + 1;
    } else {
      n := 0;
      assert labels[..1][1..] == [];
    }
  }
}

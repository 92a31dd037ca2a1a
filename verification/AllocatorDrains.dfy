/**
 Draining a cache while other threads run. `drain_all_to_central` releases every lock between
 its batches, so steps of other threads, the sweeper and the system come between them.
 */
module AllocatorDrains {
  import opened CacheModel
  import opened AllocatorModel
  import opened AllocatorSteps
  import opened AllocatorInvariant
  import opened AllocatorSafety
  import opened AllocatorRuns
  import opened AllocatorEffects
  import opened AllocatorFrames

  // ----- One step

  /** No step of another thread, of the sweeper or of the system touches a cache. */
  lemma OthersLeaveCacheAlone(s: State, l: Label, s': State, k: Key)
    requires Reachable(s) && Step(s, l, s') && !ActsFor(l, k.id)
    ensures SameCache(s, s', k)
  {
    hide Reachable, Bounded, PhasesOk, SameCache, Apply;
    var loc := ReachableInv(s);
    StepFrame(s, loc, l);
  }

  /** A step of the drain of class `k`: one batch of local blocks, or the whole staging list. */
  predicate DrainsClass(l: Label, k: Key) {
    (l.DrainLocal? || l.Flush?) && l.id == k.id && l.cls == k.cls
  }

  /**
   Each drain step hands exactly what leaves the cache to the center: a batch of at least one
   local block, or everything staged.
   */
  lemma DrainStepAccounts(s: State, l: Label, s': State, k: Key)
    requires Reachable(s) && Step(s, l, s') && DrainsClass(l, k)
    ensures AtRest(s', k.cls) + Total(CacheOf(s', k)) + |StagedOf(s', k)|
         == AtRest(s, k.cls) + Total(CacheOf(s, k)) + |StagedOf(s, k)|
    ensures l.DrainLocal? ==> Total(CacheOf(s', k)) < Total(CacheOf(s, k)) && StagedOf(s', k) == StagedOf(s, k)
    ensures l.Flush? ==> Total(CacheOf(s', k)) == Total(CacheOf(s, k)) && StagedOf(s', k) == []
    ensures s'.live == s.live && PhaseOf(s', k.id) == PhaseOf(s, k.id) == Idle
  {
    hide Reachable, Bounded, PhasesOk, Inv, Total, AtRest, DrainTo, FlushStaged;
    var loc := ReachableInv(s);
    if l.DrainLocal? {
      DrainSourceExists(CacheOf(s, k));
      DrainToCount(s, loc, k, l.src, Total(CacheOf(s, k)));
      DrainToFrame(s, k, l.src, Total(CacheOf(s, k)));
    } else {
      FlushCounts(s, k);
      FlushStagedFrame(s, k);
    }
  }

  lemma FlushCounts(s: State, k: Key)
    ensures AtRest(FlushStaged(s, k), k.cls) == AtRest(s, k.cls) + |StagedOf(s, k)|
  {
  }

  /** A drain step of another class of the same cache leaves this class and its center alone. */
  lemma OtherClassStays(s: State, l: Label, s': State, k: Key)
    requires Reachable(s) && Step(s, l, s') && (l.DrainLocal? || l.Flush?) && l.id == k.id && l.cls != k.cls
    ensures SameCache(s, s', k) && AtRest(s', k.cls) == AtRest(s, k.cls)
  {
    hide Reachable, Bounded, PhasesOk, Inv, DrainTo, Total;
    var own := Key(l.id, l.cls);
    var loc := ReachableInv(s);
    if l.DrainLocal? {
      DrainSourceExists(CacheOf(s, own));
      DrainToFrame(s, own, l.src, Total(CacheOf(s, own)));
      hide Apply, Enabled, DrainRest, DrainBatch;
    } else {
      hide Enabled;
    }
  }

  // ----- A stretch of a run

  /** A stretch of a run in which cache `id` only drains; all others act freely. */
  ghost predicate DrainStretch(states: seq<State>, labels: seq<Label>, id: nat) {
    && Stretch(states, labels)
    && (forall i :: 0 <= i < |labels| && ActsFor(labels[i], id) ==> labels[i].DrainLocal? || labels[i].Flush?)
  }

  /** What the drain steps of class `k` added to the center. */
  ghost function Returned(states: seq<State>, labels: seq<Label>, k: Key): int
    requires |states| == |labels| + 1
  {
    if labels == [] then 0
    else
      var n := |labels| - 1;
      Returned(states[..n + 1], labels[..n], k)
      + if DrainsClass(labels[n], k) then AtRest(states[n + 1], k.cls) - AtRest(states[n], k.cls) else 0
  }

  /** How many batches of local blocks of class `k` were drained. */
  function Batches(labels: seq<Label>, k: Key): nat {
    if labels == [] then 0
    else
      var n := |labels| - 1;
      Batches(labels[..n], k) + if DrainsClass(labels[n], k) && labels[n].DrainLocal? then 1 else 0
  }

  predicate Flushed(labels: seq<Label>, k: Key) {
    exists i :: 0 <= i < |labels| && DrainsClass(labels[i], k) && labels[i].Flush?
  }

  /** What one more step of the stretch does to a class of the draining cache. */
  lemma StretchStep(states: seq<State>, labels: seq<Label>, k: Key, n: nat)
    requires DrainStretch(states, labels, k.id) && n < |labels| && Reachable(states[n])
    ensures Reachable(states[n + 1])
    ensures if DrainsClass(labels[n], k) then DrainAccounted(states[n], labels[n], states[n + 1], k)
            else SameCache(states[n], states[n + 1], k)
  {
    hide Reachable, Step, SameCache;
    assert StepAt(states, labels, n);
    var s, l, s' := states[n], labels[n], states[n + 1];
    StepReachable(s, l, s');
    if DrainsClass(l, k) {
      DrainStepAccounts(s, l, s', k);
    } else if ActsFor(l, k.id) {
      OtherClassStays(s, l, s', k);
    } else {
      OthersLeaveCacheAlone(s, l, s', k);
    }
  }

  ghost predicate DrainAccounted(s: State, l: Label, s': State, k: Key) {
    && AtRest(s', k.cls) + Total(CacheOf(s', k)) + |StagedOf(s', k)|
       == AtRest(s, k.cls) + Total(CacheOf(s, k)) + |StagedOf(s, k)|
    && (l.DrainLocal? ==> Total(CacheOf(s', k)) < Total(CacheOf(s, k)) && StagedOf(s', k) == StagedOf(s, k))
    && (l.Flush? ==> Total(CacheOf(s', k)) == Total(CacheOf(s, k)) && StagedOf(s', k) == [])
    && PhaseOf(s', k.id) == PhaseOf(s, k.id)
  }

  /**
   However other threads interleave, a draining class takes at most `Total` batches, what it
   no longer holds it has returned to the center, block for block, and one flush empties its
   staging list for good.
   */
  lemma {:induction false} DrainStretchAccounts(states: seq<State>, labels: seq<Label>, k: Key)
    requires DrainStretch(states, labels, k.id) && Reachable(states[0])
    ensures var s, s' := states[0], states[|labels|];
            && Reachable(s') && PhaseOf(s', k.id) == PhaseOf(s, k.id)
            && Batches(labels, k) + Total(CacheOf(s', k)) <= Total(CacheOf(s, k))
            && Returned(states, labels, k) + Total(CacheOf(s', k)) + |StagedOf(s', k)|
               == Total(CacheOf(s, k)) + |StagedOf(s, k)|
            && StagedOf(s', k) == if Flushed(labels, k) then [] else StagedOf(s, k)
    decreases |labels|
  {
    hide Reachable, DrainStretch, AtRest, ActsFor, DrainsClass, Flushed, Total, CacheOf, StagedOf, PhaseOf;
    StretchLength(states, labels, k.id);
    if labels != [] {
      var n := |labels| - 1;
      var init, init' := labels[..n], states[..n + 1];
      StretchPrefix(states, labels, k.id, n);
      DrainStretchAccounts(init', init, k);
      assert init'[0] == states[0] && init'[n] == states[n];
      StretchStep(states, labels, k, n);
      FlushedNext(labels, k);
      LabelKinds(labels[n], k);
    } else {
      NotFlushed(k);
    }
  }

  lemma LabelKinds(l: Label, k: Key)
    ensures DrainsClass(l, k) ==> l.DrainLocal? || l.Flush?
  {
  }

  lemma NotFlushed(k: Key)
    ensures !Flushed([], k)
  {
  }

  lemma StretchLength(states: seq<State>, labels: seq<Label>, id: nat)
    requires DrainStretch(states, labels, id)
    ensures |states| == |labels| + 1
  {
  }

  lemma StretchPrefix(states: seq<State>, labels: seq<Label>, id: nat, n: nat)
    requires DrainStretch(states, labels, id) && n <= |labels|
    ensures DrainStretch(states[..n + 1], labels[..n], id)
  {
    hide Step;
    var states', labels' := states[..n + 1], labels[..n];
    forall i | 0 <= i < n ensures StepAt(states', labels', i) {
      assert StepAt(states, labels, i);
    }
  }

  lemma FlushedNext(labels: seq<Label>, k: Key)
    requires labels != []
    ensures var n := |labels| - 1;
            Flushed(labels, k) <==> Flushed(labels[..n], k) || (DrainsClass(labels[n], k) && labels[n].Flush?)
  {
    var n := |labels| - 1;
    if Flushed(labels[..n], k) {
      var i :| 0 <= i < n && DrainsClass(labels[..n][i], k) && labels[..n][i].Flush?;
      assert DrainsClass(labels[i], k) && labels[i].Flush?;
    }
    if Flushed(labels, k) {
      var i :| 0 <= i < |labels| && DrainsClass(labels[i], k) && labels[i].Flush?;
      assert i < n ==> labels[..n][i] == labels[i];
    }
  }

  /** While the class is not empty another drain step is possible, so the loop ends exactly when it is. */
  lemma DrainLoopEndsEmpty(s: State, k: Key)
    requires Reachable(s) && PhaseOf(s, k.id) == Idle
    ensures s.arena.alignment > 0
    ensures (exists src :: Enabled(s, DrainLocal(k.id, k.cls, src))) <==> Total(CacheOf(s, k)) > 0
  {
    var loc := ReachableInv(s);
    DrainSourceExists(CacheOf(s, k));
    if Total(CacheOf(s, k)) > 0 {
      var src :| DrainSource(CacheOf(s, k), src);
      assert Enabled(s, DrainLocal(k.id, k.cls, src));
    }
    if src :| Enabled(s, DrainLocal(k.id, k.cls, src)) {
      assert DrainSource(CacheOf(s, k), src);
    }
  }

  /**
   `drain_all_to_central` for one class, with anything in between: after a flush, and when no
   drain step is left, the class and its staging list are empty and exactly what they held has
   reached the center. It takes at most `Total` batches to get there.
   */
  lemma DrainedCacheIsEmpty(states: seq<State>, labels: seq<Label>, k: Key)
    requires DrainStretch(states, labels, k.id) && Reachable(states[0]) && PhaseOf(states[0], k.id) == Idle
    requires Flushed(labels, k) && states[|labels|].arena.alignment > 0
    requires forall src :: !Enabled(states[|labels|], DrainLocal(k.id, k.cls, src))
    ensures Total(CacheOf(states[|labels|], k)) == 0 && StagedOf(states[|labels|], k) == []
    ensures Returned(states, labels, k) == Total(CacheOf(states[0], k)) + |StagedOf(states[0], k)|
    ensures Batches(labels, k) <= Total(CacheOf(states[0], k))
  {
    hide Reachable, StepAt, Enabled;
    DrainStretchAccounts(states, labels, k);
    DrainLoopEndsEmpty(states[|labels|], k);
  }

  /** When nobody else acts, the center's own count grows by exactly what the drain returned. */
  lemma {:induction false} UndisturbedDrain(states: seq<State>, labels: seq<Label>, k: Key)
    requires DrainStretch(states, labels, k.id) && Reachable(states[0])
    requires forall i :: 0 <= i < |labels| ==> ActsFor(labels[i], k.id)
    ensures AtRest(states[|labels|], k.cls) == AtRest(states[0], k.cls) + Returned(states, labels, k)
    ensures states[|labels|].live == states[0].live
    decreases |labels|
  {
    hide Reachable, DrainStretch, AtRest, ActsFor, DrainsClass, Batches, Flushed, Total, CacheOf, StagedOf, PhaseOf;
    StretchLength(states, labels, k.id);
    if labels != [] {
      var n := |labels| - 1;
      var init, init' := labels[..n], states[..n + 1];
      StretchPrefix(states, labels, k.id, n);
      UndisturbedDrain(init', init, k);
      DrainStretchAccounts(init', init, k);
      assert init'[0] == states[0] && init'[n] == states[n];
      OwnStep(states, labels, k, n);
    }
  }

  lemma OwnStep(states: seq<State>, labels: seq<Label>, k: Key, n: nat)
    requires DrainStretch(states, labels, k.id) && n < |labels| && Reachable(states[n]) && ActsFor(labels[n], k.id)
    ensures states[n + 1].live == states[n].live
    ensures !DrainsClass(labels[n], k) ==> AtRest(states[n + 1], k.cls) == AtRest(states[n], k.cls)
  {
    hide Reachable, Step;
    assert StepAt(states, labels, n);
    DrainStepAccounts(states[n], labels[n], states[n + 1], Key(labels[n].id, labels[n].cls));
    if !DrainsClass(labels[n], k) {
      OtherClassStays(states[n], labels[n], states[n + 1], k);
    }
  }
}

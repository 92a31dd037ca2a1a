/** Small and large blocks together: the two state machines run side by side over one arena cursor. */
module SharedArena {
  import opened Basics
  import Arena
  import Small = AllocatorModel
  import SmallSteps = AllocatorSteps
  import SmallRuns = AllocatorRuns
  import SmallFrames = AllocatorFrames
  import SmallTheorems = AllocatorTheorems
  import Large = LargeBlocks

  datatype State = State(small: Small.State, large: Large.State)

  ghost predicate OneCursor(s: State) { s.small.arena == s.large.arena && s.small.next == s.large.next }

  /** A step on small blocks; the cursor it may have moved is the other machine's too. */
  ghost predicate SmallStep(s: State, l: SmallSteps.Label, s': State) {
    && !l.ReserveOther? && SmallSteps.Step(s.small, l, s'.small)
    && s'.large == s.large.(next := s'.small.next)
  }

  ghost predicate LargeStep(s: State, l: Large.Label, s': State) {
    && !l.ReserveOther? && Large.Step(s.large, l, s'.large)
    && s'.small == s.small.(next := s'.large.next)
  }

  ghost predicate Step(s: State, s': State) {
    (exists l :: SmallStep(s, l, s')) || (exists l :: LargeStep(s, l, s'))
  }

  ghost predicate Run(states: seq<State>) {
    && states != [] && OneCursor(states[0]) && SmallSteps.Init(states[0].small) && Large.Init(states[0].large)
    && (forall i :: 0 <= i < |states| - 1 ==> StepAt(states, i))
  }

  ghost predicate StepAt(states: seq<State>, i: nat)
    requires i + 1 < |states|
  {
    Step(states[i], states[i + 1])
  }

  /** No small block overlaps a large one. */
  ghost predicate Apart(s: State) {
    forall b, x :: b in s.small.carved && x in s.large.sizes ==> Disjoint(s, b, x)
  }

  ghost predicate Disjoint(s: State, b: Addr, x: Addr)
    requires b in s.small.carved && x in s.large.sizes
  {
    b + Small.Limits(s.small, s.small.carved[b]).blockSize <= x || x + s.large.sizes[x] <= b
  }

  /** Each machine sees the other only as reservations, so every result about either holds here. */
  ghost predicate Sound(s: State) {
    OneCursor(s) && SmallSteps.Reachable(s.small) && Large.Reachable(s.large) && Apart(s)
  }

  // ----- Reservations of one machine, seen by the other

  lemma LargeSeesReservation(s: Large.State, size: nat)
    requires Large.Reachable(s)
    ensures s.arena.alignment > 0 && s.arena.len <= Arena.USIZE_MAX && s.arena.base <= s.next
    ensures Arena.PlanBytes(s.arena, size, s.next - s.arena.base).Some? ==>
              var span := Arena.PlanBytes(s.arena, size, s.next - s.arena.base).value;
              Large.Reachable(s.(next := s.arena.base + span.start + span.size))
  {
    hide Large.Reachable, Arena.PlanBytes;
    var loc := Large.ReachableInv(s);
    if Arena.PlanBytes(s.arena, size, s.next - s.arena.base).Some? {
      var span := Arena.PlanBytes(s.arena, size, s.next - s.arena.base).value;
      Large.StepReachable(s, Large.ReserveOther(size), s.(next := s.arena.base + span.start + span.size));
    }
  }

  lemma SmallSeesReservation(s: Small.State, size: nat)
    requires SmallSteps.Reachable(s)
    ensures s.arena.alignment > 0 && s.arena.len <= Arena.USIZE_MAX && s.arena.base <= s.next
    ensures Arena.PlanBytes(s.arena, size, s.next - s.arena.base).Some? ==>
              var span := Arena.PlanBytes(s.arena, size, s.next - s.arena.base).value;
              SmallSteps.Reachable(s.(next := s.arena.base + span.start + span.size))
  {
    hide SmallSteps.Reachable, Arena.PlanBytes, SmallSteps.Bounded, SmallSteps.PhasesOk;
    hide Small.Placed, Small.Shaped, Small.Threaded, Small.BlocksOk, Small.PendingOk, Small.OneOwner, Small.RegisteredOk;
    var loc := SmallRuns.ReachableInv(s);
    forall c ensures Small.Limits(s, c).blockSize > 0 { assert Small.Limits(s, c).Valid(); }
    if Arena.PlanBytes(s.arena, size, s.next - s.arena.base).Some? {
      var span := Arena.PlanBytes(s.arena, size, s.next - s.arena.base).value;
      SmallRuns.StepReachable(s, SmallSteps.ReserveOther(size), s.(next := s.arena.base + span.start + span.size));
    }
  }

  // ----- Steps

  lemma SmallStepReaches(s: State, l: SmallSteps.Label, s': State)
    requires Sound(s) && SmallStep(s, l, s')
    ensures OneCursor(s') && SmallSteps.Reachable(s'.small) && Large.Reachable(s'.large)
    ensures SmallFrames.ArenaAdvances(s.small, l, s'.small)
  {
    hide SmallSteps.Reachable, Large.Reachable, Apart, SmallSteps.StepInv, Arena.PlanBytes, Arena.PlanBlocks;
    SmallRuns.StepReachable(s.small, l, s'.small);
    var loc := SmallRuns.ReachableInv(s.small);
    SmallFrames.StepFrame(s.small, loc, l);
    LargeSeesReservation(s.large, 0);
    if s'.small.next == s.small.next {
      assert s'.large == s.large;
    } else {
      var c, cur := Small.PhaseOf(s.small, l.id).cls, s.small.next - s.small.arena.base;
      var lim := Small.Limits(s.small, c);
      Arena.BlocksPlanIsBytesPlan(s.small.arena, lim.blockSize, lim.refill, cur);
      LargeSeesReservation(s.large, Arena.PlanBlocks(s.small.arena, lim.blockSize, lim.refill, cur).value.size);
    }
  }

  lemma LargeStepReaches(s: State, l: Large.Label, s': State)
    requires Sound(s) && LargeStep(s, l, s')
    ensures OneCursor(s') && SmallSteps.Reachable(s'.small) && Large.Reachable(s'.large)
  {
    hide SmallSteps.Reachable, Large.Reachable, Apart, Arena.PlanBytes;
    Large.StepReachable(s.large, l, s'.large);
    SmallSeesReservation(s.small, 0);
    if l.Reserve? {
      var requested := Large.PhaseOf(s.large, l.id).requested;
      SmallSeesReservation(s.small, Large.BlockSizeFor(s.large.arena, requested).value);
    } else {
      assert s'.small == s.small;
    }
  }

  lemma SmallStepKeepsApart(s: State, l: SmallSteps.Label, s': State)
    requires Sound(s) && SmallFrames.ArenaAdvances(s.small, l, s'.small) && s'.large.sizes == s.large.sizes
    ensures Apart(s')
  {
    hide SmallSteps.Reachable, Large.Reachable;
    LargeEndsBeforeCursor(s.large);
    forall b, x | b in s'.small.carved && x in s'.large.sizes ensures Disjoint(s', b, x) {
      if b in s.small.carved {
        assert Disjoint(s, b, x);
      }
    }
  }

  lemma LargeEndsBeforeCursor(s: Large.State)
    requires Large.Reachable(s)
    ensures forall x :: x in s.sizes ==> x + s.sizes[x] <= s.next
  {
    var loc := Large.ReachableInv(s);
  }

  lemma SmallEndsBeforeCursor(s: Small.State)
    requires SmallSteps.Reachable(s)
    ensures forall b :: b in s.carved ==> b + Small.Limits(s, s.carved[b]).blockSize <= s.next
  {
    hide Small.Placed, Small.Shaped, Small.Threaded, Small.BlocksOk, Small.PendingOk, Small.OneOwner, Small.RegisteredOk;
    hide SmallSteps.Bounded, SmallSteps.PhasesOk, SmallSteps.Reachable;
    var loc := SmallRuns.ReachableInv(s);
  }

  lemma LargeStepKeepsApart(s: State, l: Large.Label, s': State)
    requires Sound(s) && LargeStep(s, l, s')
    ensures Apart(s')
  {
    hide SmallSteps.Reachable, Large.Reachable, Large.Step;
    SmallEndsBeforeCursor(s.small);
    Large.SizesGrowBehindCursor(s.large, l, s'.large);
    forall b, x | b in s'.small.carved && x in s'.large.sizes ensures Disjoint(s', b, x) {
      assert x in s.large.sizes ==> Disjoint(s, b, x);
    }
  }

  lemma StepKeepsSound(s: State, s': State)
    requires Sound(s) && Step(s, s')
    ensures Sound(s')
  {
    hide SmallSteps.Reachable, Large.Reachable, Apart;
    if l :| SmallStep(s, l, s') {
      SmallStepReaches(s, l, s');
      SmallStepKeepsApart(s, l, s');
    } else {
      var l :| LargeStep(s, l, s');
      LargeStepReaches(s, l, s');
      LargeStepKeepsApart(s, l, s');
    }
  }

  lemma {:induction false} RunSound(states: seq<State>, n: nat)
    requires Run(states) && n < |states|
    ensures Sound(states[n])
  {
    hide Step, SmallSteps.Init, Large.Init;
    if n == 0 {
      StartSound(states[0]);
    } else {
      RunSound(states, n - 1);
      assert StepAt(states, n - 1);
      StepKeepsSound(states[n - 1], states[n]);
    }
  }

  lemma StartSound(s: State)
    requires OneCursor(s) && SmallSteps.Init(s.small) && Large.Init(s.large)
    ensures Sound(s)
  {
    var none: seq<SmallSteps.Label>, nothing: seq<Large.Label> := [], [];
    assert SmallSteps.Run([s.small], none) && [s.small][|none|] == s.small;
    assert Large.Run([s.large], nothing) && [s.large][|nothing|] == s.large;
  }

  /**
   However small and large requests interleave over the one cursor, no live small block
   overlaps a live large one, and each side behaves as its own machine allows.
   */
  lemma SmallAndLargeNeverOverlap(states: seq<State>, n: nat, b: Addr, user: Addr)
    requires Run(states) && n < |states|
    requires b in states[n].small.live && user in states[n].large.live
    ensures SmallSteps.Reachable(states[n].small) && Large.Reachable(states[n].large)
    ensures var s, r := states[n], states[n].large.live[user];
            b + Small.Limits(s.small, s.small.live[b].cls).blockSize <= r.block || r.block + r.size <= b
  {
    hide Run, SmallSteps.Reachable, Large.Reachable;
    var s := states[n];
    RunSound(states, n);
    SmallTheorems.LiveIsCarved(s.small, b);
    Large.SizesAgreeEverywhere(s.large, user, 0, 0, 0);
    assert Disjoint(s, b, s.large.live[user].block);
  }
}

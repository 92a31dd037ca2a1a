/** Every step keeps the invariant, so every reachable state has it. */
module AllocatorInvariant {
  import opened Basics
  import opened SizeClasses
  import opened CacheModel
  import opened PoolModel
  import opened AllocatorModel
  import opened AllocatorMoves
  import opened DrainActions
  import opened AllocatorSteps

  // ----- Loops inside a lock section

  /** The inbox is emptied into the pool of its class; nothing else but links changes. */
  lemma {:induction false} DrainInboxFrame(s: State, c: SizeClass)
    ensures var s' := DrainInbox(s, c);
            && s'.(inboxes := s.inboxes, pools := s.pools, link := s.link) == s
            && InboxOf(s', c) == []
            && PoolOf(s', c) == ReturnBatch(PoolOf(s, c), InboxOf(s, c))
            && (forall d :: d != c ==> InboxOf(s', d) == InboxOf(s, d) && PoolOf(s', d) == PoolOf(s, d))
    decreases |InboxOf(s, c)|
  {
    if InboxOf(s, c) != [] {
      var s1 := ReturnFromInbox(s, c);
      DrainInboxFrame(s1, c);
      assert PoolOf(s1, c) == ReturnBlock(PoolOf(s, c), InboxOf(s, c)[0]);
      assert InboxOf(s1, c) == InboxOf(s, c)[1..];
    }
  }

  lemma {:induction false} DrainInboxInv(s: State, c: SizeClass, loc: Locs) returns (loc': Locs)
    requires Inv(s, loc)
    ensures Inv(DrainInbox(s, c), loc')
    decreases |InboxOf(s, c)|
  {
    loc' := loc;
    if InboxOf(s, c) != [] {
      loc' := ReturnFromInboxInv(s, c, loc);
      loc' := DrainInboxInv(ReturnFromInbox(s, c), c, loc');
    }
  }

  /** The batch in hand goes to the pool of its class; nothing else but links changes. */
  lemma {:induction false} ReturnHandFrame(s: State)
    ensures var s' := ReturnHand(s);
            && s'.(hand := s.hand, pools := s.pools, link := s.link) == s
            && s'.hand == []
            && PoolOf(s', s.handCls) == ReturnBatch(PoolOf(s, s.handCls), s.hand)
            && (forall d :: d != s.handCls ==> PoolOf(s', d) == PoolOf(s, d))
    decreases |s.hand|
  {
    if s.hand != [] {
      var s1 := ReturnFromHand(s);
      ReturnHandFrame(s1);
      assert PoolOf(s1, s.handCls) == ReturnBlock(PoolOf(s, s.handCls), s.hand[0]);
    }
  }

  lemma {:induction false} ReturnHandInv(s: State, loc: Locs) returns (loc': Locs)
    requires Inv(s, loc)
    ensures Inv(ReturnHand(s), loc')
    decreases |s.hand|
  {
    loc' := loc;
    if s.hand != [] {
      loc' := ReturnFromHandInv(s, loc);
      loc' := ReturnHandInv(ReturnFromHand(s), loc');
    }
  }

  lemma {:induction false} DetachSlabFrame(s: State, k: Key, i: nat, max: nat)
    requires i < |CacheOf(s, k).slabs|
    ensures var s' := DetachSlab(s, k, i, max);
            var (rest, batch) := DrainSlab(CacheOf(s, k).slabs[i], max, s.hand);
            && s'.(caches := s.caches, hdr := s.hdr, handCls := s.handCls, hand := s.hand, link := s.link) == s
            && CacheOf(s', k) == CacheOf(s, k).(slabs := CacheOf(s, k).slabs[i := rest])
            && (forall q :: q != k ==> CacheOf(s', q) == CacheOf(s, q))
            && s'.hand == batch && (s'.handCls == k.cls || (batch == s.hand && s'.handCls == s.handCls))
    decreases max, 1
  {
    var slab := CacheOf(s, k).slabs[i];
    if max == 0 {
    } else if slab.free != [] {
      DetachReclaimedFrame(s, k, i);
      hide DetachReclaimed, DetachUntouched, CacheOf;
      DetachSlabStep(s, DetachReclaimed(s, k, i), k, i, slab.(free := slab.free[1..]), max - 1, slab.free[0]);
    } else if slab.untouched != [] {
      DetachUntouchedFrame(s, k, i);
      hide DetachReclaimed, DetachUntouched, CacheOf;
      DetachSlabStep(s, DetachUntouched(s, k, i), k, i, slab.(untouched := slab.untouched[1..]), max - 1, slab.untouched[0]);
    } else {
      assert CacheOf(s, k).slabs[i := slab] == CacheOf(s, k).slabs;
    }
  }

  /** `s1` is `s` after local slab `i` gave its block `b` to the batch in hand. */
  ghost predicate Detached(s: State, s1: State, k: Key, i: nat, slab: LocalSlab, b: Addr)
    requires i < |CacheOf(s, k).slabs|
  {
    && s1.(caches := s.caches, hdr := s.hdr, handCls := s.handCls, hand := s.hand, link := s.link) == s
    && CacheOf(s1, k) == CacheOf(s, k).(slabs := CacheOf(s, k).slabs[i := slab])
    && (forall q :: q != k ==> CacheOf(s1, q) == CacheOf(s, q))
    && s1.hand == [b] + s.hand && s1.handCls == k.cls
  }

  lemma DetachReclaimedFrame(s: State, k: Key, i: nat)
    requires i < |CacheOf(s, k).slabs| && CacheOf(s, k).slabs[i].free != []
    ensures var slab := CacheOf(s, k).slabs[i];
            Detached(s, DetachReclaimed(s, k, i), k, i, slab.(free := slab.free[1..]), slab.free[0])
  {
  }

  lemma DetachUntouchedFrame(s: State, k: Key, i: nat)
    requires i < |CacheOf(s, k).slabs| && CacheOf(s, k).slabs[i].untouched != []
    ensures var slab := CacheOf(s, k).slabs[i];
            Detached(s, DetachUntouched(s, k, i), k, i, slab.(untouched := slab.untouched[1..]), slab.untouched[0])
  {
  }

  lemma DetachSlabStep(s: State, s1: State, k: Key, i: nat, slab: LocalSlab, max: nat, b: Addr)
    requires i < |CacheOf(s, k).slabs| && Detached(s, s1, k, i, slab, b)
    ensures var s' := DetachSlab(s1, k, i, max);
            var (rest, batch) := DrainSlab(slab, max, [b] + s.hand);
            && s'.(caches := s.caches, hdr := s.hdr, handCls := s.handCls, hand := s.hand, link := s.link) == s
            && CacheOf(s', k) == CacheOf(s, k).(slabs := CacheOf(s, k).slabs[i := rest])
            && (forall q :: q != k ==> CacheOf(s', q) == CacheOf(s, q))
            && s'.hand == batch && s'.handCls == k.cls
    decreases max, 2
  {
    DetachSlabFrame(s1, k, i, max);
    var (rest, _) := DrainSlab(slab, max, [b] + s.hand);
    assert CacheOf(s, k).slabs[i := slab][i := rest] == CacheOf(s, k).slabs[i := rest];
  }

  lemma DetachOneInv(s: State, k: Key, i: nat, loc: Locs) returns (s1: State, loc': Locs)
    requires Inv(s, loc) && (s.hand == [] || s.handCls == k.cls) && HasBlocks(CacheOf(s, k), i)
    ensures Inv(s1, loc') && s1.handCls == k.cls
    ensures s1 == if CacheOf(s, k).slabs[i].free != [] then DetachReclaimed(s, k, i) else DetachUntouched(s, k, i)
  {
    hide Placed, Shaped, Threaded, BlocksOk, PendingOk, OneOwner, CarvedOk, RegisteredOk, LimitsOk;
    if CacheOf(s, k).slabs[i].free != [] {
      s1 := DetachReclaimed(s, k, i);
      DetachReclaimedFrame(s, k, i);
      hide DetachReclaimed;
      DetachReclaimedInv(s, k, i, loc);
      loc' := Relocate(loc, multiset{CacheOf(s, k).slabs[i].free[0]}, Hand);
    } else {
      s1 := DetachUntouched(s, k, i);
      DetachUntouchedFrame(s, k, i);
      hide DetachUntouched;
      DetachUntouchedInv(s, k, i, loc);
      loc' := Relocate(loc, multiset{CacheOf(s, k).slabs[i].untouched[0]}, Hand);
    }
  }

  lemma {:induction false} DetachSlabInv(s: State, k: Key, i: nat, max: nat, loc: Locs) returns (loc': Locs)
    requires Inv(s, loc) && (s.hand == [] || s.handCls == k.cls)
    ensures Inv(DetachSlab(s, k, i, max), loc')
    decreases max
  {
    loc' := loc;
    if max > 0 && HasBlocks(CacheOf(s, k), i) {
      var s1;
      s1, loc' := DetachOneInv(s, k, i, loc);
      loc' := DetachSlabInv(s1, k, i, max - 1, loc');
    }
  }

  // ----- Detaching refines `pop_batch`

  /** The batch in hand and the cache left behind are what `DrainBatch` and `DrainRest` say. */
  lemma DetachIsDrain(s: State, k: Key, src: Source, max: nat)
    requires s.hand == [] && max > 0 && Nonempty(CacheOf(s, k), src)
    ensures var s' := Detach(s, k, src, max);
            && s'.(caches := s.caches, hdr := s.hdr, handCls := s.handCls, hand := s.hand, link := s.link) == s
            && CacheOf(s', k) == DrainRest(CacheOf(s, k), src, max)
            && (forall q :: q != k ==> CacheOf(s', q) == CacheOf(s, q))
            && s'.hand == DrainBatch(CacheOf(s, k), src, max)
            && s'.handCls == k.cls
  {
    DrainTotal(CacheOf(s, k), src, max);
    if src.FromSlab? {
      DetachSlabFrame(s, k, src.slab, max);
    }
  }

  lemma DetachInv(s: State, k: Key, src: Source, max: nat, loc: Locs) returns (loc': Locs)
    requires Inv(s, loc) && s.hand == [] && max > 0 && Nonempty(CacheOf(s, k), src)
    ensures Inv(Detach(s, k, src, max), loc')
  {
    match src
    case FromShared =>
      DetachSharedInv(s, k, max, loc);
      loc' := Relocate(loc, multiset(DetachShared(s, k, max).hand), Hand);
    case FromSlab(i) =>
      loc' := DetachSlabInv(s, k, i, max, loc);
    case FromHot =>
      DetachHotInv(s, k, loc);
      loc' := Relocate(loc, multiset{CacheOf(s, k).hot.value}, Hand);
  }

  lemma DrainToInv(s: State, k: Key, src: Source, max: nat, loc: Locs) returns (loc': Locs)
    requires Inv(s, loc) && s.hand == [] && max > 0 && Nonempty(CacheOf(s, k), src)
    ensures Inv(DrainTo(s, k, src, max), loc')
  {
    loc' := DetachInv(s, k, src, max, loc);
    loc' := DrainInboxInv(Detach(s, k, src, max), k.cls, loc');
    loc' := ReturnHandInv(DrainInbox(Detach(s, k, src, max), k.cls), loc');
  }

  /** A drain changes one class of one cache, as `DrainRest` says, besides pools, inboxes, headers and links. */
  lemma DrainToCaches(s: State, k: Key, src: Source, max: nat)
    requires s.hand == [] && max > 0 && Nonempty(CacheOf(s, k), src)
    ensures var s' := DrainTo(s, k, src, max);
            && s'.(caches := s.caches, hdr := s.hdr, handCls := s.handCls, link := s.link,
                   pools := s.pools, inboxes := s.inboxes) == s
            && CacheOf(s', k) == DrainRest(CacheOf(s, k), src, max)
            && (forall q :: q != k ==> CacheOf(s', q) == CacheOf(s, q))
  {
    hide Detach, DrainInbox, ReturnHand, DrainRest, DrainBatch, ReturnBatch, PoolOf, InboxOf;
    var s1 := Detach(s, k, src, max);
    DetachIsDrain(s, k, src, max);
    DrainInboxFrame(s1, k.cls);
    ReturnHandFrame(DrainInbox(s1, k.cls));
  }

  /** Inbox and batch reach the pool of their class in order; every other pool and inbox is as it was. */
  lemma DrainToPools(s: State, k: Key, src: Source, max: nat)
    requires s.hand == [] && max > 0 && Nonempty(CacheOf(s, k), src)
    ensures var s' := DrainTo(s, k, src, max);
            && InboxOf(s', k.cls) == []
            && PoolOf(s', k.cls) ==
               ReturnBatch(ReturnBatch(PoolOf(s, k.cls), InboxOf(s, k.cls)), DrainBatch(CacheOf(s, k), src, max))
            && (forall d :: d != k.cls ==> PoolOf(s', d) == PoolOf(s, d) && InboxOf(s', d) == InboxOf(s, d))
  {
    hide Detach, DrainInbox, ReturnHand, DrainRest, DrainBatch, ReturnBatch, CacheOf, PoolOf, InboxOf;
    var s1 := Detach(s, k, src, max);
    var s2 := DrainInbox(s1, k.cls);
    DetachIsDrain(s, k, src, max);
    DrainInboxFrame(s1, k.cls);
    ReturnHandFrame(s2);
    forall d ensures PoolOf(s1, d) == PoolOf(s, d) && InboxOf(s1, d) == InboxOf(s, d) { SameCenter(s, s1, d); }
    forall d ensures InboxOf(ReturnHand(s2), d) == InboxOf(s2, d) { SameInbox(s2, ReturnHand(s2), d); }
  }

  lemma SameCenter(s: State, s': State, c: SizeClass)
    requires s'.pools == s.pools && s'.inboxes == s.inboxes
    ensures PoolOf(s', c) == PoolOf(s, c) && InboxOf(s', c) == InboxOf(s, c)
  {
  }

  lemma SameInbox(s: State, s': State, c: SizeClass)
    requires s'.inboxes == s.inboxes
    ensures InboxOf(s', c) == InboxOf(s, c)
  {
  }

  /** A drain changes one class of one cache and its pool and inbox; every detached block reaches the pool. */
  lemma DrainToFrame(s: State, k: Key, src: Source, max: nat)
    requires s.hand == [] && max > 0 && Nonempty(CacheOf(s, k), src)
    ensures var s', c := DrainTo(s, k, src, max), CacheOf(s, k);
            && s'.(caches := s.caches, hdr := s.hdr, handCls := s.handCls, link := s.link,
                   pools := s.pools, inboxes := s.inboxes) == s
            && CacheOf(s', k) == DrainRest(c, src, max)
            && (forall q :: q != k ==> CacheOf(s', q) == CacheOf(s, q))
            && InboxOf(s', k.cls) == []
            && PoolOf(s', k.cls) ==
               ReturnBatch(ReturnBatch(PoolOf(s, k.cls), InboxOf(s, k.cls)), DrainBatch(c, src, max))
            && (forall d :: d != k.cls ==> PoolOf(s', d) == PoolOf(s, d) && InboxOf(s', d) == InboxOf(s, d))
  {
    hide DrainTo, CacheOf, PoolOf, InboxOf, DrainRest, DrainBatch, ReturnBatch;
    DrainToCaches(s, k, src, max);
    DrainToPools(s, k, src, max);
  }
}

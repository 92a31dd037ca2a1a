/** The actions that carry blocks from a cache or an inbox back to the central pool. */
module DrainActions {
  import opened Basics
  import opened Chains
  import opened SizeClasses
  import opened Headers
  import opened PoolModel
  import opened AllocatorModel
  import opened AllocatorMoves

  lemma PoppedOnce(l: seq<Addr>)
    requires l != [] && forall b :: multiset(l)[b] <= 1
    ensures l[0] !in l[1..]
  {
    MultisetPop(l);
    assert multiset(l)[l[0]] <= 1;
  }

  /** No place but the program's holds a block twice. */
  lemma ContentsOnce(s: State, loc: Locs, p: Place)
    requires Placed(s, loc) && !p.Live?
    ensures NoDup(Contents(s, p)) && forall b :: multiset(Contents(s, p))[b] <= 1
  {
    PlacedAt(s, loc, p);
    assert At(s, p) == multiset(Contents(s, p));
    OnceIsNoDup(Contents(s, p));
  }

  lemma OnceAfterPush(b: Addr, l: seq<Addr>)
    requires b !in l && forall x :: multiset(l)[x] <= 1
    ensures forall x :: multiset([b] + l)[x] <= 1
  {
    assert multiset([b] + l) == multiset{b} + multiset(l);
  }

  // ----- Detaching a batch from a cache

  lemma ListHandsOver(s: State, p: Place)
    ensures p.Hot? || p.Reclaimed? || p.Shared? ==> HandsOver(s, p, p.key.cls)
    ensures p.Hand? ==> HandsOver(s, p, s.handCls)
  {
  }

  lemma DetachSharedIs(s: State, k: Key, max: nat)
    requires max > 0 && CacheOf(s, k).shared != []
    ensures var c := CacheOf(s, k);
            var n := Min(max, |c.shared|);
            && 0 < n <= |c.shared|
            && DetachShared(s, k, max) ==
               s.(caches := s.caches[k := c.(shared := c.shared[n..])], handCls := k.cls,
                  hand := c.shared[..n], link := s.link[c.shared[n - 1] := 0])
  {
  }

  lemma DetachSharedElsewhere(s: State, k: Key, max: nat, p: Place)
    requires s.hand == [] && max > 0 && CacheOf(s, k).shared != []
    requires p != Shared(k) && p != Hand
    ensures SameAt(s, DetachShared(s, k, max), p)
  {
    DetachSharedIs(s, k, max);
    hide DetachShared, Min;
  }

  lemma SharedSplits(s: State, s': State, k: Key, n: nat)
    requires n <= |CacheOf(s, k).shared| && s.hand == [] && s'.hand == CacheOf(s, k).shared[..n]
    requires CacheOf(s', k).shared == CacheOf(s, k).shared[n..]
    ensures At(s, Shared(k)) == At(s', Shared(k)) + multiset(s'.hand)
    ensures At(s', Hand) == At(s, Hand) + multiset(s'.hand)
  {
    MultisetSplit(CacheOf(s, k).shared, n);
  }

  lemma DetachSharedMoves(s: State, k: Key, max: nat)
    requires s.hand == [] && max > 0 && CacheOf(s, k).shared != []
    ensures Moves(s, DetachShared(s, k, max), Shared(k), Hand, multiset(DetachShared(s, k, max).hand))
  {
    hide Linked, IsList, SameAt, DetachShared;
    DetachSharedIs(s, k, max);
    var s', n := DetachShared(s, k, max), Min(max, |CacheOf(s, k).shared|);
    forall p | p != Shared(k) && p != Hand ensures SameAt(s, s', p) { DetachSharedElsewhere(s, k, max, p); }
    SharedSplits(s, s', k, n);
    assert s'.hand[n - 1] in s'.hand;
    hide CacheOf, Contents, Min;
  }

  lemma DetachSharedLinks(s: State, k: Key, max: nat, loc: Locs)
    requires Placed(s, loc) && Threaded(s)
    requires s.hand == [] && max > 0 && CacheOf(s, k).shared != []
    ensures Linked(DetachShared(s, k, max).link, Contents(DetachShared(s, k, max), Shared(k)))
    ensures Linked(DetachShared(s, k, max).link, DetachShared(s, k, max).hand)
  {
    ContentsOnce(s, loc, Shared(k));
    assert IsList(s, Shared(k));
    CutLinked(s.link, CacheOf(s, k).shared, Min(max, |CacheOf(s, k).shared|));
  }

  lemma DetachSharedEnds(s: State, k: Key, max: nat, loc: Locs)
    requires Placed(s, loc) && BlocksOk(s, loc) && Threaded(s)
    requires s.hand == [] && max > 0 && CacheOf(s, k).shared != []
    ensures EndsOk(s, DetachShared(s, k, max), loc, Shared(k), Hand, multiset(DetachShared(s, k, max).hand))
  {
    var s', l := DetachShared(s, k, max), CacheOf(s, k).shared;
    DetachSharedLinks(s, k, max, loc);
    DetachSharedIs(s, k, max);
    hide DetachShared, Min, Linked, BlockOk, HandsOver;
    PlacedAt(s, loc, Shared(k));
    PlacedAt(s, loc, Hand);
    assert Contents(s', Hand) == s'.hand;
    forall x | x in s'.hand ensures x in At(s, Shared(k)) { assert x in l; }
    assert At(s, Hand) == multiset{};
    hide At, Contents, Placed, Threaded, CacheOf;
    StayAt(s, s', loc, Shared(k));
    assert HandsOver(s, Shared(k), k.cls) by { ListHandsOver(s, Shared(k)); }
    IntoHand(s, s', loc, Shared(k), k.cls, multiset(s'.hand));
  }

  lemma DetachSharedInv(s: State, k: Key, max: nat, loc: Locs)
    requires Inv(s, loc) && s.hand == [] && max > 0 && CacheOf(s, k).shared != []
    ensures Inv(DetachShared(s, k, max), Relocate(loc, multiset(DetachShared(s, k, max).hand), Hand))
  {
    hide Placed, Shaped, Threaded, BlocksOk, PendingOk, OneOwner, CarvedOk, RegisteredOk, LimitsOk, Moves, EndsOk;
    var s' := DetachShared(s, k, max);
    DetachSharedMoves(s, k, max);
    DetachSharedEnds(s, k, max, loc);
    DetachSharedIs(s, k, max);
    hide DetachShared, Min;
    ShapePersists(s, s', loc);
    MoveKeepsInv(s, s', loc, Shared(k), Hand, multiset(s'.hand));
  }

  lemma DetachHotElsewhere(s: State, k: Key, p: Place)
    requires s.hand == [] && CacheOf(s, k).hot.Some?
    requires p != Hot(k) && p != Hand
    ensures SameAt(s, DetachHot(s, k), p)
  {
    DetachHotIs(s, k);
    hide DetachHot;
  }

  lemma DetachHotIs(s: State, k: Key)
    requires CacheOf(s, k).hot.Some?
    ensures var c := CacheOf(s, k);
            DetachHot(s, k) ==
            s.(caches := s.caches[k := c.(hot := None)], handCls := k.cls,
               hand := [c.hot.value], link := s.link[c.hot.value := 0])
  {
  }

  lemma DetachHotMoves(s: State, k: Key)
    requires s.hand == [] && CacheOf(s, k).hot.Some?
    ensures Moves(s, DetachHot(s, k), Hot(k), Hand, multiset{CacheOf(s, k).hot.value})
  {
    hide SameAt;
    var s', b := DetachHot(s, k), CacheOf(s, k).hot.value;
    forall p | p != Hot(k) && p != Hand ensures SameAt(s, s', p) { DetachHotElsewhere(s, k, p); }
    assert At(s, Hot(k)) == At(s', Hot(k)) + multiset{b};
    assert At(s', Hand) == At(s, Hand) + multiset{b};
  }

  lemma DetachHotEnds(s: State, k: Key, loc: Locs)
    requires Placed(s, loc) && BlocksOk(s, loc) && s.hand == [] && CacheOf(s, k).hot.Some?
    ensures EndsOk(s, DetachHot(s, k), loc, Hot(k), Hand, multiset{CacheOf(s, k).hot.value})
  {
    var s', b := DetachHot(s, k), CacheOf(s, k).hot.value;
    PlacedAt(s, loc, Hot(k));
    PlacedAt(s, loc, Hand);
    PushLinked(s.link, b, []);
    assert [b] + [] == [b];
    forall x | x in loc && loc[x].place == Hot(k) ensures x == b {
      assert x in At(s, Hot(k));
    }
    assert b in At(s, Hot(k)) && At(s, Hand) == multiset{};
    ListHandsOver(s, Hot(k));
    IntoHand(s, s', loc, Hot(k), k.cls, multiset{b});
  }

  lemma DetachHotInv(s: State, k: Key, loc: Locs)
    requires Inv(s, loc) && s.hand == [] && CacheOf(s, k).hot.Some?
    ensures Inv(DetachHot(s, k), Relocate(loc, multiset{CacheOf(s, k).hot.value}, Hand))
  {
    hide Placed, Shaped, Threaded, BlocksOk, PendingOk, OneOwner, CarvedOk, RegisteredOk, LimitsOk, Moves, EndsOk;
    DetachHotMoves(s, k);
    DetachHotEnds(s, k, loc);
    ShapePersists(s, DetachHot(s, k), loc);
    MoveKeepsInv(s, DetachHot(s, k), loc, Hot(k), Hand, multiset{CacheOf(s, k).hot.value});
  }

  lemma DetachReclaimedElsewhere(s: State, k: Key, i: nat, p: Place)
    requires i < |CacheOf(s, k).slabs| && CacheOf(s, k).slabs[i].free != []
    requires p != Reclaimed(k, i) && p != Hand
    ensures SameAt(s, DetachReclaimed(s, k, i), p)
  {
  }

  lemma DetachReclaimedMoves(s: State, k: Key, i: nat)
    requires i < |CacheOf(s, k).slabs| && CacheOf(s, k).slabs[i].free != []
    ensures Moves(s, DetachReclaimed(s, k, i), Reclaimed(k, i), Hand, multiset{CacheOf(s, k).slabs[i].free[0]})
  {
    hide SameAt;
    var s', l := DetachReclaimed(s, k, i), CacheOf(s, k).slabs[i].free;
    MultisetPop(l);
    forall p | p != Reclaimed(k, i) && p != Hand ensures SameAt(s, s', p) { DetachReclaimedElsewhere(s, k, i, p); }
    assert At(s, Reclaimed(k, i)) == At(s', Reclaimed(k, i)) + multiset{l[0]};
    assert At(s', Hand) == At(s, Hand) + multiset{l[0]};
  }

  lemma DetachReclaimedLinks(s: State, k: Key, i: nat, loc: Locs)
    requires Placed(s, loc) && Threaded(s)
    requires i < |CacheOf(s, k).slabs| && CacheOf(s, k).slabs[i].free != []
    ensures var s' := DetachReclaimed(s, k, i);
            Linked(s'.link, s'.hand) && Linked(s'.link, CacheOf(s, k).slabs[i].free[1..])
  {
    var from, l := Reclaimed(k, i), CacheOf(s, k).slabs[i].free;
    var b := l[0];
    PlacedAt(s, loc, from);
    PlacedAt(s, loc, Hand);
    assert IsList(s, from) && IsList(s, Hand);
    assert b in At(s, from);
    assert b !in At(s, Hand);
    PushLinked(s.link, b, s.hand);
    PopLinked(s.link, l);
    ContentsOnce(s, loc, from);
    PoppedOnce(l);
    LinkedFrame(s.link, s.link[b := Head(s.hand)], l[1..]);
  }

  lemma DetachReclaimedEnds(s: State, k: Key, i: nat, loc: Locs)
    requires Placed(s, loc) && BlocksOk(s, loc) && Threaded(s)
    requires i < |CacheOf(s, k).slabs| && CacheOf(s, k).slabs[i].free != []
    requires s.hand == [] || s.handCls == k.cls
    ensures EndsOk(s, DetachReclaimed(s, k, i), loc, Reclaimed(k, i), Hand, multiset{CacheOf(s, k).slabs[i].free[0]})
  {
    hide Placed, Threaded, Linked, BlockOk, HandsOver;
    var s', from := DetachReclaimed(s, k, i), Reclaimed(k, i);
    var l := CacheOf(s, k).slabs[i].free;
    var b := l[0];
    DetachReclaimedLinks(s, k, i, loc);
    PlacedAt(s, loc, from);
    PlacedAt(s, loc, Hand);
    assert b in At(s, from);
    assert Contents(s', from) == l[1..] && Contents(s', Hand) == s'.hand;
    assert s'.hdr == s.hdr && s'.handCls == k.cls && CacheOf(s', k).slabs[i].blocks == CacheOf(s, k).slabs[i].blocks;
    assert |CacheOf(s', k).slabs| == |CacheOf(s, k).slabs|;
    assert s.hand == [] ==> At(s, Hand) == multiset{};
    hide DetachReclaimed, At, Contents, Placed, Threaded, CacheOf;
    StayAt(s, s', loc, from);
    ListHandsOver(s, from);
    IntoHand(s, s', loc, from, k.cls, multiset{b});
  }

  lemma DetachReclaimedShape(s: State, k: Key, i: nat, loc: Locs)
    requires Shaped(s, loc) && i < |CacheOf(s, k).slabs| && CacheOf(s, k).slabs[i].free != []
    ensures Shaped(DetachReclaimed(s, k, i), loc)
  {
    ShapePersists(s, DetachReclaimed(s, k, i), loc);
  }

  lemma DetachReclaimedInv(s: State, k: Key, i: nat, loc: Locs)
    requires Inv(s, loc) && i < |CacheOf(s, k).slabs| && CacheOf(s, k).slabs[i].free != []
    requires s.hand == [] || s.handCls == k.cls
    ensures Inv(DetachReclaimed(s, k, i), Relocate(loc, multiset{CacheOf(s, k).slabs[i].free[0]}, Hand))
  {
    hide Placed, Shaped, Threaded, BlocksOk, PendingOk, OneOwner, CarvedOk, RegisteredOk, LimitsOk, Moves, EndsOk;
    DetachReclaimedMoves(s, k, i);
    DetachReclaimedEnds(s, k, i, loc);
    DetachReclaimedShape(s, k, i, loc);
    MoveKeepsInv(s, DetachReclaimed(s, k, i), loc, Reclaimed(k, i), Hand, multiset{CacheOf(s, k).slabs[i].free[0]});
  }

  lemma DetachUntouchedElsewhere(s: State, k: Key, i: nat, p: Place)
    requires i < |CacheOf(s, k).slabs| && CacheOf(s, k).slabs[i].untouched != []
    requires p != Untouched(k, i) && p != Hand
    ensures SameAt(s, DetachUntouched(s, k, i), p)
  {
  }

  /** What a detached untouched block leaves as it was. */
  lemma DetachUntouchedIs(s: State, k: Key, i: nat)
    requires i < |CacheOf(s, k).slabs| && CacheOf(s, k).slabs[i].untouched != []
    ensures var s', b := DetachUntouched(s, k, i), CacheOf(s, k).slabs[i].untouched[0];
            && s'.handCls == k.cls && (forall x :: Hdr(s', x) == if x == b then InitializeSmall(k.cls) else Hdr(s, x))
            && |CacheOf(s', k).slabs| == |CacheOf(s, k).slabs| && CacheOf(s', k).slabs[i].blocks == CacheOf(s, k).slabs[i].blocks
  {
  }

  lemma DetachUntouchedContents(s: State, k: Key, i: nat)
    requires i < |CacheOf(s, k).slabs| && CacheOf(s, k).slabs[i].untouched != []
    ensures var s', b := DetachUntouched(s, k, i), CacheOf(s, k).slabs[i].untouched[0];
            && At(s, Untouched(k, i)) == At(s', Untouched(k, i)) + multiset{b} && At(s', Hand) == At(s, Hand) + multiset{b}
            && (forall x :: x != b ==> Next(s'.link, x) == Next(s.link, x))
  {
    var s', l := DetachUntouched(s, k, i), CacheOf(s, k).slabs[i].untouched;
    MultisetPop(l);
    assert Contents(s', Untouched(k, i)) == l[1..] && Contents(s', Hand) == [l[0]] + s.hand;
  }

  lemma DetachUntouchedMoves(s: State, k: Key, i: nat)
    requires i < |CacheOf(s, k).slabs| && CacheOf(s, k).slabs[i].untouched != []
    ensures Moves(s, DetachUntouched(s, k, i), Untouched(k, i), Hand, multiset{CacheOf(s, k).slabs[i].untouched[0]})
  {
    hide SameAt;
    var s', b := DetachUntouched(s, k, i), CacheOf(s, k).slabs[i].untouched[0];
    forall p | p != Untouched(k, i) && p != Hand ensures SameAt(s, s', p) { DetachUntouchedElsewhere(s, k, i, p); }
    DetachUntouchedContents(s, k, i);
    DetachUntouchedIs(s, k, i);
    assert s'.(caches := s.caches, hdr := s.hdr, handCls := s.handCls, hand := s.hand, link := s.link) == s;
    assert s'.hdr == s.hdr[b := InitializeSmall(k.cls)];
    hide DetachUntouched, Contents, CacheOf, Hdr;
  }

  lemma FreshInHand(s: State, b: Addr, l: Loc)
    requires Hdr(s, b) == InitializeSmall(l.cls) && s.handCls == l.cls
    ensures BlockOk(s, b, l.(place := Hand))
  {
  }

  lemma ClassAt(s: State, b: Addr, l: Loc)
    requires BlockOk(s, b, l) && l.place.Untouched?
    ensures l.place.key.cls == l.cls
  {
  }

  lemma DetachUntouchedLinks(s: State, k: Key, i: nat, loc: Locs)
    requires Placed(s, loc) && Threaded(s)
    requires i < |CacheOf(s, k).slabs| && CacheOf(s, k).slabs[i].untouched != []
    ensures var s', b := DetachUntouched(s, k, i), CacheOf(s, k).slabs[i].untouched[0];
            Linked(s'.link, s'.hand) && b in loc && loc[b].place == Untouched(k, i)
  {
    hide Placed;
    var b := CacheOf(s, k).slabs[i].untouched[0];
    PlacedAt(s, loc, Untouched(k, i));
    PlacedAt(s, loc, Hand);
    assert IsList(s, Hand);
    assert b in At(s, Untouched(k, i));
    assert b !in At(s, Hand);
    PushLinked(s.link, b, s.hand);
  }

  lemma DetachUntouchedEnds(s: State, k: Key, i: nat, loc: Locs)
    requires Placed(s, loc) && BlocksOk(s, loc) && Threaded(s)
    requires i < |CacheOf(s, k).slabs| && CacheOf(s, k).slabs[i].untouched != []
    requires s.hand == [] || s.handCls == k.cls
    ensures EndsOk(s, DetachUntouched(s, k, i), loc, Untouched(k, i), Hand,
                   multiset{CacheOf(s, k).slabs[i].untouched[0]})
  {
    hide Placed, Threaded, Linked, BlockOk, Hdr, HandsOver, DetachUntouched;
    var s', from, b := DetachUntouched(s, k, i), Untouched(k, i), CacheOf(s, k).slabs[i].untouched[0];
    DetachUntouchedLinks(s, k, i, loc);
    DetachUntouchedIs(s, k, i);
    PlacedAt(s, loc, Hand);
    ListHandsOver(s, Hand);
    assert s.hand == [] ==> At(s, Hand) == multiset{};
    hide At, CacheOf;
    forall x | x in loc && loc[x].place == from && x != b ensures BlockOk(s', x, loc[x]) {
      StaysOk(s, s', x, loc[x]);
    }
    forall x | x in loc && (x == b || loc[x].place == Hand) ensures BlockOk(s', x, loc[x].(place := Hand)) {
      if x != b {
        JoinsHand(s, s', x, loc[x], k.cls);
      } else {
        ClassAt(s, b, loc[b]);
        FreshInHand(s', b, loc[b]);
      }
    }
  }

  lemma DetachUntouchedShape(s: State, k: Key, i: nat, loc: Locs)
    requires Shaped(s, loc) && i < |CacheOf(s, k).slabs| && CacheOf(s, k).slabs[i].untouched != []
    ensures Shaped(DetachUntouched(s, k, i), loc)
  {
    ShapePersists(s, DetachUntouched(s, k, i), loc);
  }

  lemma DetachUntouchedInv(s: State, k: Key, i: nat, loc: Locs)
    requires Inv(s, loc) && i < |CacheOf(s, k).slabs| && CacheOf(s, k).slabs[i].untouched != []
    requires s.hand == [] || s.handCls == k.cls
    ensures Inv(DetachUntouched(s, k, i), Relocate(loc, multiset{CacheOf(s, k).slabs[i].untouched[0]}, Hand))
  {
    hide Placed, Shaped, Threaded, BlocksOk, PendingOk, OneOwner, CarvedOk, RegisteredOk, LimitsOk, Moves, EndsOk;
    DetachUntouchedMoves(s, k, i);
    DetachUntouchedEnds(s, k, i, loc);
    DetachUntouchedShape(s, k, i, loc);
    MoveKeepsInv(s, DetachUntouched(s, k, i), loc, Untouched(k, i), Hand,
                 multiset{CacheOf(s, k).slabs[i].untouched[0]});
  }

  // ----- Returning blocks to central slabs

  lemma FreeInBlocks(s: State, loc: Locs, c: SizeClass, i: nat)
    requires Placed(s, loc) && Shaped(s, loc) && BlocksOk(s, loc)
    requires i < |PoolOf(s, c)| && !PoolOf(s, c)[i].Full()
    ensures forall x :: x in PoolOf(s, c)[i].free ==> x in PoolOf(s, c)[i].blocks
  {
    PlacedAt(s, loc, Central(c, i));
    forall x | x in PoolOf(s, c)[i].free ensures x in PoolOf(s, c)[i].blocks {
      assert x in At(s, Central(c, i));
      assert BlockOk(s, x, loc[x]);
    }
  }

  /** A lookup finds the slab that the block's location names. */
  lemma ReturnHome(s: State, loc: Locs, b: Addr)
    requires Shaped(s, loc) && b in loc
    ensures var pool, i := PoolOf(s, loc[b].cls), loc[b].slab;
            i < |pool| && PoolHome(pool, b) == i && b in pool[i].blocks && PoolSlabOk(s, loc, loc[b].cls, i)
  {
    hide IsSpan;
    var c := loc[b].cls;
    var i := PoolHome(PoolOf(s, c), b);
    assert b in PoolOf(s, c)[loc[b].slab].blocks;
    assert PoolSlabOk(s, loc, c, i);
  }

  /** A slab that misses a block is not full and does not list it. */
  lemma NotCentral(s: State, loc: Locs, b: Addr)
    requires Placed(s, loc) && b in loc && !loc[b].place.Central? && loc[b].slab < |PoolOf(s, loc[b].cls)|
    requires b in PoolOf(s, loc[b].cls)[loc[b].slab].blocks
    ensures var slab := PoolOf(s, loc[b].cls)[loc[b].slab]; !slab.Full() && b !in slab.free
  {
    hide Placed;
    var p := Central(loc[b].cls, loc[b].slab);
    PlacedAt(s, loc, p);
    assert b !in At(s, p);
    assert b !in Contents(s, p);
  }

  /** A block that is not at rest in the pool returns to its own registered slab, which is not full. */
  lemma ReturnTarget(s: State, loc: Locs, b: Addr)
    requires Placed(s, loc) && Shaped(s, loc) && BlocksOk(s, loc)
    requires b in loc && !loc[b].place.Central?
    ensures var pool := PoolOf(s, loc[b].cls);
            var i := loc[b].slab;
            && i < |pool| && PoolHome(pool, b) == i && !pool[i].Full() && b !in pool[i].free
            && |pool[i].free| < |pool[i].blocks|
            && (|pool[i].free| + 1 == |pool[i].blocks| ==> multiset([b] + pool[i].free) == multiset(pool[i].blocks))
  {
    hide Placed, Shaped, BlocksOk, PoolHome, IsSpan;
    var c, i := loc[b].cls, loc[b].slab;
    ReturnHome(s, loc, b);
    NotCentral(s, loc, b);
    var slab := PoolOf(s, c)[i];
    FreeInBlocks(s, loc, c, i);
    ContentsOnce(s, loc, Central(c, i));
    assert Contents(s, Central(c, i)) == slab.free && slab.Consistent();
    hide PoolOf, Contents, PoolSlabOk;
    assert forall x :: x in [b] + slab.free ==> x in slab.blocks;
    OnceAfterPush(b, slab.free);
    if |slab.free| + 1 == |slab.blocks| {
      FullSubsequence([b] + slab.free, slab.blocks);
    }
  }

  /** The slab a block returns to gains exactly that block; every other slab of the pool is as it was. */
  lemma ReturnAdds(s: State, s': State, c: SizeClass, i: nat, b: Addr)
    requires i < |PoolOf(s, c)| && PoolHome(PoolOf(s, c), b) == i && !PoolOf(s, c)[i].Full()
    requires |PoolOf(s, c)[i].free| + 1 == |PoolOf(s, c)[i].blocks| ==>
               multiset([b] + PoolOf(s, c)[i].free) == multiset(PoolOf(s, c)[i].blocks)
    requires PoolOf(s', c) == ReturnBlock(PoolOf(s, c), b)
    ensures At(s', Central(c, i)) == At(s, Central(c, i)) + multiset{b}
    ensures forall j :: j != i ==> SameAt(s, s', Central(c, j))
  {
    var slab, slab' := PoolOf(s, c)[i], PoolOf(s', c)[i];
    assert slab' == ReturnToSlab(slab, b);
    assert multiset(slab'.Central()) == multiset([b] + slab.free);
  }

  lemma HandTarget(s: State, loc: Locs)
    requires Placed(s, loc) && BlocksOk(s, loc) && s.hand != []
    ensures s.hand[0] in loc && loc[s.hand[0]].place == Hand && loc[s.hand[0]].cls == s.handCls
  {
    PlacedAt(s, loc, Hand);
    assert s.hand[0] in At(s, Hand);
    assert BlockOk(s, s.hand[0], loc[s.hand[0]]);
  }

  lemma ReturnFromHandMoves(s: State, loc: Locs)
    requires Placed(s, loc) && Shaped(s, loc) && BlocksOk(s, loc) && s.hand != []
    requires s.hand[0] in loc && loc[s.hand[0]].place == Hand && loc[s.hand[0]].cls == s.handCls
    ensures Moves(s, ReturnFromHand(s), Hand, Central(s.handCls, loc[s.hand[0]].slab), multiset{s.hand[0]})
  {
    hide SameAt, Placed, Shaped, BlocksOk;
    var s', b, i := ReturnFromHand(s), s.hand[0], loc[s.hand[0]].slab;
    ReturnTarget(s, loc, b);
    ReturnAdds(s, s', s.handCls, i, b);
    assert At(s, Hand) == At(s', Hand) + multiset{b} by { MultisetPop(s.hand); }
    forall p | p != Hand && p != Central(s.handCls, i) ensures SameAt(s, s', p) {
      if p.Central? && p.cls == s.handCls {
        assert p == Central(s.handCls, p.slab);
      } else {
        ReturnFromHandElsewhere(s, p);
      }
    }
  }

  lemma ReturnFromHandElsewhere(s: State, p: Place)
    requires s.hand != [] && p != Hand && !(p.Central? && p.cls == s.handCls)
    ensures SameAt(s, ReturnFromHand(s), p)
  {
  }

  /** What a central slab needs after the block `b` was returned to it. */
  lemma ReturnEnd(s: State, s': State, loc: Locs, b: Addr)
    requires Placed(s, loc) && Shaped(s, loc) && BlocksOk(s, loc) && Threaded(s)
    requires b in loc && !loc[b].place.Central? && Initialized(Hdr(s, b), loc[b].cls) && Rejected(Hdr(s, b))
    requires PoolOf(s', loc[b].cls) == ReturnBlock(PoolOf(s, loc[b].cls), b)
    requires s'.hdr == s.hdr && s'.link == s.link[b := ReturnLink(PoolOf(s, loc[b].cls), b)]
    ensures var p := Central(loc[b].cls, loc[b].slab);
            && (IsList(s', p) ==> Linked(s'.link, Contents(s', p)))
            && (forall x :: x in loc && (x in multiset{b} || loc[x].place == p) ==> BlockOk(s', x, loc[x].(place := p)))
  {
    ReturnTarget(s, loc, b);
    var p := Central(loc[b].cls, loc[b].slab);
    var slab := PoolOf(s, loc[b].cls)[loc[b].slab];
    assert IsList(s, p);
    PushLinked(s.link, b, slab.free);
    forall x | x in loc && (x == b || loc[x].place == p) ensures BlockOk(s', x, loc[x].(place := p)) {
      assert BlockOk(s, x, loc[x]);
    }
  }

  lemma ReturnFromHandEnds(s: State, loc: Locs)
    requires Placed(s, loc) && Shaped(s, loc) && BlocksOk(s, loc) && Threaded(s) && s.hand != []
    requires s.hand[0] in loc && loc[s.hand[0]].place == Hand && loc[s.hand[0]].cls == s.handCls
    ensures EndsOk(s, ReturnFromHand(s), loc, Hand, Central(s.handCls, loc[s.hand[0]].slab), multiset{s.hand[0]})
  {
    hide Linked, Contents, Placed, Shaped, Threaded, BlockOk;
    var s', b := ReturnFromHand(s), s.hand[0];
    HeaderAt(s, b, loc[b]);
    ReturnEnd(s, s', loc, b);
    ReturnFromHandLinks(s, loc);
    assert s'.hdr == s.hdr && s'.handCls == s.handCls;
    StayAt(s, s', loc, Hand);
  }

  lemma ReturnFromHandLinks(s: State, loc: Locs)
    requires Placed(s, loc) && Threaded(s) && s.hand != []
    ensures Linked(ReturnFromHand(s).link, Contents(ReturnFromHand(s), Hand))
  {
    hide Placed;
    var l := s.hand;
    assert IsList(s, Hand);
    PopLinked(s.link, l);
    ContentsOnce(s, loc, Hand);
    PoppedOnce(l);
    LinkedFrame(s.link, ReturnFromHand(s).link, l[1..]);
  }

  lemma ReturnFromHandInv(s: State, loc: Locs) returns (loc': Locs)
    requires Inv(s, loc) && s.hand != []
    ensures Inv(ReturnFromHand(s), loc')
  {
    hide Placed, Shaped, Threaded, BlocksOk, PendingOk, OneOwner, CarvedOk, RegisteredOk, LimitsOk, Moves, EndsOk;
    var s', b := ReturnFromHand(s), s.hand[0];
    HandTarget(s, loc);
    ReturnFromHandMoves(s, loc);
    ReturnFromHandEnds(s, loc);
    ReturnTarget(s, loc, b);
    ReturnShape(s, s', loc, b);
    loc' := Relocate(loc, multiset{b}, Central(s.handCls, loc[b].slab));
    MoveKeepsInv(s, s', loc, Hand, Central(s.handCls, loc[b].slab), multiset{b});
  }

  lemma ReturnShape(s: State, s': State, loc: Locs, b: Addr)
    requires Placed(s, loc) && Shaped(s, loc) && BlocksOk(s, loc)
    requires b in loc && !loc[b].place.Central?
    requires s'.limits == s.limits && s'.caches == s.caches
    requires s'.pools == s.pools[loc[b].cls := ReturnBlock(PoolOf(s, loc[b].cls), b)]
    ensures Shaped(s', loc)
  {
    ReturnTarget(s, loc, b);
    var c, i := loc[b].cls, loc[b].slab;
    var slab := ReturnToSlab(PoolOf(s, c)[i], b);
    assert PoolSlabOk(s, loc, c, i);
    assert ReturnBlock(PoolOf(s, c), b) == PoolOf(s, c)[i := slab];
    OneSlabShape(s, s', loc, c, i, slab);
  }

  lemma InboxTarget(s: State, c: SizeClass, loc: Locs)
    requires Placed(s, loc) && BlocksOk(s, loc) && InboxOf(s, c) != []
    ensures var b := InboxOf(s, c)[0]; b in loc && loc[b].place == Inbox(c) && loc[b].cls == c
  {
    var b := InboxOf(s, c)[0];
    PlacedAt(s, loc, Inbox(c));
    assert b in At(s, Inbox(c));
    assert BlockOk(s, b, loc[b]);
  }

  lemma ReturnFromInboxMoves(s: State, c: SizeClass, loc: Locs)
    requires Placed(s, loc) && Shaped(s, loc) && BlocksOk(s, loc) && InboxOf(s, c) != []
    requires InboxOf(s, c)[0] in loc && loc[InboxOf(s, c)[0]].place == Inbox(c) && loc[InboxOf(s, c)[0]].cls == c
    ensures Moves(s, ReturnFromInbox(s, c), Inbox(c), Central(c, loc[InboxOf(s, c)[0]].slab),
                  multiset{InboxOf(s, c)[0]})
  {
    hide SameAt, Placed, Shaped, BlocksOk;
    var s', b := ReturnFromInbox(s, c), InboxOf(s, c)[0];
    var i := loc[b].slab;
    assert At(s, Inbox(c)) == At(s', Inbox(c)) + multiset{b} by { MultisetPop(InboxOf(s, c)); }
    ReturnTarget(s, loc, b);
    ReturnAdds(s, s', c, i, b);
    assert s'.(inboxes := s.inboxes, pools := s.pools, link := s.link) == s;
    assert forall x :: x != b ==> Next(s'.link, x) == Next(s.link, x);
    forall p | p != Inbox(c) && p != Central(c, i) ensures SameAt(s, s', p) {
      if p.Central? && p.cls == c {
        assert p == Central(c, p.slab);
      } else {
        ReturnFromInboxElsewhere(s, c, p);
      }
    }
    hide ReturnFromInbox, InboxOf, PoolOf, At;
  }

  lemma ReturnFromInboxElsewhere(s: State, c: SizeClass, p: Place)
    requires InboxOf(s, c) != [] && p != Inbox(c) && !(p.Central? && p.cls == c)
    ensures SameAt(s, ReturnFromInbox(s, c), p)
  {
  }

  lemma ReturnFromInboxLinks(s: State, c: SizeClass, loc: Locs)
    requires Placed(s, loc) && Threaded(s) && InboxOf(s, c) != []
    ensures Linked(ReturnFromInbox(s, c).link, InboxOf(s, c)[1..])
    ensures Contents(ReturnFromInbox(s, c), Inbox(c)) == InboxOf(s, c)[1..]
  {
    var l := InboxOf(s, c);
    assert IsList(s, Inbox(c));
    PopLinked(s.link, l);
    ContentsOnce(s, loc, Inbox(c));
    PoppedOnce(l);
    LinkedFrame(s.link, ReturnFromInbox(s, c).link, l[1..]);
  }

  lemma ReturnFromInboxEnds(s: State, c: SizeClass, loc: Locs)
    requires Placed(s, loc) && Shaped(s, loc) && BlocksOk(s, loc) && Threaded(s) && InboxOf(s, c) != []
    requires InboxOf(s, c)[0] in loc && loc[InboxOf(s, c)[0]].place == Inbox(c) && loc[InboxOf(s, c)[0]].cls == c
    ensures EndsOk(s, ReturnFromInbox(s, c), loc, Inbox(c), Central(c, loc[InboxOf(s, c)[0]].slab),
                   multiset{InboxOf(s, c)[0]})
  {
    hide Linked, Contents, Placed, Shaped, Threaded, BlockOk;
    var s', b := ReturnFromInbox(s, c), InboxOf(s, c)[0];
    HeaderAt(s, b, loc[b]);
    ReturnEnd(s, s', loc, b);
    ReturnFromInboxLinks(s, c, loc);
    assert s'.hdr == s.hdr;
    StayAt(s, s', loc, Inbox(c));
  }

  lemma ReturnFromInboxInv(s: State, c: SizeClass, loc: Locs) returns (loc': Locs)
    requires Inv(s, loc) && InboxOf(s, c) != []
    ensures Inv(ReturnFromInbox(s, c), loc')
  {
    hide Placed, Shaped, Threaded, BlocksOk, PendingOk, OneOwner, CarvedOk, RegisteredOk, LimitsOk, Moves, EndsOk;
    var s', b := ReturnFromInbox(s, c), InboxOf(s, c)[0];
    InboxTarget(s, c, loc);
    ReturnFromInboxMoves(s, c, loc);
    ReturnFromInboxEnds(s, c, loc);
    ReturnShape(s, s', loc, b);
    loc' := Relocate(loc, multiset{b}, Central(c, loc[b].slab));
    MoveKeepsInv(s, s', loc, Inbox(c), Central(c, loc[b].slab), multiset{b});
  }
}

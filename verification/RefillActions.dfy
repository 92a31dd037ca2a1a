/** The actions that carry blocks from the central pool or the arena through a cache to the program. */
module RefillActions {
  import opened Basics
  import opened Chains
  import opened SizeClasses
  import opened Headers
  import opened CacheModel
  import opened PoolModel
  import opened AllocatorModel
  import opened AllocatorMoves
  import opened DrainActions

  // ----- A batch from a partial slab

  lemma TakeBatchElsewhere(s: State, c: SizeClass, i: nat, max: nat, p: Place)
    requires s.hand == [] && max > 0 && i < |PoolOf(s, c)|
    requires PoolOf(s, c)[i].state == Partial && PoolOf(s, c)[i].free != []
    requires p != Central(c, i) && p != Hand
    ensures SameAt(s, TakeBatch(s, c, i, max), p)
  {
    var s', slab := TakeBatch(s, c, i, max), TakePartial(PoolOf(s, c)[i], max);
    assert s'.pools == s.pools[c := PoolOf(s, c)[i := slab]];
    hide TakeBatch, TakePartial, PartialBatch;
    if p.Central? && p.cls == c {
      OtherSlab(s, s', c, i, slab, p);
    }
  }

  lemma OtherSlab(s: State, s': State, c: SizeClass, i: nat, slab: PoolSlab, p: Place)
    requires i < |PoolOf(s, c)| && s'.pools == s.pools[c := PoolOf(s, c)[i := slab]]
    requires p.Central? && p.cls == c && p.slab != i
    ensures SameAt(s, s', p)
  {
  }

  /** The batch is the front of the slab's list, and one link is cut. */
  lemma TakeBatchSplits(s: State, c: SizeClass, i: nat, max: nat)
    requires s.hand == [] && max > 0 && i < |PoolOf(s, c)|
    requires PoolOf(s, c)[i].state == Partial && PoolOf(s, c)[i].free != []
    ensures var s' := TakeBatch(s, c, i, max);
            && At(s, Central(c, i)) == At(s', Central(c, i)) + multiset(s'.hand)
            && At(s', Hand) == At(s, Hand) + multiset(s'.hand)
            && (forall b :: b !in s'.hand ==> Next(s'.link, b) == Next(s.link, b))
  {
    var s', l, n := TakeBatch(s, c, i, max), PoolOf(s, c)[i].free, Min(max, |PoolOf(s, c)[i].free|);
    MultisetSplit(l, n);
    assert Contents(s, Central(c, i)) == l && Contents(s', Central(c, i)) == l[n..];
    assert s'.hand[n - 1] in s'.hand;
  }

  lemma TakeBatchMoves(s: State, c: SizeClass, i: nat, max: nat)
    requires s.hand == [] && max > 0 && i < |PoolOf(s, c)|
    requires PoolOf(s, c)[i].state == Partial && PoolOf(s, c)[i].free != []
    ensures Moves(s, TakeBatch(s, c, i, max), Central(c, i), Hand, multiset(TakeBatch(s, c, i, max).hand))
  {
    hide SameAt, PoolSlab.Full;
    var s', l := TakeBatch(s, c, i, max), PoolOf(s, c)[i].free;
    forall p | p != Central(c, i) && p != Hand ensures SameAt(s, s', p) { TakeBatchElsewhere(s, c, i, max, p); }
    TakeBatchSplits(s, c, i, max);
    assert s'.(pools := s.pools, handCls := s.handCls, hand := s.hand, link := s.link) == s;
    hide TakeBatch, Contents, PoolOf, PartialBatch;
  }

  lemma TakeBatchLinks(s: State, c: SizeClass, i: nat, max: nat, loc: Locs)
    requires Placed(s, loc) && Threaded(s) && s.hand == [] && max > 0 && i < |PoolOf(s, c)|
    requires PoolOf(s, c)[i].state == Partial && PoolOf(s, c)[i].free != []
    ensures var s' := TakeBatch(s, c, i, max);
            Linked(s'.link, Contents(s', Central(c, i))) && Linked(s'.link, s'.hand)
  {
    var l := PoolOf(s, c)[i].free;
    ContentsOnce(s, loc, Central(c, i));
    assert IsList(s, Central(c, i));
    hide Placed;
    CutLinked(s.link, l, Min(max, |l|));
    assert Contents(TakeBatch(s, c, i, max), Central(c, i)) == l[Min(max, |l|)..];
  }

  lemma TakeBatchEnds(s: State, c: SizeClass, i: nat, max: nat, loc: Locs)
    requires Placed(s, loc) && BlocksOk(s, loc) && Threaded(s) && s.hand == [] && max > 0 && i < |PoolOf(s, c)|
    requires PoolOf(s, c)[i].state == Partial && PoolOf(s, c)[i].free != []
    ensures EndsOk(s, TakeBatch(s, c, i, max), loc, Central(c, i), Hand, multiset(TakeBatch(s, c, i, max).hand))
  {
    hide Placed, Threaded, Linked, BlockOk;
    var s', p, l := TakeBatch(s, c, i, max), Central(c, i), PoolOf(s, c)[i].free;
    TakeBatchLinks(s, c, i, max, loc);
    PlacedAt(s, loc, p);
    PlacedAt(s, loc, Hand);
    assert At(s, p) == multiset(l) && At(s, Hand) == multiset{};
    assert Contents(s', Hand) == s'.hand;
    assert forall x :: x in s'.hand ==> x in l;
    assert i < |PoolOf(s', c)| && !PoolOf(s', c)[i].Full() && s'.handCls == c && s'.hdr == s.hdr;
    assert HandsOver(s, p, c);
    forall x | x in s'.hand ensures x in At(s, p) {}
    hide TakeBatch, TakePartial, PartialBatch, Linked, At, Contents, BlockOk, Placed, Threaded, PoolSlab.Full, HandsOver;
    StayAt(s, s', loc, p);
    IntoHand(s, s', loc, p, c, multiset(s'.hand));
  }

  lemma TakeBatchShape(s: State, c: SizeClass, i: nat, max: nat, loc: Locs)
    requires Shaped(s, loc) && max > 0 && i < |PoolOf(s, c)| && PoolOf(s, c)[i].state == Partial
    ensures Shaped(TakeBatch(s, c, i, max), loc)
  {
    var s' := TakeBatch(s, c, i, max);
    assert PoolSlabOk(s, loc, c, i);
    OneSlabShape(s, s', loc, c, i, TakePartial(PoolOf(s, c)[i], max));
  }

  lemma TakeBatchInv(s: State, c: SizeClass, i: nat, max: nat, loc: Locs)
    requires Inv(s, loc) && s.hand == [] && max > 0 && i < |PoolOf(s, c)| && PoolOf(s, c)[i].state == Partial
    ensures Inv(TakeBatch(s, c, i, max), Relocate(loc, multiset(TakeBatch(s, c, i, max).hand), Hand))
    ensures TakeBatch(s, c, i, max).hand != [] && TakeBatch(s, c, i, max).handCls == c
  {
    var s' := TakeBatch(s, c, i, max);
    assert PoolSlabOk(s, loc, c, i);
    TakeBatchMoves(s, c, i, max);
    TakeBatchEnds(s, c, i, max, loc);
    TakeBatchShape(s, c, i, max, loc);
    MoveKeepsInv(s, s', loc, Central(c, i), Hand, multiset(s'.hand));
  }

  // ----- The batch joins the shared list

  lemma AcceptHandElsewhere(s: State, k: Key, p: Place)
    requires s.hand != [] && p != Hand && p != Shared(k)
    ensures SameAt(s, AcceptHand(s, k), p)
  {
  }

  lemma AcceptHandJoins(s: State, k: Key)
    requires s.hand != []
    ensures var s' := AcceptHand(s, k);
            && At(s, Hand) == At(s', Hand) + multiset(s.hand)
            && At(s', Shared(k)) == At(s, Shared(k)) + multiset(s.hand)
            && (forall b :: b !in s.hand ==> Next(s'.link, b) == Next(s.link, b))
  {
    var s', l := AcceptHand(s, k), s.hand;
    assert Contents(s', Shared(k)) == l + Contents(s, Shared(k));
    assert l[|l| - 1] in l;
  }

  lemma AcceptHandMoves(s: State, k: Key)
    requires s.hand != []
    ensures Moves(s, AcceptHand(s, k), Hand, Shared(k), multiset(s.hand))
  {
    hide SameAt;
    var s' := AcceptHand(s, k);
    forall p | p != Hand && p != Shared(k) ensures SameAt(s, s', p) { AcceptHandElsewhere(s, k, p); }
    AcceptHandJoins(s, k);
    assert s'.(caches := s.caches, hand := s.hand, link := s.link) == s;
    hide AcceptHand, Contents, CacheOf;
  }

  lemma AcceptHandLinks(s: State, k: Key, loc: Locs)
    requires Placed(s, loc) && Threaded(s) && s.hand != []
    ensures Linked(AcceptHand(s, k).link, Contents(AcceptHand(s, k), Shared(k)))
  {
    hide Placed, Linked;
    var l, shared := s.hand, CacheOf(s, k).shared;
    ContentsOnce(s, loc, Hand);
    PlacedAt(s, loc, Hand);
    PlacedAt(s, loc, Shared(k));
    assert IsList(s, Hand) && IsList(s, Shared(k));
    assert l[|l| - 1] in At(s, Hand);
    assert l[|l| - 1] !in At(s, Shared(k));
    SpliceLinked(s.link, l, shared);
    assert Contents(AcceptHand(s, k), Shared(k)) == l + shared;
  }

  lemma AcceptHandEnds(s: State, k: Key, loc: Locs)
    requires Placed(s, loc) && BlocksOk(s, loc) && Threaded(s) && s.hand != [] && s.handCls == k.cls
    ensures EndsOk(s, AcceptHand(s, k), loc, Hand, Shared(k), multiset(s.hand))
  {
    var s', l := AcceptHand(s, k), s.hand;
    AcceptHandLinks(s, k, loc);
    PlacedAt(s, loc, Hand);
    PlacedAt(s, loc, Shared(k));
    forall x | x in loc && loc[x].place == Hand ensures x in multiset(l) {
      assert x in At(s, Hand);
    }
    forall x | x in loc && (x in multiset(l) || loc[x].place == Shared(k))
      ensures BlockOk(s', x, loc[x].(place := Shared(k)))
    {
      assert x in multiset(l) ==> x in At(s, Hand);
      assert BlockOk(s, x, loc[x]);
    }
  }

  lemma AcceptHandInv(s: State, k: Key, loc: Locs)
    requires Inv(s, loc) && s.hand != [] && s.handCls == k.cls
    ensures Inv(AcceptHand(s, k), Relocate(loc, multiset(s.hand), Shared(k)))
  {
    hide Placed, Shaped, Threaded, BlocksOk, PendingOk, OneOwner, CarvedOk, RegisteredOk, LimitsOk, Moves, EndsOk;
    AcceptHandMoves(s, k);
    AcceptHandEnds(s, k, loc);
    ShapePersists(s, AcceptHand(s, k), loc);
    MoveKeepsInv(s, AcceptHand(s, k), loc, Hand, Shared(k), multiset(s.hand));
  }

  // ----- A whole slab is loaned

  /**
   When a full slab is loaned, no cache holds any of its blocks: whatever record this
   cache still has of it is stale and empty, so resetting the record loses nothing.
   */
  lemma LoanFindsNothing(s: State, loc: Locs, k: Key, i: nat)
    requires Placed(s, loc) && Shaped(s, loc) && BlocksOk(s, loc)
    requires i < |PoolOf(s, k.cls)| && PoolOf(s, k.cls)[i].Full()
    ensures var slab := PoolOf(s, k.cls)[i];
            var slabs := CacheOf(s, k).slabs;
            var j := SlabAt(slabs, slab.start);
            j < |slabs| ==> slabs[j].blocks == slab.blocks && slabs[j].untouched == [] && slabs[j].free == []
  {
    var slab := PoolOf(s, k.cls)[i];
    var slabs := CacheOf(s, k).slabs;
    var j := SlabAt(slabs, slab.start);
    if j < |slabs| {
      StaleRecord(s, loc, k, i, j);
      if slabs[j].untouched != [] {
        HeldByOwnSlab(s, loc, Untouched(k, j), slabs[j].untouched[0]);
        FullSlabBlock(s, loc, k.cls, i, slabs[j].untouched[0]);
      }
      if slabs[j].free != [] {
        HeldByOwnSlab(s, loc, Reclaimed(k, j), slabs[j].free[0]);
        FullSlabBlock(s, loc, k.cls, i, slabs[j].free[0]);
      }
    }
  }

  /** A record that starts where a registered slab of its class does has that slab's geometry. */
  lemma StaleRecord(s: State, loc: Locs, k: Key, i: nat, j: nat)
    requires Shaped(s, loc) && i < |PoolOf(s, k.cls)| && j < |CacheOf(s, k).slabs|
    requires CacheOf(s, k).slabs[j].start == PoolOf(s, k.cls)[i].start
    ensures CacheOf(s, k).slabs[j].blocks == PoolOf(s, k.cls)[i].blocks
  {
    var slab := PoolOf(s, k.cls)[i];
    assert PoolSlabOk(s, loc, k.cls, i);
    assert slab.start in slab.blocks;
    assert LocalSlabOk(s, loc, k, j);
  }

  lemma FullSlabBlock(s: State, loc: Locs, c: SizeClass, i: nat, b: Addr)
    requires Placed(s, loc) && i < |PoolOf(s, c)| && PoolOf(s, c)[i].Full() && b in PoolOf(s, c)[i].blocks
    ensures b in loc && loc[b].place == Central(c, i)
  {
    PlacedAt(s, loc, Central(c, i));
    assert b in At(s, Central(c, i));
  }

  lemma HeldByOwnSlab(s: State, loc: Locs, p: Place, b: Addr)
    requires Placed(s, loc) && BlocksOk(s, loc)
    requires p.Untouched? || p.Reclaimed?
    requires b in Contents(s, p)
    ensures b in loc && loc[b].place == p
    ensures p.slab < |CacheOf(s, p.key).slabs| && b in CacheOf(s, p.key).slabs[p.slab].blocks
  {
    PlacedAt(s, loc, p);
    assert b in At(s, p);
    assert BlockOk(s, b, loc[b]);
  }

  /** `OwnSlab` changes one record of one cache and leaves every list of that cache alone. */
  lemma OwnSlabElsewhere(s: State, s': State, k: Key, start: Addr, blocks: seq<Addr>, p: Place)
    requires CacheOf(s', k) == OwnSlab(CacheOf(s, k), start, blocks)
    requires var j := SlabAt(CacheOf(s, k).slabs, start);
             j < |CacheOf(s, k).slabs| ==>
               && CacheOf(s, k).slabs[j].blocks == blocks
               && CacheOf(s, k).slabs[j].free == [] && CacheOf(s, k).slabs[j].untouched == []
    requires p.Hot? || p.Reclaimed? || p.Untouched? || p.Shared?
    requires p.key == k && p != Untouched(k, SlabAt(CacheOf(s, k).slabs, start))
    ensures SameAt(s, s', p)
  {
  }

  /** Changing one class of one cache and one pool leaves all other places alone. */
  lemma OtherPlace(s: State, s': State, k: Key, c: SizeClass, p: Place)
    requires s' == s.(pools := s.pools[c := PoolOf(s', c)], caches := s.caches[k := CacheOf(s', k)])
    requires !((p.Hot? || p.Reclaimed? || p.Untouched? || p.Shared?) && p.key == k) && !(p.Central? && p.cls == c)
    ensures SameAt(s, s', p)
  {
  }

  lemma LoanSlabElsewhere(s: State, k: Key, i: nat, p: Place)
    requires i < |PoolOf(s, k.cls)|
    requires var slab := PoolOf(s, k.cls)[i];
             var j := SlabAt(CacheOf(s, k).slabs, slab.start);
             && p != Central(k.cls, i) && p != Untouched(k, j)
             && (j < |CacheOf(s, k).slabs| ==>
                   && CacheOf(s, k).slabs[j].blocks == slab.blocks
                   && CacheOf(s, k).slabs[j].free == [] && CacheOf(s, k).slabs[j].untouched == [])
    ensures SameAt(s, LoanSlab(s, k, i), p)
  {
    hide OwnSlab, Loan, SlabAt;
    var s', slab := LoanSlab(s, k, i), PoolOf(s, k.cls)[i];
    assert s' == s.(pools := s.pools[k.cls := PoolOf(s, k.cls)[i := Loan(slab)]],
                    caches := s.caches[k := OwnSlab(CacheOf(s, k), slab.start, slab.blocks)]);
    if (p.Hot? || p.Reclaimed? || p.Untouched? || p.Shared?) && p.key == k {
      OwnSlabElsewhere(s, s', k, slab.start, slab.blocks, p);
    } else if p.Central? && p.cls == k.cls {
      OtherSlab(s, s', k.cls, i, Loan(slab), p);
    } else {
      OtherPlace(s, s', k, k.cls, p);
    }
  }

  lemma LoanSlabMoves(s: State, loc: Locs, k: Key, i: nat)
    requires Placed(s, loc) && Shaped(s, loc) && BlocksOk(s, loc)
    requires i < |PoolOf(s, k.cls)| && PoolOf(s, k.cls)[i].Full()
    ensures Moves(s, LoanSlab(s, k, i), Central(k.cls, i),
                  Untouched(k, SlabAt(CacheOf(s, k).slabs, PoolOf(s, k.cls)[i].start)),
                  multiset(PoolOf(s, k.cls)[i].blocks))
  {
    hide SameAt, Placed, Shaped, BlocksOk, SlabAt;
    var s', slab := LoanSlab(s, k, i), PoolOf(s, k.cls)[i];
    var j := SlabAt(CacheOf(s, k).slabs, slab.start);
    var from, to := Central(k.cls, i), Untouched(k, j);
    LoanFindsNothing(s, loc, k, i);
    LoanSlabContents(s, k, i);
    assert s'.(pools := s.pools, caches := s.caches) == s;
    hide LoanSlab, PoolOf, CacheOf, Contents, PoolSlab.Full;
    forall p | p != from && p != to ensures SameAt(s, s', p) { LoanSlabElsewhere(s, k, i, p); }
  }

  /** The blocks of a lent slab leave the center and are all that its record then has untouched. */
  lemma LoanSlabContents(s: State, k: Key, i: nat)
    requires i < |PoolOf(s, k.cls)| && PoolOf(s, k.cls)[i].Full()
    ensures var s', slab := LoanSlab(s, k, i), PoolOf(s, k.cls)[i];
            var j := SlabAt(CacheOf(s, k).slabs, slab.start);
            && Contents(s, Central(k.cls, i)) == slab.blocks && Contents(s', Central(k.cls, i)) == []
            && Contents(s', Untouched(k, j)) == slab.blocks
            && j < |CacheOf(s', k).slabs| && CacheOf(s', k).slabs[j].blocks == slab.blocks
            && (j >= |CacheOf(s, k).slabs| || CacheOf(s, k).slabs[j].untouched == [] ==> Contents(s, Untouched(k, j)) == [])
  {
    OwnSlabIs(CacheOf(s, k), PoolOf(s, k.cls)[i].start, PoolOf(s, k.cls)[i].blocks);
  }

  lemma LoanSlabEnds(s: State, loc: Locs, k: Key, i: nat)
    requires Placed(s, loc) && Shaped(s, loc) && BlocksOk(s, loc)
    requires i < |PoolOf(s, k.cls)| && PoolOf(s, k.cls)[i].Full()
    ensures EndsOk(s, LoanSlab(s, k, i), loc, Central(k.cls, i),
                   Untouched(k, SlabAt(CacheOf(s, k).slabs, PoolOf(s, k.cls)[i].start)),
                   multiset(PoolOf(s, k.cls)[i].blocks))
  {
    hide Placed, Shaped, BlocksOk, BlockOk, SlabAt, OwnSlab, Linked, PoolSlab.Full;
    var s', slab := LoanSlab(s, k, i), PoolOf(s, k.cls)[i];
    var j := SlabAt(CacheOf(s, k).slabs, slab.start);
    var from, to := Central(k.cls, i), Untouched(k, j);
    LoanFindsNothing(s, loc, k, i);
    LoanSlabContents(s, k, i);
    NothingLinked(s'.link);
    assert s'.hdr == s.hdr;
    hide LoanSlab, CacheOf, Contents, PoolOf;
    forall x | x in loc && (x in multiset(slab.blocks) || loc[x].place == to)
      ensures BlockOk(s', x, loc[x].(place := to))
    {
      LentBlock(s, s', loc, k, i, j, x);
    }
    forall x | x in loc && loc[x].place == from ensures x in multiset(slab.blocks) {
      NothingElseAt(s, loc, from, x);
    }
  }

  lemma NothingLinked(link: map<Addr, Addr>)
    ensures Linked(link, [])
  {
  }

  lemma NothingElseAt(s: State, loc: Locs, p: Place, b: Addr)
    requires Placed(s, loc) && b in loc && loc[b].place == p && !p.Live?
    ensures b in Contents(s, p)
  {
    PlacedAt(s, loc, p);
    assert b in At(s, p);
  }

  lemma LentBlock(s: State, s': State, loc: Locs, k: Key, i: nat, j: nat, b: Addr)
    requires Placed(s, loc) && BlocksOk(s, loc)
    requires i < |PoolOf(s, k.cls)| && PoolOf(s, k.cls)[i].Full()
    requires s'.hdr == s.hdr && j < |CacheOf(s', k).slabs|
    requires CacheOf(s', k).slabs[j].blocks == PoolOf(s, k.cls)[i].blocks
    requires Contents(s, Untouched(k, j)) == []
    requires b in loc && (b in PoolOf(s, k.cls)[i].blocks || loc[b].place == Untouched(k, j))
    ensures BlockOk(s', b, loc[b].(place := Untouched(k, j)))
  {
    if b in PoolOf(s, k.cls)[i].blocks {
      FullSlabBlock(s, loc, k.cls, i, b);
      HeaderAt(s, b, loc[b]);
      InUntouched(s', b, loc[b], k, j);
    } else {
      NothingElseAt(s, loc, Untouched(k, j), b);
    }
  }

  /** Shape survives a cache taking a slab whose geometry the pool already knows. */
  lemma OwnSlabShape(s: State, s': State, loc: Locs, k: Key, i: nat)
    requires Shaped(s, loc)
    requires s'.limits == s.limits
    requires i < |PoolOf(s, k.cls)|
    requires s'.pools == s.pools[k.cls := PoolOf(s, k.cls)[i := Loan(PoolOf(s, k.cls)[i])]]
    requires s'.caches == s.caches[k := OwnSlab(CacheOf(s, k), PoolOf(s, k.cls)[i].start, PoolOf(s, k.cls)[i].blocks)]
    ensures Shaped(s', loc)
  {
    hide OwnSlab, Loan, PoolSlabOk, LocalSlabOk;
    LoanIs(PoolOf(s, k.cls)[i]);
    forall c, j | 0 <= j < |PoolOf(s', c)| ensures PoolSlabOk(s', loc, c, j) {
      LentPoolShape(s, s', loc, k.cls, i, c, j);
    }
    forall q, j | 0 <= j < |CacheOf(s', q).slabs| ensures LocalSlabOk(s', loc, q, j) {
      if q == k {
        OwnRecordShape(s, s', loc, k, i, j);
      } else {
        OtherRecordShape(s, s', loc, k, i, q, j);
      }
    }
  }

  lemma LentPoolShape(s: State, s': State, loc: Locs, d: SizeClass, i: nat, c: SizeClass, j: nat)
    requires Shaped(s, loc) && s'.limits == s.limits && i < |PoolOf(s, d)|
    requires s'.pools == s.pools[d := PoolOf(s, d)[i := Loan(PoolOf(s, d)[i])]]
    requires j < |PoolOf(s', c)|
    ensures PoolSlabOk(s', loc, c, j)
  {
    hide IsSpan;
    assert PoolSlabOk(s, loc, c, j);
    LoanIs(PoolOf(s, d)[i]);
    SlabPersists(s, s', loc, c, j);
  }

  lemma OtherRecordShape(s: State, s': State, loc: Locs, k: Key, i: nat, q: Key, j: nat)
    requires Shaped(s, loc) && i < |PoolOf(s, k.cls)| && q != k
    requires s'.pools == s.pools[k.cls := PoolOf(s, k.cls)[i := Loan(PoolOf(s, k.cls)[i])]]
    requires s'.caches == s.caches[k := CacheOf(s', k)] && j < |CacheOf(s', q).slabs|
    ensures LocalSlabOk(s', loc, q, j)
  {
    hide PoolSlabOk;
    LoanIs(PoolOf(s, k.cls)[i]);
    assert CacheOf(s', q) == CacheOf(s, q);
    assert LocalSlabOk(s, loc, q, j);
    hide CacheOf, Loan;
    RecordPersists(s, s', loc, q, j);
  }

  lemma LoanIs(slab: PoolSlab)
    ensures Loan(slab).start == slab.start && Loan(slab).blocks == slab.blocks && Loan(slab).Consistent()
  {
  }

  /** Taking a slab adds or resets the one record that starts where it does. */
  lemma OwnSlabIs(c: ClassCache, start: Addr, blocks: seq<Addr>)
    ensures var slabs', i := OwnSlab(c, start, blocks).slabs, SlabAt(c.slabs, start);
            && |slabs'| == Max(|c.slabs|, i + 1) && slabs'[i] == FreshSlab(start, blocks)
            && (forall j :: 0 <= j < |c.slabs| && j != i ==> slabs'[j] == c.slabs[j])
  {
  }

  lemma OwnRecordShape(s: State, s': State, loc: Locs, k: Key, i: nat, j: nat)
    requires Shaped(s, loc) && s'.limits == s.limits && i < |PoolOf(s, k.cls)|
    requires s'.pools == s.pools[k.cls := PoolOf(s, k.cls)[i := Loan(PoolOf(s, k.cls)[i])]]
    requires s'.caches == s.caches[k := OwnSlab(CacheOf(s, k), PoolOf(s, k.cls)[i].start, PoolOf(s, k.cls)[i].blocks)]
    requires j < |CacheOf(s', k).slabs|
    ensures LocalSlabOk(s', loc, k, j)
  {
    hide IsSpan, PoolSlab.Consistent;
    var slab, slabs := PoolOf(s, k.cls)[i], CacheOf(s, k).slabs;
    assert PoolSlabOk(s, loc, k.cls, i);
    assert slab.start in slab.blocks;
    if j < |slabs| {
      assert LocalSlabOk(s, loc, k, j);
    }
    assert CacheOf(s', k).slabs[j].start == if j < |slabs| then slabs[j].start else slab.start;
    assert CacheOf(s', k).slabs == OwnSlab(CacheOf(s, k), slab.start, slab.blocks).slabs;
    hide CacheOf;
  }

  /** The recorded location of a block says which slab it is in. */
  lemma SlabMates(s: State, loc: Locs, c: SizeClass, i: nat, b: Addr)
    requires Shaped(s, loc) && i < |PoolOf(s, c)| && b in loc
    ensures b in PoolOf(s, c)[i].blocks <==> loc[b].cls == c && loc[b].slab == i
  {
    assert PoolSlabOk(s, loc, c, i);
    hide IsSpan;
  }

  /** All blocks of a full slab are lent together, so they end untouched in one record. */
  lemma LoanOneOwner(s: State, loc: Locs, c: SizeClass, i: nat, to: Place)
    requires Placed(s, loc) && Shaped(s, loc) && OneOwner(loc)
    requires i < |PoolOf(s, c)| && PoolOf(s, c)[i].Full()
    ensures OneOwner(Relocate(loc, multiset(PoolOf(s, c)[i].blocks), to))
  {
    hide Placed;
    var blocks := PoolOf(s, c)[i].blocks;
    var loc' := Relocate(loc, multiset(blocks), to);
    forall b, b' | SameUntouchedSlab(loc', b, b') ensures loc'[b].place == loc'[b'].place {
      SlabMates(s, loc, c, i, b);
      SlabMates(s, loc, c, i, b');
      if b !in blocks {
        assert SameUntouchedSlab(loc, b, b');
      }
    }
  }

  lemma LoanSlabInv(s: State, loc: Locs, k: Key, i: nat)
    requires Inv(s, loc) && i < |PoolOf(s, k.cls)| && PoolOf(s, k.cls)[i].Full()
    ensures Inv(LoanSlab(s, k, i),
                Relocate(loc, multiset(PoolOf(s, k.cls)[i].blocks),
                         Untouched(k, SlabAt(CacheOf(s, k).slabs, PoolOf(s, k.cls)[i].start))))
  {
    hide Placed, Shaped, Threaded, BlocksOk, PendingOk, OneOwner, CarvedOk, RegisteredOk, LimitsOk, Moves, EndsOk;
    var s', slab := LoanSlab(s, k, i), PoolOf(s, k.cls)[i];
    LoanSlabMoves(s, loc, k, i);
    LoanSlabEnds(s, loc, k, i);
    OwnSlabShape(s, s', loc, k, i);
    LoanOneOwner(s, loc, k.cls, i, Untouched(k, SlabAt(CacheOf(s, k).slabs, slab.start)));
    MoveKeepsInv(s, s', loc, Central(k.cls, i), Untouched(k, SlabAt(CacheOf(s, k).slabs, slab.start)),
                 multiset(slab.blocks));
  }

  // ----- A block reaches the program

  /** The place a pop takes its block from. */
  function PopPlace(s: State, k: Key, src: Source): Place
    requires Nonempty(CacheOf(s, k), src)
  {
    match src
    case FromHot => Hot(k)
    case FromSlab(i) => if CacheOf(s, k).slabs[i].free != [] then Reclaimed(k, i) else Untouched(k, i)
    case FromShared => Shared(k)
  }

  lemma PopRestKeeps(c: ClassCache, src: Source)
    requires Nonempty(c, src)
    ensures |PopRest(c, src).slabs| == |c.slabs|
    ensures forall i :: 0 <= i < |c.slabs| ==>
              && PopRest(c, src).slabs[i].start == c.slabs[i].start
              && PopRest(c, src).slabs[i].blocks == c.slabs[i].blocks
  {
  }

  lemma PopLiveElsewhere(s: State, k: Key, src: Source, requested: nat, p: Place)
    requires Nonempty(CacheOf(s, k), src) && p != Live && p != PopPlace(s, k, src)
    ensures SameAt(s, PopLive(s, k, src, requested), p)
  {
    var s' := PopLive(s, k, src, requested);
    assert CacheOf(s', k) == PopRest(CacheOf(s, k), src);
    match src
    case FromHot => assert CacheOf(s', k).slabs == CacheOf(s, k).slabs;
    case FromSlab(i) =>
    case FromShared => assert CacheOf(s', k).slabs == CacheOf(s, k).slabs;
  }

  lemma PopLiveSource(s: State, k: Key, src: Source, requested: nat)
    requires Nonempty(CacheOf(s, k), src)
    ensures var from, b := PopPlace(s, k, src), PopBlock(CacheOf(s, k), src);
            var l := Contents(s, from);
            && l != [] && l[0] == b && Contents(PopLive(s, k, src, requested), from) == l[1..]
  {
    var s' := PopLive(s, k, src, requested);
    assert CacheOf(s', k) == PopRest(CacheOf(s, k), src);
  }

  lemma PopIsFromCache(s: State, k: Key, src: Source)
    requires Nonempty(CacheOf(s, k), src)
    ensures !PopPlace(s, k, src).Live?
  {
  }

  lemma PopLiveMoves(s: State, loc: Locs, k: Key, src: Source, requested: nat)
    requires Placed(s, loc) && Nonempty(CacheOf(s, k), src)
    ensures Moves(s, PopLive(s, k, src, requested), PopPlace(s, k, src), Live, multiset{PopBlock(CacheOf(s, k), src)})
  {
    hide SameAt, Placed, PopPlace;
    var s', from, b := PopLive(s, k, src, requested), PopPlace(s, k, src), PopBlock(CacheOf(s, k), src);
    PopIsFromCache(s, k, src);
    PopLiveSource(s, k, src, requested);
    PopLiveFrame(s, k, src, requested);
    assert s'.live.Keys == s.live.Keys + {b};
    hide PopLive, PopBlock, CacheOf;
    forall p | p != from && p != Live ensures SameAt(s, s', p) { PopLiveElsewhere(s, k, src, requested, p); }
    PlacedAt(s, loc, from);
    PlacedAt(s, loc, Live);
    MultisetPop(Contents(s, from));
    assert At(s, from) == multiset(Contents(s, from)) && At(s', from) == multiset(Contents(s', from));
    assert b in At(s, from);
    assert b !in At(s, Live);
    LiveGains(s, s', b);
  }

  lemma LiveGains(s: State, s': State, b: Addr)
    requires s'.live.Keys == s.live.Keys + {b} && b !in s.live
    ensures At(s', Live) == At(s, Live) + multiset{b}
  {
  }

  lemma PopLiveFrame(s: State, k: Key, src: Source, requested: nat)
    requires Nonempty(CacheOf(s, k), src)
    ensures var s', m := PopLive(s, k, src, requested), multiset{PopBlock(CacheOf(s, k), src)};
            && s'.limits == s.limits && s'.phases == s.phases
            && s'.arena == s.arena && s'.next == s.next && s'.carved == s.carved
            && (forall b :: b !in m ==> Hdr(s', b) == Hdr(s, b) && Next(s'.link, b) == Next(s.link, b))
            && (forall b :: b in s'.hdr ==> b in s.hdr || b in m)
  {
  }

  /** What the header of a cached block promises the pop that takes it. */
  lemma OwnedAt(s: State, b: Addr, l: Loc)
    requires BlockOk(s, b, l) && (l.place.Hot? || l.place.Reclaimed? || l.place.Untouched? || l.place.Shared?)
    ensures l.place.key.cls == l.cls
    ensures !l.place.Untouched? ==> Initialized(Hdr(s, b), l.cls)
    ensures l.place.Hot? || l.place.Reclaimed? ==> Hdr(s, b).owner == l.place.key.id
  {
  }

  /** Whatever path it came by, the popped block ends with the header a full rewrite would give it. */
  lemma PopWritesFullHeader(s: State, loc: Locs, k: Key, src: Source, requested: nat)
    requires Placed(s, loc) && BlocksOk(s, loc) && Nonempty(CacheOf(s, k), src)
    ensures var b := PopBlock(CacheOf(s, k), src);
            && b in loc && loc[b].place == PopPlace(s, k, src) && loc[b].cls == k.cls
            && Hdr(PopLive(s, k, src, requested), b) == WriteSmall(k.cls, requested, k.id)
  {
    hide Placed, BlockOk, Initialized;
    var from, b := PopPlace(s, k, src), PopBlock(CacheOf(s, k), src);
    PopLiveSource(s, k, src, requested);
    PlacedAt(s, loc, from);
    assert b in At(s, from) by { assert b in Contents(s, from); }
    OwnedAt(s, b, loc[b]);
    if !from.Untouched? {
      RefreshEqualsRewrite(Hdr(s, b), k.cls, requested, k.id);
    }
  }

  lemma PopLiveLinks(s: State, k: Key, src: Source, requested: nat)
    requires Threaded(s) && Nonempty(CacheOf(s, k), src)
    ensures var s', from := PopLive(s, k, src, requested), PopPlace(s, k, src);
            IsList(s', from) ==> Linked(s'.link, Contents(s', from))
  {
    var from := PopPlace(s, k, src);
    PopLiveSource(s, k, src, requested);
    if IsList(s, from) {
      PopLinked(s.link, Contents(s, from));
    }
  }

  lemma PopLiveEnds(s: State, loc: Locs, k: Key, src: Source, requested: nat)
    requires Placed(s, loc) && BlocksOk(s, loc) && Threaded(s) && Nonempty(CacheOf(s, k), src)
    requires 1 <= requested <= Payload(k.cls)
    ensures EndsOk(s, PopLive(s, k, src, requested), loc, PopPlace(s, k, src), Live,
                   multiset{PopBlock(CacheOf(s, k), src)})
  {
    hide Placed, Linked, BlockOk, LiveHeader, Threaded, Hdr, Next;
    var s', from, b := PopLive(s, k, src, requested), PopPlace(s, k, src), PopBlock(CacheOf(s, k), src);
    PopWritesFullHeader(s, loc, k, src, requested);
    PopLiveLinks(s, k, src, requested);
    PopLiveFrame(s, k, src, requested);
    PopRestKeeps(CacheOf(s, k), src);
    PlacedAt(s, loc, Live);
    forall x | x in loc && loc[x].place == from && x != b ensures BlockOk(s', x, loc[x]) {
      StaysOk(s, s', x, loc[x]);
    }
    forall x | x in loc && (x == b || loc[x].place == Live) ensures BlockOk(s', x, loc[x].(place := Live)) {
      if x == b {
        IssuedBlock(s', b, loc[b], k, requested);
      } else {
        assert x in At(s, Live);
        StaysLive(s, s', x, loc[x]);
      }
    }
  }

  lemma IssuedBlock(s: State, b: Addr, l: Loc, k: Key, requested: nat)
    requires b in s.live && s.live[b] == LiveRecord(k.cls, k.id, requested) && l.cls == k.cls
    requires Hdr(s, b) == WriteSmall(k.cls, requested, k.id) && 1 <= requested <= Payload(k.cls)
    ensures BlockOk(s, b, l.(place := Live))
  {
  }

  lemma StaysLive(s: State, s': State, b: Addr, l: Loc)
    requires BlockOk(s, b, l) && l.place.Live? && b in s.live && b in s'.live && s'.live[b] == s.live[b] && Hdr(s', b) == Hdr(s, b)
    ensures BlockOk(s', b, l)
  {
  }

  lemma PopLiveShape(s: State, loc: Locs, k: Key, src: Source, requested: nat)
    requires Shaped(s, loc) && Nonempty(CacheOf(s, k), src)
    ensures Shaped(PopLive(s, k, src, requested), loc)
  {
    var s' := PopLive(s, k, src, requested);
    PopRestKeeps(CacheOf(s, k), src);
    assert forall q :: q != k ==> CacheOf(s', q) == CacheOf(s, q);
    ShapePersists(s, s', loc);
  }

  lemma PopLiveInv(s: State, loc: Locs, k: Key, src: Source, requested: nat)
    requires Inv(s, loc) && Nonempty(CacheOf(s, k), src) && 1 <= requested <= Payload(k.cls)
    ensures Inv(PopLive(s, k, src, requested), Relocate(loc, multiset{PopBlock(CacheOf(s, k), src)}, Live))
  {
    hide Placed, Shaped, Threaded, BlocksOk, PendingOk, OneOwner, CarvedOk, RegisteredOk, LimitsOk, Moves, EndsOk;
    var s' := PopLive(s, k, src, requested);
    PopLiveMoves(s, loc, k, src, requested);
    PopLiveEnds(s, loc, k, src, requested);
    PopLiveShape(s, loc, k, src, requested);
    MoveKeepsInv(s, s', loc, PopPlace(s, k, src), Live, multiset{PopBlock(CacheOf(s, k), src)});
  }
}

/** The actions that change no place: registration of new slabs, cold sweeps, and page reclaim. */
module PoolActions {
  import opened Basics
  import opened SizeClasses
  import opened Headers
  import opened CacheModel
  import opened PoolModel
  import opened AllocatorModel
  import opened AllocatorMoves

  // ----- Registering a carved span

  /** The locations of a newly registered slab's blocks. */
  ghost function WithBlocks(loc: Locs, blocks: seq<Addr>, l: Loc): Locs {
    map b | b in loc.Keys + (set x | x in blocks) :: if b in blocks then l else loc[b]
  }

  lemma NewBlocksPlacedBy(at: Place -> multiset<Addr>, at': Place -> multiset<Addr>, loc: Locs, blocks: seq<Addr>, l: Loc)
    requires PlacedBy(at, loc)
    requires forall b :: b in blocks ==> b !in loc
    requires forall b :: multiset(blocks)[b] <= 1
    requires forall p :: p != l.place ==> at'(p) == at(p)
    requires at(l.place) == multiset{} && at'(l.place) == multiset(blocks)
    ensures PlacedBy(at', WithBlocks(loc, blocks, l))
  {
    var loc' := WithBlocks(loc, blocks, l);
    forall p, b ensures b in at'(p) <==> b in loc' && loc'[b].place == p {
      assert b in at(p) <==> b in loc && loc[b].place == p;
      assert b in at(l.place) <==> b in loc && loc[b].place == l.place;
    }
    forall p, b ensures at'(p)[b] <= 1 {
      assert at(p)[b] <= 1;
    }
  }

  /** A cache and its phase before it registers what it carved. */
  ghost predicate Registers(s: State, loc: Locs, k: Key, blocks: seq<Addr>) {
    && PhaseOf(s, k.id).Carved? && PhaseOf(s, k.id).cls == k.cls && PhaseOf(s, k.id).blocks == blocks
    && PendingOk(s, loc)
  }

  /** Arena spans are never reissued: no slab of the pool or of the cache begins where this one does. */
  lemma RegisterIsNew(s: State, loc: Locs, k: Key, blocks: seq<Addr>)
    requires Shaped(s, loc) && Registers(s, loc, k, blocks)
    ensures forall i :: 0 <= i < |PoolOf(s, k.cls)| ==> PoolOf(s, k.cls)[i].start != blocks[0]
    ensures SlabAt(CacheOf(s, k).slabs, blocks[0]) == |CacheOf(s, k).slabs|
  {
    assert blocks[0] in blocks;
    forall i | 0 <= i < |PoolOf(s, k.cls)| ensures PoolOf(s, k.cls)[i].start != blocks[0] {
      assert PoolSlabOk(s, loc, k.cls, i);
      assert PoolOf(s, k.cls)[i].start in PoolOf(s, k.cls)[i].blocks;
    }
    forall j | 0 <= j < |CacheOf(s, k).slabs| ensures CacheOf(s, k).slabs[j].start != blocks[0] {
      assert LocalSlabOk(s, loc, k, j);
    }
  }

  function NewLoc(s: State, k: Key): Loc {
    Loc(Untouched(k, |CacheOf(s, k).slabs|), k.cls, |PoolOf(s, k.cls)|)
  }

  lemma RegisterElsewhere(s: State, k: Key, blocks: seq<Addr>, p: Place)
    requires blocks != [] && SlabAt(CacheOf(s, k).slabs, blocks[0]) == |CacheOf(s, k).slabs|
    requires p != NewLoc(s, k).place
    ensures At(RegisterCarved(s, k, blocks), p) == At(s, p)
    ensures Contents(RegisterCarved(s, k, blocks), p) == Contents(s, p)
    ensures IsList(RegisterCarved(s, k, blocks), p) ==> IsList(s, p) || Contents(s, p) == []
  {
    var s' := RegisterCarved(s, k, blocks);
    assert CacheOf(s', k).slabs == CacheOf(s, k).slabs + [FreshSlab(blocks[0], blocks)];
    assert PoolOf(s', k.cls) == PoolOf(s, k.cls) + [PoolSlab(blocks[0], blocks, Loaned, [])];
    if p == Central(k.cls, |PoolOf(s, k.cls)|) {
      assert Contents(s', p) == [] && Contents(s, p) == [];
    } else {
      RegisterSame(s, s', k, blocks, p);
      SameAtFacts(s, s', p);
    }
  }

  lemma RegisterSame(s: State, s': State, k: Key, blocks: seq<Addr>, p: Place)
    requires s'.live == s.live && s'.hand == s.hand && s'.handCls == s.handCls
    requires s'.staged == s.staged && s'.inboxes == s.inboxes && blocks != []
    requires forall q :: q != k ==> CacheOf(s', q) == CacheOf(s, q)
    requires forall c :: c != k.cls ==> PoolOf(s', c) == PoolOf(s, c)
    requires CacheOf(s', k) == CacheOf(s, k).(slabs := CacheOf(s, k).slabs + [FreshSlab(blocks[0], blocks)])
    requires PoolOf(s', k.cls) == PoolOf(s, k.cls) + [PoolSlab(blocks[0], blocks, Loaned, [])]
    requires p != NewLoc(s, k).place && p != Central(k.cls, |PoolOf(s, k.cls)|)
    ensures SameAt(s, s', p)
  {
    hide CacheOf, PoolOf;
    match p
    case Central(c, i) =>
      if c == k.cls {
        assert i != |PoolOf(s, c)|;
      }
    case _ =>
  }

  lemma RegisteredUntouched(s: State, k: Key, blocks: seq<Addr>)
    requires blocks != [] && SlabAt(CacheOf(s, k).slabs, blocks[0]) == |CacheOf(s, k).slabs|
    ensures At(s, NewLoc(s, k).place) == multiset{} && At(RegisterCarved(s, k, blocks), NewLoc(s, k).place) == multiset(blocks)
  {
    RegisterRecords(s, k, blocks, k);
  }

  lemma RegisterPlacedBy(s: State, s': State, loc: Locs, k: Key, blocks: seq<Addr>, l: Loc)
    requires Placed(s, loc) && PhaseOf(s, k.id).Carved? && SpanOk(s, loc, PhaseOf(s, k.id)) && PhaseOf(s, k.id).blocks == blocks
    requires forall p :: p != l.place ==> At(s', p) == At(s, p)
    requires At(s, l.place) == multiset{} && At(s', l.place) == multiset(blocks)
    ensures Placed(s', WithBlocks(loc, blocks, l))
  {
    hide At, IsSpan, PlacedBy, WithBlocks;
    forall p ensures View(s)(p) == At(s, p) && View(s')(p) == At(s', p) { ViewAt(s, p); ViewAt(s', p); }
    NewBlocksPlacedBy(View(s), View(s'), loc, blocks, l);
  }

  lemma RegisterPlaced(s: State, loc: Locs, k: Key, blocks: seq<Addr>)
    requires Placed(s, loc) && Registers(s, loc, k, blocks)
    requires SlabAt(CacheOf(s, k).slabs, blocks[0]) == |CacheOf(s, k).slabs|
    ensures Placed(RegisterCarved(s, k, blocks), WithBlocks(loc, blocks, NewLoc(s, k)))
  {
    hide Placed, View, At, CacheOf, PoolOf, PhaseOf, SlabAt;
    NewSpanOk(s, loc, k, blocks);
    var s', l := RegisterCarved(s, k, blocks), NewLoc(s, k);
    forall p | p != l.place ensures At(s', p) == At(s, p) { RegisterElsewhere(s, k, blocks, p); }
    RegisteredUntouched(s, k, blocks);
    hide RegisterCarved, NewLoc;
    RegisterPlacedBy(s, s', loc, k, blocks, l);
  }

  /** A slab registered before keeps its shape. */
  lemma RegisterKeepsSlab(s: State, s': State, loc: Locs, loc': Locs, c: SizeClass, i: nat)
    requires i < |PoolOf(s, c)| && PoolSlabOk(s, loc, c, i)
    requires i < |PoolOf(s', c)| && PoolOf(s', c)[i] == PoolOf(s, c)[i] && Limits(s', c) == Limits(s, c)
    requires forall b :: b in loc ==> b in loc' && loc'[b] == loc[b]
    ensures PoolSlabOk(s', loc', c, i)
  {
  }

  lemma WithBlocksExtends(s: State, loc: Locs, k: Key, blocks: seq<Addr>)
    requires Registers(s, loc, k, blocks)
    ensures var loc' := WithBlocks(loc, blocks, NewLoc(s, k));
            && (forall b :: b in loc ==> b in loc' && loc'[b] == loc[b])
            && (forall b :: b in blocks ==> b in loc' && loc'[b] == NewLoc(s, k))
  {
    assert SpanOk(s, loc, PhaseOf(s, k.id));
  }

  lemma RegisterPools(s: State, k: Key, blocks: seq<Addr>, c: SizeClass)
    requires blocks != []
    ensures var s' := RegisterCarved(s, k, blocks);
            && Limits(s', c) == Limits(s, c)
            && PoolOf(s', c) == if c == k.cls then PoolOf(s, c) + [PoolSlab(blocks[0], blocks, Loaned, [])] else PoolOf(s, c)
  {
  }

  lemma NewSlabShaped(s: State, s': State, loc: Locs, loc': Locs, k: Key, blocks: seq<Addr>)
    requires PhaseOf(s, k.id).Carved? && PhaseOf(s, k.id).cls == k.cls && PhaseOf(s, k.id).blocks == blocks
    requires SpanOk(s, loc, PhaseOf(s, k.id))
    requires forall b :: b in blocks ==> b in loc' && loc'[b] == NewLoc(s, k)
    requires PoolOf(s', k.cls) == PoolOf(s, k.cls) + [PoolSlab(blocks[0], blocks, Loaned, [])]
    requires Limits(s', k.cls) == Limits(s, k.cls)
    ensures |PoolOf(s', k.cls)| == |PoolOf(s, k.cls)| + 1 && PoolSlabOk(s', loc', k.cls, |PoolOf(s, k.cls)|)
  {
    hide PoolOf, Limits, IsSpan;
  }

  lemma OldSlabOk(s: State, loc: Locs, c: SizeClass, i: nat)
    requires Shaped(s, loc) && i < |PoolOf(s, c)|
    ensures PoolSlabOk(s, loc, c, i)
  {
  }

  lemma RegisterPoolShaped(s: State, loc: Locs, k: Key, blocks: seq<Addr>, c: SizeClass, i: nat)
    requires Shaped(s, loc) && Registers(s, loc, k, blocks)
    requires i < |PoolOf(RegisterCarved(s, k, blocks), c)|
    ensures PoolSlabOk(RegisterCarved(s, k, blocks), WithBlocks(loc, blocks, NewLoc(s, k)), c, i)
  {
    hide PoolSlabOk, SpanOk, WithBlocks, NewLoc, PoolOf, Limits, Shaped, PendingOk;
    NewSpanOk(s, loc, k, blocks);
    var s', loc' := RegisterCarved(s, k, blocks), WithBlocks(loc, blocks, NewLoc(s, k));
    RegisterPools(s, k, blocks, c);
    WithBlocksExtends(s, loc, k, blocks);
    hide RegisterCarved;
    if i < |PoolOf(s, c)| {
      OldSlabOk(s, loc, c, i);
      RegisterKeepsSlab(s, s', loc, loc', c, i);
    } else {
      NewSlabShaped(s, s', loc, loc', k, blocks);
    }
  }

  /** The local records of cache `q` after the registration, and the pool they refer to. */
  lemma RegisterRecords(s: State, k: Key, blocks: seq<Addr>, q: Key)
    requires blocks != [] && SlabAt(CacheOf(s, k).slabs, blocks[0]) == |CacheOf(s, k).slabs|
    ensures var slabs, slabs' := CacheOf(s, q).slabs, CacheOf(RegisterCarved(s, k, blocks), q).slabs;
            slabs' == if q == k then slabs + [FreshSlab(blocks[0], blocks)] else slabs
  {
  }

  lemma RegisterCacheShaped(s: State, loc: Locs, k: Key, blocks: seq<Addr>, q: Key, j: nat)
    requires Shaped(s, loc) && Registers(s, loc, k, blocks)
    requires SlabAt(CacheOf(s, k).slabs, blocks[0]) == |CacheOf(s, k).slabs|
    requires j < |CacheOf(RegisterCarved(s, k, blocks), q).slabs|
    ensures LocalSlabOk(RegisterCarved(s, k, blocks), WithBlocks(loc, blocks, NewLoc(s, k)), q, j)
  {
    hide Shaped, SpanOk, LocalSlabOk, WithBlocks, PoolOf, PendingOk, PhaseOf, SlabAt;
    NewSpanOk(s, loc, k, blocks);
    var s', loc' := RegisterCarved(s, k, blocks), WithBlocks(loc, blocks, NewLoc(s, k));
    hide RegisterCarved, CacheOf;
    RegisterPools(s, k, blocks, q.cls);
    RegisterRecords(s, k, blocks, q);
    WithBlocksExtends(s, loc, k, blocks);
    OldRecords(s, loc, k, blocks, q);
    if j < |CacheOf(s, q).slabs| {
      OldRecordShaped(s, s', loc, loc', q, j);
    } else {
      NewRecordShaped(s, s', loc', k, blocks);
    }
  }

  lemma NewSpanOk(s: State, loc: Locs, k: Key, blocks: seq<Addr>)
    requires Registers(s, loc, k, blocks)
    ensures PhaseOf(s, k.id).Carved? && SpanOk(s, loc, PhaseOf(s, k.id)) && PhaseOf(s, k.id).blocks == blocks
    ensures blocks != [] && blocks[0] in blocks
  {
    assert SpanOk(s, loc, PhaseOf(s, k.id));
  }

  /** Records made before the registration begin elsewhere. */
  lemma OldRecords(s: State, loc: Locs, k: Key, blocks: seq<Addr>, q: Key)
    requires Shaped(s, loc) && Registers(s, loc, k, blocks)
    ensures forall i :: 0 <= i < |CacheOf(s, q).slabs| ==>
              LocalSlabOk(s, loc, q, i) && CacheOf(s, q).slabs[i].start !in blocks
  {
    assert SpanOk(s, loc, PhaseOf(s, k.id));
    hide IsSpan, PoolSlabOk;
  }

  lemma OldRecordShaped(s: State, s': State, loc: Locs, loc': Locs, q: Key, j: nat)
    requires j < |CacheOf(s, q).slabs| && LocalSlabOk(s, loc, q, j)
    requires forall b :: b in loc ==> b in loc' && loc'[b] == loc[b]
    requires |PoolOf(s, q.cls)| <= |PoolOf(s', q.cls)|
    requires forall i :: 0 <= i < |PoolOf(s, q.cls)| ==> PoolOf(s', q.cls)[i] == PoolOf(s, q.cls)[i]
    requires |CacheOf(s, q).slabs| <= |CacheOf(s', q).slabs|
    requires forall i :: 0 <= i < |CacheOf(s, q).slabs| ==> CacheOf(s', q).slabs[i] == CacheOf(s, q).slabs[i]
    requires forall i :: |CacheOf(s, q).slabs| <= i < |CacheOf(s', q).slabs| ==>
               CacheOf(s', q).slabs[i].start != CacheOf(s, q).slabs[j].start
    ensures LocalSlabOk(s', loc', q, j)
  {
    hide PoolOf, CacheOf;
  }

  lemma NewRecordShaped(s: State, s': State, loc': Locs, k: Key, blocks: seq<Addr>)
    requires blocks != [] && blocks[0] in loc' && loc'[blocks[0]] == NewLoc(s, k)
    requires PoolOf(s', k.cls) == PoolOf(s, k.cls) + [PoolSlab(blocks[0], blocks, Loaned, [])]
    requires CacheOf(s', k).slabs == CacheOf(s, k).slabs + [FreshSlab(blocks[0], blocks)]
    requires forall i :: 0 <= i < |CacheOf(s, k).slabs| ==> CacheOf(s, k).slabs[i].start != blocks[0]
    ensures LocalSlabOk(s', loc', k, |CacheOf(s, k).slabs|)
  {
    hide PoolOf, CacheOf;
  }

  lemma RegisterShaped(s: State, loc: Locs, k: Key, blocks: seq<Addr>)
    requires Shaped(s, loc) && Registers(s, loc, k, blocks)
    requires SlabAt(CacheOf(s, k).slabs, blocks[0]) == |CacheOf(s, k).slabs|
    ensures Shaped(RegisterCarved(s, k, blocks), WithBlocks(loc, blocks, NewLoc(s, k)))
  {
    hide PoolSlabOk, LocalSlabOk, SlabAt;
    NewSpanOk(s, loc, k, blocks);
    WithBlocksExtends(s, loc, k, blocks);
    var s', loc' := RegisterCarved(s, k, blocks), WithBlocks(loc, blocks, NewLoc(s, k));
    forall c, i | 0 <= i < |PoolOf(s', c)| ensures PoolSlabOk(s', loc', c, i) {
      RegisterPoolShaped(s, loc, k, blocks, c, i);
    }
    forall q, j | 0 <= j < |CacheOf(s', q).slabs| ensures LocalSlabOk(s', loc', q, j) {
      RegisterCacheShaped(s, loc, k, blocks, q, j);
    }
    forall c ensures PoolOf(s', c) == if c == k.cls then PoolOf(s, c) + [PoolSlab(blocks[0], blocks, Loaned, [])] else PoolOf(s, c) {
      RegisterPools(s, k, blocks, c);
    }
    hide RegisterCarved, PoolOf, CacheOf, Registers;
  }

  lemma RegisterThreaded(s: State, k: Key, blocks: seq<Addr>)
    requires Threaded(s) && blocks != []
    requires SlabAt(CacheOf(s, k).slabs, blocks[0]) == |CacheOf(s, k).slabs|
    ensures Threaded(RegisterCarved(s, k, blocks))
  {
    var s' := RegisterCarved(s, k, blocks);
    forall p | IsList(s', p) ensures Linked(s'.link, Contents(s', p)) {
      RegisterElsewhere(s, k, blocks, p);
    }
  }

  lemma NewlyUntouched(s: State, b: Addr, l: Loc)
    requires b !in s.hdr && l.place.Untouched? && l.place.key.cls == l.cls
    requires l.place.slab < |CacheOf(s, l.place.key).slabs| && b in CacheOf(s, l.place.key).slabs[l.place.slab].blocks
    ensures BlockOk(s, b, l)
  {
  }

  lemma RegisterKeepsBlock(s: State, k: Key, blocks: seq<Addr>, b: Addr, l: Loc)
    requires BlockOk(s, b, l) && blocks != [] && SlabAt(CacheOf(s, k).slabs, blocks[0]) == |CacheOf(s, k).slabs|
    ensures BlockOk(RegisterCarved(s, k, blocks), b, l)
  {
    hide SlabAt;
  }

  lemma RegisterBlocks(s: State, loc: Locs, k: Key, blocks: seq<Addr>)
    requires BlocksOk(s, loc) && Registers(s, loc, k, blocks)
    requires SlabAt(CacheOf(s, k).slabs, blocks[0]) == |CacheOf(s, k).slabs|
    ensures BlocksOk(RegisterCarved(s, k, blocks), WithBlocks(loc, blocks, NewLoc(s, k)))
  {
    hide BlockOk;
    var s', loc' := RegisterCarved(s, k, blocks), WithBlocks(loc, blocks, NewLoc(s, k));
    assert CacheOf(s', k).slabs == CacheOf(s, k).slabs + [FreshSlab(blocks[0], blocks)];
    assert SpanOk(s, loc, PhaseOf(s, k.id));
    forall b | b in loc' ensures BlockOk(s', b, loc'[b]) {
      if b in blocks {
        assert b !in s.hdr;
        NewlyUntouched(s', b, loc'[b]);
      } else {
        RegisterKeepsBlock(s, k, blocks, b, loc[b]);
      }
    }
  }

  lemma SpanStays(s: State, s': State, loc: Locs, loc': Locs, ph: Phase, blocks: seq<Addr>)
    requires ph.Carved? && SpanOk(s, loc, ph) && s'.limits == s.limits && s'.carved == s.carved
    requires forall b :: b in loc' ==> b in loc || b in blocks
    requires forall b :: b in ph.blocks ==> b !in blocks
    ensures SpanOk(s', loc', ph)
  {
    assert Limits(s', ph.cls) == Limits(s, ph.cls);
    hide Limits, IsSpan;
  }

  lemma RegisterPending(s: State, loc: Locs, k: Key, blocks: seq<Addr>)
    requires Registers(s, loc, k, blocks)
    ensures PendingOk(RegisterCarved(s, k, blocks), WithBlocks(loc, blocks, NewLoc(s, k)))
  {
    hide SpanOk;
    NewSpanOk(s, loc, k, blocks);
    var s', loc' := RegisterCarved(s, k, blocks), WithBlocks(loc, blocks, NewLoc(s, k));
    forall id ensures PhaseOf(s', id) == if id == k.id then Idle else PhaseOf(s, id) {}
    assert s'.hdr == s.hdr && s'.limits == s.limits && s'.carved == s.carved;
    hide RegisterCarved, PhaseOf, NewLoc;
    forall id | PhaseOf(s', id).Carved? ensures SpanOk(s', loc', PhaseOf(s', id)) {
      SpanStays(s, s', loc, loc', PhaseOf(s, id), blocks);
    }
  }

  lemma RegisterOneOwner(s: State, loc: Locs, k: Key, blocks: seq<Addr>)
    requires Shaped(s, loc) && OneOwner(loc) && Registers(s, loc, k, blocks)
    ensures OneOwner(WithBlocks(loc, blocks, NewLoc(s, k)))
  {
    var loc' := WithBlocks(loc, blocks, NewLoc(s, k));
    forall b, b' | SameUntouchedSlab(loc', b, b') ensures loc'[b].place == loc'[b'].place {
      if b !in blocks && b' !in blocks {
        assert SameUntouchedSlab(loc, b, b');
      }
    }
  }

  lemma RegisterArena(s: State, loc: Locs, k: Key, blocks: seq<Addr>)
    requires LimitsOk(s) && CarvedOk(s) && RegisteredOk(s, loc) && Registers(s, loc, k, blocks)
    ensures var s' := RegisterCarved(s, k, blocks);
            LimitsOk(s') && CarvedOk(s') && RegisteredOk(s', WithBlocks(loc, blocks, NewLoc(s, k)))
  {
    hide LimitsOk, CarvedOk, IsSpan;
    NewSpanOk(s, loc, k, blocks);
    ArenaPersists(s, RegisterCarved(s, k, blocks), loc);
  }

  /** Registering a carved span keeps the invariant; its blocks are new to every place. */
  lemma RegisterCarvedInv(s: State, loc: Locs, k: Key, blocks: seq<Addr>)
    requires Inv(s, loc) && Registers(s, loc, k, blocks)
    ensures Inv(RegisterCarved(s, k, blocks), WithBlocks(loc, blocks, NewLoc(s, k)))
    ensures CacheOf(RegisterCarved(s, k, blocks), k).slabs ==
            CacheOf(s, k).slabs + [FreshSlab(blocks[0], blocks)]
  {
    hide Placed, Shaped, Threaded, BlocksOk, PendingOk, OneOwner, LimitsOk, CarvedOk, RegisteredOk, SlabAt, WithBlocks;
    NewSpanOk(s, loc, k, blocks);
    RegisterIsNew(s, loc, k, blocks);
    RegisterPlaced(s, loc, k, blocks);
    RegisterShaped(s, loc, k, blocks);
    RegisterThreaded(s, k, blocks);
    RegisterBlocks(s, loc, k, blocks);
    RegisterPending(s, loc, k, blocks);
    RegisterOneOwner(s, loc, k, blocks);
    RegisterArena(s, loc, k, blocks);
    RegisterRecords(s, k, blocks, k);
    hide RegisterCarved;
  }

  // ----- Sweeping and page reclaim

  /** A hot full slab turns cold. */
  function SweepSlab(s: State, c: SizeClass, i: nat): State
    requires i < |PoolOf(s, c)|
  {
    s.(pools := s.pools[c := PoolOf(s, c)[i := PoolOf(s, c)[i].(state := FullCold)]])
  }

  /** The operating system replaces a reclaimed page: the header and link of block `b` read zero. */
  function EraseBlock(s: State, b: Addr): State {
    s.(hdr := s.hdr[b := ZERO_HEADER], link := s.link[b := 0])
  }

  /** A change that moves nothing keeps the invariant if the blocks it touches stay sound. */
  lemma StillInv(s: State, s': State, loc: Locs)
    requires Inv(s, loc)
    requires s'.limits == s.limits && s'.phases == s.phases
    requires s'.arena == s.arena && s'.next == s.next && s'.carved == s.carved
    requires forall p :: View(s')(p) == View(s)(p)
    requires forall b :: b in s'.hdr ==> b in loc
    requires Shaped(s', loc) && Threaded(s') && BlocksOk(s', loc)
    ensures Inv(s', loc)
  {
    SamePlacedBy(View(s), View(s'), loc);
    assert forall c :: Limits(s', c) == Limits(s, c);
    PendingPersists(s, s', loc, loc);
  }

  lemma SweepView(s: State, c: SizeClass, i: nat, p: Place)
    requires i < |PoolOf(s, c)| && PoolOf(s, c)[i].state == FullHot
    ensures View(SweepSlab(s, c, i))(p) == View(s)(p)
  {
    SweepContents(s, c, i, p);
    ViewAt(s, p);
    ViewAt(SweepSlab(s, c, i), p);
  }

  lemma SweepBlocks(s: State, loc: Locs, c: SizeClass, i: nat)
    requires Threaded(s) && BlocksOk(s, loc) && i < |PoolOf(s, c)| && PoolOf(s, c)[i].state == FullHot
    ensures Threaded(SweepSlab(s, c, i)) && BlocksOk(SweepSlab(s, c, i), loc)
  {
    var s' := SweepSlab(s, c, i);
    forall p | IsList(s', p) ensures Linked(s'.link, Contents(s', p)) { SweepContents(s, c, i, p); }
    forall b | b in loc ensures BlockOk(s', b, loc[b]) { assert BlockOk(s, b, loc[b]); }
  }

  lemma SweepSlabInv(s: State, loc: Locs, c: SizeClass, i: nat)
    requires Inv(s, loc) && i < |PoolOf(s, c)| && PoolOf(s, c)[i].state == FullHot
    ensures Inv(SweepSlab(s, c, i), loc)
  {
    var s' := SweepSlab(s, c, i);
    assert PoolSlabOk(s, loc, c, i);
    hide Placed, Shaped, Threaded, BlocksOk, OneOwner, CarvedOk, RegisteredOk, LimitsOk, View;
    OneSlabShape(s, s', loc, c, i, PoolOf(s, c)[i].(state := FullCold));
    SweepBlocks(s, loc, c, i);
    forall p ensures View(s')(p) == View(s)(p) { SweepView(s, c, i, p); }
    StillInv(s, s', loc);
  }

  lemma SamePlacedBy(at: Place -> multiset<Addr>, at': Place -> multiset<Addr>, loc: Locs)
    requires PlacedBy(at, loc) && forall p :: at'(p) == at(p)
    ensures PlacedBy(at', loc)
  {
    forall p, b ensures at'(p)[b] <= 1 { assert at(p)[b] <= 1; }
  }

  lemma SweepCentral(s: State, c: SizeClass, i: nat, j: nat)
    requires i < |PoolOf(s, c)| && PoolOf(s, c)[i].state == FullHot
    ensures var s', p := SweepSlab(s, c, i), Central(c, j);
            Contents(s', p) == Contents(s, p) && At(s', p) == At(s, p) && IsList(s', p) == IsList(s, p)
  {
    var pool, pool' := PoolOf(s, c), PoolOf(SweepSlab(s, c, i), c);
    assert |pool'| == |pool|;
    if j < |pool| {
      assert pool'[j] == if j == i then pool[j].(state := FullCold) else pool[j];
      assert pool'[j].Central() == pool[j].Central() && pool'[j].Full() == pool[j].Full();
    }
    hide SweepSlab, PoolSlab.Full, PoolSlab.Central, PoolOf;
  }

  lemma SweepElsewhere(s: State, c: SizeClass, i: nat, p: Place)
    requires i < |PoolOf(s, c)| && !(p.Central? && p.cls == c)
    ensures var s' := SweepSlab(s, c, i);
            Contents(s', p) == Contents(s, p) && At(s', p) == At(s, p) && IsList(s', p) == IsList(s, p)
  {
    assert SameAt(s, SweepSlab(s, c, i), p);
    hide SweepSlab;
    SameAtFacts(s, SweepSlab(s, c, i), p);
  }

  lemma SweepContents(s: State, c: SizeClass, i: nat, p: Place)
    requires i < |PoolOf(s, c)| && PoolOf(s, c)[i].state == FullHot
    ensures Contents(SweepSlab(s, c, i), p) == Contents(s, p)
    ensures At(SweepSlab(s, c, i), p) == At(s, p) && IsList(SweepSlab(s, c, i), p) == IsList(s, p)
  {
    hide PoolSlab.Full;
    if p.Central? && p.cls == c {
      SweepCentral(s, c, i, p.slab);
    } else {
      SweepElsewhere(s, c, i, p);
    }
  }

  /** Blocks whose page may be reclaimed: untouched ones, and those of cold full slabs. */
  ghost predicate Erasable(s: State, l: Loc) {
    match l.place
    case Untouched(_, _) => true
    case Central(c, i) => i < |PoolOf(s, c)| && PoolOf(s, c)[i].state == FullCold
    case _ => false
  }

  lemma EraseView(s: State, b: Addr, p: Place)
    ensures View(EraseBlock(s, b))(p) == View(s)(p)
  {
    EraseContents(s, b, p);
    ViewAt(s, p);
    ViewAt(EraseBlock(s, b), p);
  }

  /** Reclaim touches no block in use, and no link word that any list still runs through. */
  lemma EraseTouchesNothingInUse(s: State, loc: Locs, b: Addr)
    requires Placed(s, loc) && b in loc && Erasable(s, loc[b])
    ensures b !in s.live
    ensures forall p :: IsList(s, p) ==> b !in Contents(s, p)
  {
    forall p | IsList(s, p) ensures b !in Contents(s, p) {
      PlacedAt(s, loc, p);
      assert b in Contents(s, p) ==> b in At(s, p);
    }
    PlacedAt(s, loc, Live);
    assert b !in At(s, Live);
  }

  lemma EraseBlocks(s: State, loc: Locs, b: Addr)
    requires Placed(s, loc) && Threaded(s) && BlocksOk(s, loc) && b in loc && Erasable(s, loc[b])
    ensures Threaded(EraseBlock(s, b)) && BlocksOk(EraseBlock(s, b), loc)
  {
    var s' := EraseBlock(s, b);
    EraseTouchesNothingInUse(s, loc, b);
    forall p | IsList(s', p) ensures Linked(s'.link, Contents(s', p)) {
      EraseContents(s, b, p);
      LinkedFrame(s.link, s'.link, Contents(s, p));
    }
    forall x | x in loc ensures BlockOk(s', x, loc[x]) { assert BlockOk(s, x, loc[x]); }
  }

  lemma EraseShape(s: State, loc: Locs, b: Addr)
    requires Shaped(s, loc)
    ensures Shaped(EraseBlock(s, b), loc)
  {
    ShapePersists(s, EraseBlock(s, b), loc);
  }

  lemma EraseBlockInv(s: State, loc: Locs, b: Addr)
    requires Inv(s, loc) && b in loc && Erasable(s, loc[b])
    ensures Inv(EraseBlock(s, b), loc)
  {
    var s' := EraseBlock(s, b);
    assert forall x :: x in s'.hdr ==> x in loc;
    hide Placed, Shaped, Threaded, BlocksOk, PendingOk, OneOwner, CarvedOk, RegisteredOk, LimitsOk, View, Erasable;
    EraseBlocks(s, loc, b);
    EraseShape(s, loc, b);
    forall p ensures View(s')(p) == View(s)(p) { EraseView(s, b, p); }
    StillInv(s, s', loc);
  }

  lemma EraseContents(s: State, b: Addr, p: Place)
    ensures Contents(EraseBlock(s, b), p) == Contents(s, p)
    ensures At(EraseBlock(s, b), p) == At(s, p) && IsList(EraseBlock(s, b), p) == IsList(s, p)
  {
  }
}

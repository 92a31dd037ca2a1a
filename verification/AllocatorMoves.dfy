/** One lemma for every small action: moving blocks between two places keeps the invariant. */
module AllocatorMoves {
  import opened Basics
  import opened SizeClasses
  import opened Headers
  import opened PoolModel
  import opened AllocatorModel

  ghost function Relocate(loc: Locs, m: multiset<Addr>, to: Place): Locs {
    map b | b in loc :: if b in m then loc[b].(place := to) else loc[b]
  }

  /** Nothing about place `p` that the invariant looks at has changed. */
  ghost predicate SameAt(s: State, s': State, p: Place) {
    match p
    case Live => s'.live == s.live
    case Hand => s'.hand == s.hand && s'.handCls == s.handCls
    case Hot(k) => CacheOf(s', k).hot == CacheOf(s, k).hot
    case Reclaimed(k, i) =>
      && (|CacheOf(s, k).slabs| <= i < |CacheOf(s', k).slabs| ==> CacheOf(s', k).slabs[i].free == [])
      && (i < |CacheOf(s, k).slabs| ==>
            && i < |CacheOf(s', k).slabs|
            && CacheOf(s', k).slabs[i].free == CacheOf(s, k).slabs[i].free
            && CacheOf(s', k).slabs[i].blocks == CacheOf(s, k).slabs[i].blocks)
    case Untouched(k, i) =>
      && (|CacheOf(s, k).slabs| <= i < |CacheOf(s', k).slabs| ==> CacheOf(s', k).slabs[i].untouched == [])
      && (i < |CacheOf(s, k).slabs| ==>
            && i < |CacheOf(s', k).slabs|
            && CacheOf(s', k).slabs[i].untouched == CacheOf(s, k).slabs[i].untouched
            && CacheOf(s', k).slabs[i].blocks == CacheOf(s, k).slabs[i].blocks)
    case Shared(k) => CacheOf(s', k).shared == CacheOf(s, k).shared
    case Staged(k) => StagedOf(s', k) == StagedOf(s, k)
    case Inbox(c) => InboxOf(s', c) == InboxOf(s, c)
    case Central(c, i) =>
      && (i < |PoolOf(s', c)| ==> i < |PoolOf(s, c)|)
      && (i < |PoolOf(s, c)| ==> i < |PoolOf(s', c)| && PoolOf(s', c)[i] == PoolOf(s, c)[i])
  }

  lemma SameAtFacts(s: State, s': State, p: Place)
    requires SameAt(s, s', p)
    ensures Contents(s', p) == Contents(s, p) && At(s', p) == At(s, p) && IsList(s', p) == IsList(s, p)
  {
  }

  lemma SameAtRefl(s: State, p: Place)
    ensures SameAt(s, s, p)
  {
  }

  // ----- One block between places

  /** Every place but an untouched or full one keeps initialized metadata, and none but live accepts a free. */
  lemma HeaderAt(s: State, b: Addr, l: Loc)
    requires BlockOk(s, b, l) && !l.place.Live?
    ensures Rejected(Hdr(s, b))
    ensures !l.place.Untouched? && !l.place.Central? ==> Initialized(Hdr(s, b), l.cls)
    ensures l.place.Central? && l.place.slab < |PoolOf(s, l.place.cls)| && !PoolOf(s, l.place.cls)[l.place.slab].Full() ==>
              Initialized(Hdr(s, b), l.cls)
    ensures l.place.Hand? ==> s.handCls == l.cls
    ensures l.place.Hot? || l.place.Reclaimed? || l.place.Untouched? || l.place.Shared? || l.place.Staged? ==>
              l.place.key.cls == l.cls
    ensures l.place.Inbox? || l.place.Central? ==> l.place.cls == l.cls
  {
  }

  lemma SameHeader(s: State, s': State, b: Addr)
    requires s'.hdr == s.hdr
    ensures Hdr(s', b) == Hdr(s, b)
  {
  }

  /** A place whose blocks of class `c` can join a batch in hand as they are. */
  predicate HandsOver(s: State, p: Place, c: SizeClass) {
    match p
    case Hand => s.handCls == c
    case Hot(k) => k.cls == c
    case Reclaimed(k, _) => k.cls == c
    case Shared(k) => k.cls == c
    case Central(d, i) => d == c && i < |PoolOf(s, d)| && !PoolOf(s, d)[i].Full()
    case _ => false
  }

  lemma JoinsHand(s: State, s': State, b: Addr, l: Loc, c: SizeClass)
    requires BlockOk(s, b, l) && Hdr(s', b) == Hdr(s, b) && s'.handCls == c && HandsOver(s, l.place, c)
    ensures BlockOk(s', b, l.(place := Hand))
  {
  }

  /** Blocks that join the batch in hand with their headers as they were stay sound. */
  lemma IntoHand(s: State, s': State, loc: Locs, from: Place, c: SizeClass, m: multiset<Addr>)
    requires BlocksOk(s, loc) && s'.hdr == s.hdr && s'.handCls == c && HandsOver(s, from, c)
    requires forall x :: x in loc && loc[x].place == Hand ==> s.handCls == c
    requires forall x :: x in m ==> x in loc && loc[x].place == from
    ensures forall x :: x in loc && (x in m || loc[x].place == Hand) ==> BlockOk(s', x, loc[x].(place := Hand))
  {
    hide BlockOk;
    forall x | x in loc && (x in m || loc[x].place == Hand) ensures BlockOk(s', x, loc[x].(place := Hand)) {
      SameHeader(s, s', x);
      JoinsHand(s, s', x, loc[x], c);
    }
  }

  /** Blocks that stay at `p` stay sound when no header changed and `p` still suits them. */
  lemma StayAt(s: State, s': State, loc: Locs, p: Place)
    requires BlocksOk(s, loc) && s'.hdr == s.hdr
    requires match p
             case Shared(_) => true
             case Inbox(_) => true
             case Hand => s'.handCls == s.handCls
             case Reclaimed(k, i) =>
               && i < |CacheOf(s, k).slabs| && i < |CacheOf(s', k).slabs|
               && CacheOf(s', k).slabs[i].blocks == CacheOf(s, k).slabs[i].blocks
             case Central(d, i) =>
               i < |PoolOf(s, d)| && i < |PoolOf(s', d)| && !PoolOf(s, d)[i].Full()
             case _ => false
    ensures forall x :: x in loc && loc[x].place == p ==> BlockOk(s', x, loc[x])
  {
    forall x | x in loc && loc[x].place == p ensures BlockOk(s', x, loc[x]) {
      assert BlockOk(s, x, loc[x]);
    }
  }

  lemma InUntouched(s: State, b: Addr, l: Loc, k: Key, i: nat)
    requires Rejected(Hdr(s, b)) && k.cls == l.cls
    requires i < |CacheOf(s, k).slabs| && b in CacheOf(s, k).slabs[i].blocks
    ensures BlockOk(s, b, l.(place := Untouched(k, i)))
  {
  }

  /** A block that stays where it is stays sound if its header and its place's context do. */
  lemma StaysOk(s: State, s': State, b: Addr, l: Loc)
    requires BlockOk(s, b, l) && Hdr(s', b) == Hdr(s, b)
    requires l.place.Hot? || l.place.Reclaimed? || l.place.Untouched? || l.place.Shared? || l.place.Hand?
    requires l.place.Hand? ==> s'.handCls == s.handCls
    requires l.place.Reclaimed? || l.place.Untouched? ==>
               l.place.slab < |CacheOf(s, l.place.key).slabs| ==>
                 && l.place.slab < |CacheOf(s', l.place.key).slabs|
                 && CacheOf(s', l.place.key).slabs[l.place.slab].blocks == CacheOf(s, l.place.key).slabs[l.place.slab].blocks
    ensures BlockOk(s', b, l)
  {
  }

  /** A registered slab whose geometry is as it was keeps its shape. */
  lemma SlabPersists(s: State, s': State, loc: Locs, c: SizeClass, i: nat)
    requires i < |PoolOf(s, c)| && PoolSlabOk(s, loc, c, i) && i < |PoolOf(s', c)| && s'.limits == s.limits
    requires PoolOf(s', c)[i].start == PoolOf(s, c)[i].start && PoolOf(s', c)[i].blocks == PoolOf(s, c)[i].blocks
    requires PoolOf(s', c)[i].Consistent()
    ensures PoolSlabOk(s', loc, c, i)
  {
    assert Limits(s', c) == Limits(s, c);
    hide PoolOf, Limits;
  }

  /** A local record keeps its shape while its pool keeps its geometry and no other record starts where it does. */
  lemma RecordPersists(s: State, s': State, loc: Locs, k: Key, j: nat)
    requires j < |CacheOf(s, k).slabs| && LocalSlabOk(s, loc, k, j) && j < |CacheOf(s', k).slabs|
    requires CacheOf(s', k).slabs[j].start == CacheOf(s, k).slabs[j].start
    requires CacheOf(s', k).slabs[j].blocks == CacheOf(s, k).slabs[j].blocks
    requires |PoolOf(s', k.cls)| >= |PoolOf(s, k.cls)|
    requires forall i :: 0 <= i < |PoolOf(s, k.cls)| ==>
               && PoolOf(s', k.cls)[i].start == PoolOf(s, k.cls)[i].start
               && PoolOf(s', k.cls)[i].blocks == PoolOf(s, k.cls)[i].blocks
    requires forall i :: 0 <= i < |CacheOf(s', k).slabs| && CacheOf(s', k).slabs[i].start == CacheOf(s', k).slabs[j].start ==> i == j
    ensures LocalSlabOk(s', loc, k, j)
  {
    hide PoolOf, CacheOf;
  }

  /** `s'` differs from `s` only in that the blocks `m` left `from` for `to`. */
  ghost predicate Moves(s: State, s': State, from: Place, to: Place, m: multiset<Addr>) {
    && from != to
    && s'.limits == s.limits && s'.phases == s.phases
    && s'.arena == s.arena && s'.next == s.next && s'.carved == s.carved
    && (forall p :: p != from && p != to ==> SameAt(s, s', p))
    && At(s, from) == At(s', from) + m
    && At(s', to) == At(s, to) + m
    && (forall b :: b !in m ==> Hdr(s', b) == Hdr(s, b) && Next(s'.link, b) == Next(s.link, b))
    && (forall b :: b in s'.hdr ==> b in s.hdr || b in m)
  }

  /** What a move still has to show about its two ends. */
  ghost predicate EndsOk(s: State, s': State, loc: Locs, from: Place, to: Place, m: multiset<Addr>) {
    && (IsList(s', from) ==> Linked(s'.link, Contents(s', from)))
    && (IsList(s', to) ==> Linked(s'.link, Contents(s', to)))
    && (forall b :: b in loc && loc[b].place == from && b !in m ==> BlockOk(s', b, loc[b]))
    && (forall b :: b in loc && (b in m || loc[b].place == to) ==> BlockOk(s', b, loc[b].(place := to)))
  }

  lemma MovePlacesBlock(at: Place -> multiset<Addr>, at': Place -> multiset<Addr>, loc: Locs,
                        from: Place, to: Place, m: multiset<Addr>, p: Place, b: Addr)
    requires PlacedBy(at, loc) && from != to
    requires p != from && p != to ==> at'(p) == at(p)
    requires at(from) == at'(from) + m && at'(to) == at(to) + m
    ensures b in m ==> b in loc && loc[b].place == from
    ensures b in at'(p) <==> b in loc && (if b in m then to else loc[b].place) == p
    ensures at'(p)[b] <= 1
  {
    assert at(from)[b] == at'(from)[b] + m[b] && at'(to)[b] == at(to)[b] + m[b];
    assert at(from)[b] <= 1 && at(to)[b] <= 1 && at(p)[b] <= 1;
    assert b in at(from) <==> b in loc && loc[b].place == from;
    assert b in at(to) <==> b in loc && loc[b].place == to;
    assert b in at(p) <==> b in loc && loc[b].place == p;
  }

  lemma ViewAt(s: State, p: Place)
    ensures View(s)(p) == At(s, p)
  {
  }

  lemma SameView(s: State, s': State, p: Place)
    requires SameAt(s, s', p)
    ensures View(s')(p) == View(s)(p)
  {
    SameAtFacts(s, s', p);
  }

  lemma MoveKeepsPlacedBy(at: Place -> multiset<Addr>, at': Place -> multiset<Addr>, loc: Locs,
                          from: Place, to: Place, m: multiset<Addr>)
    requires PlacedBy(at, loc) && from != to
    requires forall p :: p != from && p != to ==> at'(p) == at(p)
    requires at(from) == at'(from) + m && at'(to) == at(to) + m
    ensures PlacedBy(at', Relocate(loc, m, to))
    ensures forall b :: b in m ==> b in loc && loc[b].place == from
  {
    var loc' := Relocate(loc, m, to);
    forall p, b ensures b in at'(p) <==> b in loc' && loc'[b].place == p {
      MovePlacesBlock(at, at', loc, from, to, m, p, b);
    }
    forall p, b ensures at'(p)[b] <= 1 {
      MovePlacesBlock(at, at', loc, from, to, m, p, b);
    }
    forall b | b in m ensures b in loc && loc[b].place == from {
      MovePlacesBlock(at, at', loc, from, to, m, from, b);
    }
  }

  lemma MoveKeepsPlaced(s: State, s': State, loc: Locs, from: Place, to: Place, m: multiset<Addr>)
    requires Placed(s, loc) && Moves(s, s', from, to, m)
    ensures Placed(s', Relocate(loc, m, to))
    ensures forall b :: b in m ==> b in loc && loc[b].place == from
  {
    forall p | p != from && p != to ensures View(s')(p) == View(s)(p) { SameView(s, s', p); }
    ViewAt(s, from); ViewAt(s', from);
    ViewAt(s, to); ViewAt(s', to);
    MoveKeepsPlacedBy(View(s), View(s'), loc, from, to, m);
  }

  lemma UnmovedElsewhere(s: State, s': State, loc: Locs, from: Place, to: Place, m: multiset<Addr>, p: Place)
    requires Placed(s, loc) && Moves(s, s', from, to, m)
    requires p != from && !p.Live?
    ensures SameLinks(s.link, s'.link, Contents(s, p))
  {
    PlacedAt(s, loc, p);
    PlacedAt(s, loc, from);
    forall b | b in Contents(s, p) ensures Next(s'.link, b) == Next(s.link, b) {
      assert b in At(s, p);
      assert b in m ==> b in At(s, from);
    }
  }

  lemma MoveKeepsThreaded(s: State, s': State, loc: Locs, from: Place, to: Place, m: multiset<Addr>)
    requires Placed(s, loc) && Threaded(s) && Moves(s, s', from, to, m) && EndsOk(s, s', loc, from, to, m)
    ensures Threaded(s')
  {
    forall p | IsList(s', p)
      ensures Linked(s'.link, Contents(s', p))
    {
      if p != from && p != to {
        assert SameAt(s, s', p);
        SameAtFacts(s, s', p);
        UnmovedElsewhere(s, s', loc, from, to, m, p);
        LinkedFrame(s.link, s'.link, Contents(s, p));
      }
    }
  }

  lemma UntouchedStaysOk(s: State, s': State, b: Addr, l: Loc)
    requires BlockOk(s, b, l) && SameAt(s, s', l.place) && Hdr(s', b) == Hdr(s, b)
    ensures BlockOk(s', b, l)
  {
  }

  lemma MoveKeepsBlocks(s: State, s': State, loc: Locs, from: Place, to: Place, m: multiset<Addr>)
    requires Placed(s, loc) && BlocksOk(s, loc) && Moves(s, s', from, to, m) && EndsOk(s, s', loc, from, to, m)
    ensures BlocksOk(s', Relocate(loc, m, to))
  {
    hide Placed, BlockOk, SameAt;
    var loc' := Relocate(loc, m, to);
    forall b | b in loc' ensures BlockOk(s', b, loc'[b]) {
      if b !in m && loc[b].place != from && loc[b].place != to {
        UntouchedStaysOk(s, s', b, loc[b]);
      }
    }
  }

  lemma RelocateKeepsShape(s: State, loc: Locs, m: multiset<Addr>, to: Place)
    requires Shaped(s, loc)
    ensures Shaped(s, Relocate(loc, m, to))
  {
    var loc' := Relocate(loc, m, to);
    forall c, i | 0 <= i < |PoolOf(s, c)| ensures PoolSlabOk(s, loc', c, i) {
      assert PoolSlabOk(s, loc, c, i);
    }
    forall k, i | 0 <= i < |CacheOf(s, k).slabs| ensures LocalSlabOk(s, loc', k, i) {
      assert LocalSlabOk(s, loc, k, i);
    }
  }

  lemma MoveKeepsPending(s: State, s': State, loc: Locs, from: Place, to: Place, m: multiset<Addr>)
    requires Placed(s, loc) && PendingOk(s, loc) && Moves(s, s', from, to, m)
    ensures PendingOk(s', Relocate(loc, m, to))
  {
    MoveKeepsPlaced(s, s', loc, from, to, m);
    PendingPersists(s, s', loc, Relocate(loc, m, to));
  }

  lemma PendingPersists(s: State, s': State, loc: Locs, loc': Locs)
    requires PendingOk(s, loc) && loc'.Keys == loc.Keys
    requires s'.limits == s.limits && s'.phases == s.phases && s'.carved == s.carved
    requires forall b :: b in s'.hdr ==> b in loc
    ensures PendingOk(s', loc')
  {
    forall id
      ensures PhaseOf(s', id) == PhaseOf(s, id)
      ensures PhaseOf(s, id).Carved? ==> Limits(s', PhaseOf(s, id).cls) == Limits(s, PhaseOf(s, id).cls)
    {
    }
  }

  lemma MoveKeepsOwner(loc: Locs, m: multiset<Addr>, to: Place)
    requires OneOwner(loc) && (to.Untouched? ==> OneOwner(Relocate(loc, m, to)))
    ensures OneOwner(Relocate(loc, m, to))
  {
    var loc' := Relocate(loc, m, to);
    if !to.Untouched? {
      forall b, b' | SameUntouchedSlab(loc', b, b') ensures loc'[b].place == loc'[b'].place {
        assert SameUntouchedSlab(loc, b, b');
      }
    }
  }

  /** What the invariant says about the arena survives while the arena is as it was. */
  lemma ArenaPersists(s: State, s': State, loc: Locs)
    requires LimitsOk(s) && CarvedOk(s) && RegisteredOk(s, loc)
    requires s'.limits == s.limits && s'.arena == s.arena && s'.next == s.next && s'.carved == s.carved
    ensures LimitsOk(s') && CarvedOk(s') && RegisteredOk(s', loc)
  {
    forall c ensures Limits(s', c) == Limits(s, c) {}
    hide Limits, ClassLimits.Valid;
  }

  lemma RelocateRegistered(s: State, loc: Locs, m: multiset<Addr>, to: Place)
    requires RegisteredOk(s, loc)
    ensures RegisteredOk(s, Relocate(loc, m, to))
  {
  }

  /** A move whose two ends are sound keeps the whole invariant. */
  lemma MoveKeepsInv(s: State, s': State, loc: Locs, from: Place, to: Place, m: multiset<Addr>)
    requires Inv(s, loc) && Moves(s, s', from, to, m) && EndsOk(s, s', loc, from, to, m)
    requires Shaped(s', loc)
    requires to.Untouched? ==> OneOwner(Relocate(loc, m, to))
    ensures Inv(s', Relocate(loc, m, to))
  {
    hide Placed, Threaded, BlocksOk, OneOwner, PendingOk, EndsOk, Shaped, LimitsOk, CarvedOk, RegisteredOk, Relocate;
    MoveKeepsPlaced(s, s', loc, from, to, m);
    MoveKeepsThreaded(s, s', loc, from, to, m);
    MoveKeepsBlocks(s, s', loc, from, to, m);
    RelocateKeepsShape(s', loc, m, to);
    MoveKeepsPending(s, s', loc, from, to, m);
    MoveKeepsOwner(loc, m, to);
    ArenaPersists(s, s', loc);
    RelocateRegistered(s', loc, m, to);
  }

  /** One slab of one pool changes, but not its geometry. */
  lemma OneSlabShape(s: State, s': State, loc: Locs, c: SizeClass, i: nat, slab: PoolSlab)
    requires Shaped(s, loc) && i < |PoolOf(s, c)|
    requires s'.limits == s.limits && s'.caches == s.caches && s'.pools == s.pools[c := PoolOf(s, c)[i := slab]]
    requires slab.start == PoolOf(s, c)[i].start && slab.blocks == PoolOf(s, c)[i].blocks && slab.Consistent()
    ensures Shaped(s', loc)
  {
    forall d, j | 0 <= j < |PoolOf(s', d)| ensures PoolSlabOk(s', loc, d, j) {
      assert PoolSlabOk(s, loc, d, j);
      assert Limits(s', d) == Limits(s, d);
    }
    forall k, j | 0 <= j < |CacheOf(s', k).slabs| ensures LocalSlabOk(s', loc, k, j) {
      assert LocalSlabOk(s, loc, k, j);
    }
  }

  /** Slab records only grow: what `Shaped` says survives when geometry and start addresses persist. */
  lemma ShapePersists(s: State, s': State, loc: Locs)
    requires Shaped(s, loc)
    requires s'.limits == s.limits
    requires forall c :: |PoolOf(s', c)| == |PoolOf(s, c)|
    requires forall c, i :: 0 <= i < |PoolOf(s, c)| ==>
               || PoolOf(s', c)[i] == PoolOf(s, c)[i]
               || (&& PoolOf(s', c)[i].start == PoolOf(s, c)[i].start
                   && PoolOf(s', c)[i].blocks == PoolOf(s, c)[i].blocks
                   && PoolOf(s', c)[i].Consistent())
    requires forall k :: |CacheOf(s', k).slabs| == |CacheOf(s, k).slabs|
    requires forall k, i :: 0 <= i < |CacheOf(s, k).slabs| ==>
               && CacheOf(s', k).slabs[i].start == CacheOf(s, k).slabs[i].start
               && CacheOf(s', k).slabs[i].blocks == CacheOf(s, k).slabs[i].blocks
    ensures Shaped(s', loc)
  {
    forall c, i | 0 <= i < |PoolOf(s', c)| ensures PoolSlabOk(s', loc, c, i) {
      assert PoolSlabOk(s, loc, c, i);
      assert Limits(s', c) == Limits(s, c);
    }
    forall k, i | 0 <= i < |CacheOf(s', k).slabs| ensures LocalSlabOk(s', loc, k, i) {
      assert LocalSlabOk(s, loc, k, i);
    }
  }
}

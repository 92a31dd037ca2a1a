/** Every small action keeps the invariant: each is a move between two places. */
module AllocatorActions {
  import opened Basics
  import opened Chains
  import opened CacheModel
  import opened AllocatorModel
  import opened AllocatorMoves

  lemma FreeToStagedElsewhere(s: State, k: Key, b: Addr, p: Place)
    requires b in s.live
    requires p != Live && p != Staged(k)
    ensures SameAt(s, FreeToStaged(s, k, b), p)
  {
  }

  lemma FreeToStagedMoves(s: State, k: Key, b: Addr)
    requires b in s.live
    ensures Moves(s, FreeToStaged(s, k, b), Live, Staged(k), multiset{b})
  {
    hide SameAt;
    var s' := FreeToStaged(s, k, b);
    forall p | p != Live && p != Staged(k) ensures SameAt(s, s', p) { FreeToStagedElsewhere(s, k, b, p); }
    LiveLoses(s, s', b);
    assert At(s', Staged(k)) == At(s, Staged(k)) + multiset{b};
  }

  lemma FreeToStagedLinks(s: State, k: Key, b: Addr, loc: Locs)
    requires Placed(s, loc) && Threaded(s) && b in s.live
    ensures var s' := FreeToStaged(s, k, b); Linked(s'.link, Contents(s', Staged(k)))
    ensures b in loc && loc[b].place == Live
  {
    hide Placed;
    PlacedAt(s, loc, Live);
    PlacedAt(s, loc, Staged(k));
    assert b in At(s, Live) && b !in At(s, Staged(k));
    assert IsList(s, Staged(k));
    PushLinked(s.link, b, StagedOf(s, k));
  }

  lemma StillLive(s: State, k: Key, b: Addr, x: Addr, l: Loc)
    requires BlockOk(s, x, l) && l.place == Live && x != b
    ensures BlockOk(FreeToStaged(s, k, b), x, l)
  {
  }

  /** A freed block keeps its metadata and is marked, so it suits the staging list. */
  lemma StagedBlock(s: State, k: Key, b: Addr, x: Addr, l: Loc)
    requires BlockOk(s, x, l) && (l.place == Staged(k) || (l.place == Live && x == b && s.live[b].cls == k.cls))
    ensures BlockOk(FreeToStaged(s, k, b), x, l.(place := Staged(k)))
  {
  }

  lemma FreeToStagedEnds(s: State, k: Key, b: Addr, loc: Locs)
    requires Placed(s, loc) && BlocksOk(s, loc) && Threaded(s) && b in s.live && s.live[b].cls == k.cls
    ensures EndsOk(s, FreeToStaged(s, k, b), loc, Live, Staged(k), multiset{b})
  {
    hide Placed, Threaded, BlockOk, Linked, Hdr;
    var s' := FreeToStaged(s, k, b);
    FreeToStagedLinks(s, k, b, loc);
    PlacedAt(s, loc, Live);
    forall x | x in loc && loc[x].place == Live && x != b ensures BlockOk(s', x, loc[x]) {
      assert x in At(s, Live);
      StillLive(s, k, b, x, loc[x]);
    }
    forall x | x in loc && (x == b || loc[x].place == Staged(k)) ensures BlockOk(s', x, loc[x].(place := Staged(k))) {
      StagedBlock(s, k, b, x, loc[x]);
    }
  }

  /** A live block is staged for the central inbox. */
  lemma FreeToStagedInv(s: State, k: Key, b: Addr, loc: Locs)
    requires Inv(s, loc) && b in s.live && s.live[b].cls == k.cls
    ensures Inv(FreeToStaged(s, k, b), Relocate(loc, multiset{b}, Staged(k)))
  {
    hide Placed, Shaped, Threaded, BlocksOk, PendingOk, OneOwner, CarvedOk, RegisteredOk, LimitsOk, Moves, EndsOk;
    FreeToStagedMoves(s, k, b);
    FreeToStagedEnds(s, k, b, loc);
    ShapePersists(s, FreeToStaged(s, k, b), loc);
    MoveKeepsInv(s, FreeToStaged(s, k, b), loc, Live, Staged(k), multiset{b});
  }

  // ----- Freeing

  /** A spill grows one list: the home slab's, or the shared one. */
  lemma SpillIs(c: ClassCache, b: Addr)
    ensures var i := HomeOf(c.slabs, b);
            Spill(c, b) == if i < |c.slabs| then c.(slabs := c.slabs[i := c.slabs[i].(free := [b] + c.slabs[i].free)])
                           else c.(shared := [b] + c.shared)
  {
  }

  lemma SpillHotElsewhere(s: State, k: Key, p: Place)
    requires CacheOf(s, k).hot.Some?
    requires p != Hot(k) && p != SpillPlace(s, k)
    ensures SameAt(s, SpillHot(s, k), p)
  {
    hide Spill, HomeOf;
    var c, b := CacheOf(s, k), CacheOf(s, k).hot.value;
    SpillIs(c.(hot := None), b);
    assert CacheOf(SpillHot(s, k), k) == Spill(c.(hot := None), b);
  }

  lemma SpillHotContents(s: State, k: Key)
    requires CacheOf(s, k).hot.Some?
    ensures var s', to, b := SpillHot(s, k), SpillPlace(s, k), CacheOf(s, k).hot.value;
            && At(s, Hot(k)) == At(s', Hot(k)) + multiset{b} && At(s', to) == At(s, to) + multiset{b} && to != Hot(k)
            && (forall x :: x != b ==> Next(s'.link, x) == Next(s.link, x))
  {
    hide HomeOf;
    var to := SpillPlace(s, k);
    assert Contents(SpillHot(s, k), to) == [CacheOf(s, k).hot.value] + Contents(s, to);
  }

  lemma SpillHotMoves(s: State, k: Key)
    requires CacheOf(s, k).hot.Some?
    ensures Moves(s, SpillHot(s, k), Hot(k), SpillPlace(s, k), multiset{CacheOf(s, k).hot.value})
  {
    hide SameAt, HomeOf;
    var s', to, b := SpillHot(s, k), SpillPlace(s, k), CacheOf(s, k).hot.value;
    forall p | p != Hot(k) && p != to ensures SameAt(s, s', p) { SpillHotElsewhere(s, k, p); }
    SpillHotContents(s, k);
    assert s'.(caches := s.caches, link := s.link) == s;
    hide SpillHot, SpillPlace, Contents, CacheOf;
  }

  /** Where the previous hot block is spilled to. */
  function SpillPlace(s: State, k: Key): Place {
    var c := CacheOf(s, k);
    if c.hot.Some? && HomeOf(c.slabs, c.hot.value) < |c.slabs| then Reclaimed(k, HomeOf(c.slabs, c.hot.value))
    else Shared(k)
  }

  lemma SpillHotEnds(s: State, k: Key, loc: Locs)
    requires Placed(s, loc) && BlocksOk(s, loc) && Threaded(s) && CacheOf(s, k).hot.Some?
    ensures EndsOk(s, SpillHot(s, k), loc, Hot(k), SpillPlace(s, k), multiset{CacheOf(s, k).hot.value})
  {
    hide Placed, Linked, BlockOk, HomeOf, Hdr;
    var s', to, b := SpillHot(s, k), SpillPlace(s, k), CacheOf(s, k).hot.value;
    SpillHotLinks(s, k, loc);
    PlacedAt(s, loc, Hot(k));
    forall x | x in loc && (x == b || loc[x].place == to) ensures BlockOk(s', x, loc[x].(place := to)) {
      assert x == b ==> x in At(s, Hot(k));
      SpilledBlock(s, k, x, loc[x]);
    }
    forall x | x in loc && loc[x].place == Hot(k) ensures x == b { assert x in At(s, Hot(k)); }
  }

  lemma SpillHotLinks(s: State, k: Key, loc: Locs)
    requires Placed(s, loc) && Threaded(s) && CacheOf(s, k).hot.Some?
    ensures CacheOf(s, k).hot.value in loc && loc[CacheOf(s, k).hot.value].place == Hot(k)
    ensures var s' := SpillHot(s, k); Linked(s'.link, Contents(s', SpillPlace(s, k)))
  {
    hide Placed, Linked;
    var b, to := CacheOf(s, k).hot.value, SpillPlace(s, k);
    PlacedAt(s, loc, Hot(k));
    PlacedAt(s, loc, to);
    assert b in At(s, Hot(k)) && b !in At(s, to);
    assert IsList(s, to);
    PushLinked(s.link, b, Contents(s, to));
  }

  /** The previous hot block suits the place it is spilled to, and so do the blocks already there. */
  lemma SpilledBlock(s: State, k: Key, b: Addr, l: Loc)
    requires BlockOk(s, b, l) && CacheOf(s, k).hot.Some?
    requires l.place == SpillPlace(s, k) || (l.place == Hot(k) && b == CacheOf(s, k).hot.value)
    ensures BlockOk(SpillHot(s, k), b, l.(place := SpillPlace(s, k)))
  {
  }

  lemma SpillHotInv(s: State, k: Key, loc: Locs)
    requires Inv(s, loc) && CacheOf(s, k).hot.Some?
    ensures Inv(SpillHot(s, k), Relocate(loc, multiset{CacheOf(s, k).hot.value}, SpillPlace(s, k)))
  {
    hide Placed, Shaped, Threaded, BlocksOk, PendingOk, OneOwner, CarvedOk, RegisteredOk, LimitsOk, Moves, EndsOk;
    SpillHotMoves(s, k);
    SpillHotEnds(s, k, loc);
    ShapePersists(s, SpillHot(s, k), loc);
    MoveKeepsInv(s, SpillHot(s, k), loc, Hot(k), SpillPlace(s, k), multiset{CacheOf(s, k).hot.value});
  }

  lemma FreeToHotElsewhere(s: State, k: Key, b: Addr, p: Place)
    requires b in s.live && CacheOf(s, k).hot.None?
    requires p != Live && p != Hot(k)
    ensures SameAt(s, FreeToHot(s, k, b), p)
  {
  }

  lemma FreeToHotMoves(s: State, k: Key, b: Addr)
    requires b in s.live && CacheOf(s, k).hot.None?
    ensures Moves(s, FreeToHot(s, k, b), Live, Hot(k), multiset{b})
  {
    hide SameAt;
    var s' := FreeToHot(s, k, b);
    forall p | p != Live && p != Hot(k) ensures SameAt(s, s', p) { FreeToHotElsewhere(s, k, b, p); }
    LiveLoses(s, s', b);
    assert HotSeq(CacheOf(s, k)) == [] && HotSeq(CacheOf(s', k)) == [b];
    assert At(s', Hot(k)) == At(s, Hot(k)) + multiset{b};
  }

  lemma LiveLoses(s: State, s': State, b: Addr)
    requires b in s.live && s'.live == s.live - {b}
    ensures At(s, Live) == At(s', Live) + multiset{b}
  {
    assert s.live.Keys == s'.live.Keys + {b};
  }

  lemma FreeToHotEnds(s: State, k: Key, b: Addr, loc: Locs)
    requires Placed(s, loc) && BlocksOk(s, loc)
    requires b in s.live && s.live[b].cls == k.cls && s.live[b].owner == k.id && CacheOf(s, k).hot.None?
    ensures EndsOk(s, FreeToHot(s, k, b), loc, Live, Hot(k), multiset{b})
  {
    var s' := FreeToHot(s, k, b);
    PlacedAt(s, loc, Live);
    PlacedAt(s, loc, Hot(k));
    assert b in At(s, Live);
    forall x | x in loc && loc[x].place == Live && x != b ensures BlockOk(s', x, loc[x]) {
      assert BlockOk(s, x, loc[x]);
    }
    forall x | x in loc && (x == b || loc[x].place == Hot(k)) ensures BlockOk(s', x, loc[x].(place := Hot(k))) {
      assert BlockOk(s, x, loc[x]);
      assert x in At(s, Live) || x in At(s, Hot(k));
    }
  }

  lemma FreeToHotInv(s: State, k: Key, b: Addr, loc: Locs)
    requires Inv(s, loc)
    requires b in s.live && s.live[b].cls == k.cls && s.live[b].owner == k.id && CacheOf(s, k).hot.None?
    ensures Inv(FreeToHot(s, k, b), Relocate(loc, multiset{b}, Hot(k)))
  {
    hide Placed, Shaped, Threaded, BlocksOk, PendingOk, OneOwner, CarvedOk, RegisteredOk, LimitsOk, Moves, EndsOk;
    FreeToHotMoves(s, k, b);
    FreeToHotEnds(s, k, b, loc);
    ShapePersists(s, FreeToHot(s, k, b), loc);
    MoveKeepsInv(s, FreeToHot(s, k, b), loc, Live, Hot(k), multiset{b});
  }

  lemma FlushStagedElsewhere(s: State, k: Key, p: Place)
    requires StagedOf(s, k) != []
    requires p != Staged(k) && p != Inbox(k.cls)
    ensures SameAt(s, FlushStaged(s, k), p)
  {
  }

  lemma FlushStagedMoves(s: State, k: Key)
    ensures Moves(s, FlushStaged(s, k), Staged(k), Inbox(k.cls), multiset(StagedOf(s, k)))
  {
    hide SameAt;
    var s', batch := FlushStaged(s, k), StagedOf(s, k);
    if batch != [] {
      forall p | p != Staged(k) && p != Inbox(k.cls) ensures SameAt(s, s', p) { FlushStagedElsewhere(s, k, p); }
      assert At(s, Staged(k)) == At(s', Staged(k)) + multiset(batch);
      assert At(s', Inbox(k.cls)) == At(s, Inbox(k.cls)) + multiset(batch);
      assert batch[|batch| - 1] in multiset(batch);
    } else {
      forall p ensures SameAt(s, s', p) { SameAtRefl(s, p); }
    }
  }

  lemma FlushStagedEnds(s: State, k: Key, loc: Locs)
    requires Placed(s, loc) && BlocksOk(s, loc) && Threaded(s)
    ensures EndsOk(s, FlushStaged(s, k), loc, Staged(k), Inbox(k.cls), multiset(StagedOf(s, k)))
  {
    hide Placed, Linked, BlockOk, Hdr;
    var s', batch := FlushStaged(s, k), StagedOf(s, k);
    FlushStagedLinks(s, k, loc);
    PlacedAt(s, loc, Staged(k));
    assert s'.hdr == s.hdr;
    forall x | x in loc && loc[x].place == Staged(k) ensures x in multiset(batch) {
      assert x in At(s, Staged(k));
    }
    forall x | x in loc && (x in multiset(batch) || loc[x].place == Inbox(k.cls))
      ensures BlockOk(s', x, loc[x].(place := Inbox(k.cls)))
    {
      assert x in multiset(batch) ==> x in At(s, Staged(k));
      SameHeader(s, s', x);
      IntoInbox(s, s', x, loc[x], k);
    }
  }

  lemma IntoInbox(s: State, s': State, b: Addr, l: Loc, k: Key)
    requires BlockOk(s, b, l) && Hdr(s', b) == Hdr(s, b) && (l.place == Staged(k) || l.place == Inbox(k.cls))
    ensures BlockOk(s', b, l.(place := Inbox(k.cls)))
  {
  }

  lemma FlushStagedLinks(s: State, k: Key, loc: Locs)
    requires Placed(s, loc) && Threaded(s)
    ensures var s' := FlushStaged(s, k);
            Linked(s'.link, Contents(s', Staged(k))) && Linked(s'.link, Contents(s', Inbox(k.cls)))
  {
    hide Placed;
    var batch, inbox := StagedOf(s, k), InboxOf(s, k.cls);
    PlacedAt(s, loc, Staged(k));
    PlacedAt(s, loc, Inbox(k.cls));
    assert IsList(s, Staged(k)) && IsList(s, Inbox(k.cls));
    if batch != [] {
      assert forall b :: multiset(batch)[b] == At(s, Staged(k))[b];
      OnceIsNoDup(batch);
      var last := batch[|batch| - 1];
      assert last in At(s, Staged(k)) && last !in At(s, Inbox(k.cls));
      SpliceLinked(s.link, batch, inbox);
    }
  }

  lemma FlushStagedInv(s: State, k: Key, loc: Locs)
    requires Inv(s, loc)
    ensures Inv(FlushStaged(s, k), Relocate(loc, multiset(StagedOf(s, k)), Inbox(k.cls)))
  {
    hide Placed, Shaped, Threaded, BlocksOk, PendingOk, OneOwner, CarvedOk, RegisteredOk, LimitsOk, Moves, EndsOk;
    FlushStagedMoves(s, k);
    FlushStagedEnds(s, k, loc);
    ShapePersists(s, FlushStaged(s, k), loc);
    MoveKeepsInv(s, FlushStaged(s, k), loc, Staged(k), Inbox(k.cls), multiset(StagedOf(s, k)));
  }
}

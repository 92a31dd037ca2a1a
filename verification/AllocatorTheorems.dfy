/** The main results about every reachable state and every run of the allocator. */
module AllocatorTheorems {
  import opened Basics
  import opened SizeClasses
  import opened Headers
  import opened CacheModel
  import opened PoolModel
  import opened AllocatorModel
  import opened DrainActions
  import opened RefillActions
  import opened AllocatorSteps
  import opened AllocatorInvariant
  import opened AllocatorSafety
  import opened AllocatorRuns
  import opened AllocatorEffects
  import opened AllocatorFrames
  import Arena
  import FreeLists

  // ----- Each small block is in exactly one place

  ghost predicate Registered(s: State, c: SizeClass, b: Addr) {
    exists i :: 0 <= i < |PoolOf(s, c)| && b in PoolOf(s, c)[i].blocks
  }

  ghost predicate OnlyAt(s: State, b: Addr, p: Place) {
    At(s, p)[b] == 1 && forall q :: b in At(s, q) ==> q == p
  }

  /** In every interleaving, each block of each registered slab is in exactly one place, once. */
  lemma ExactlyOnePlace(s: State, c: SizeClass, b: Addr)
    requires Reachable(s) && Registered(s, c, b)
    ensures exists p :: OnlyAt(s, b, p)
  {
    var loc := ReachableInv(s);
    var i :| 0 <= i < |PoolOf(s, c)| && b in PoolOf(s, c)[i].blocks;
    assert PoolSlabOk(s, loc, c, i);
    var p := loc[b].place;
    PlacedAt(s, loc, p);
    assert At(s, p)[b] == 1;
    forall q | b in At(s, q) ensures q == p { PlacedAt(s, loc, q); }
    assert OnlyAt(s, b, p);
  }

  /** And a block found anywhere is a block of exactly one registered slab. */
  lemma OnlyRegisteredBlocks(s: State, p: Place, b: Addr)
    requires Reachable(s) && b in At(s, p)
    ensures exists c :: Registered(s, c, b)
    ensures forall c, c' :: Registered(s, c, b) && Registered(s, c', b) ==> c == c'
  {
    hide Placed, Threaded, BlocksOk, PendingOk, OneOwner, CarvedOk, RegisteredOk, LimitsOk, Bounded, PhasesOk, Reachable, At;
    var loc := ReachableInv(s);
    PlacedAt(s, loc, p);
    assert Registered(s, loc[b].cls, b);
    forall c | Registered(s, c, b) ensures c == loc[b].cls {
      var i :| 0 <= i < |PoolOf(s, c)| && b in PoolOf(s, c)[i].blocks;
      assert PoolSlabOk(s, loc, c, i);
    }
  }

  /** No step loses a registered block: it is still registered, and so still in exactly one place. */
  lemma NoStepLosesABlock(s: State, l: Label, s': State, c: SizeClass, b: Addr)
    requires Reachable(s) && Step(s, l, s') && Registered(s, c, b)
    ensures Registered(s', c, b) && exists p :: OnlyAt(s', b, p)
  {
    var loc := ReachableInv(s);
    StepGrows(s, loc, l, s');
    var i :| 0 <= i < |PoolOf(s, c)| && b in PoolOf(s, c)[i].blocks;
    assert PoolGrows(PoolOf(s, c), PoolOf(s', c));
    assert b in PoolOf(s', c)[i].blocks;
    StepReachable(s, l, s');
    ExactlyOnePlace(s', c, b);
  }

  // ----- What the program is given and gives back

  /**
   The ledger of the program's blocks. An allocation that reaches a block adds one that was
   not live, under a header equal to a full rewrite for its class, request and cache,
   whatever path the block took; an accepted free removes exactly its block; nothing else
   changes what is live.
   */
  lemma LiveLedger(s: State, l: Label, s': State)
    requires Reachable(s) && Step(s, l, s')
    ensures l.AllocHit? || l.AllocBatch? || l.AllocSlab? ==>
              exists b :: Issues(s, s', Key(l.id, RequestClass(l.requested)), l.requested, b)
    ensures l.RegisterSpan? ==>
              exists b :: Issues(s, s', Key(l.id, PhaseOf(s, l.id).cls), PhaseOf(s, l.id).requested, b)
    ensures l.Free? ==> s'.live == if FreeCheck(s, l.block, l.expected).Ok? then s.live - {l.block} else s.live
    ensures !(l.AllocHit? || l.AllocBatch? || l.AllocSlab? || l.RegisterSpan? || l.Free?) ==> s'.live == s.live
  {
    hide Placed, Shaped, Threaded, BlocksOk, PendingOk, OneOwner, CarvedOk, RegisteredOk, LimitsOk, Bounded, PhasesOk, Reachable;
    var loc := ReachableInv(s);
    if l.AllocHit? || l.AllocBatch? || l.AllocSlab? {
      var b := AllocIssues(s, loc, l);
    } else if l.RegisterSpan? {
      var b := RegisterIssues(s, loc, l.id);
    } else if l.Free? {
      FreeFrame(s, l);
    } else if l.DrainLocal? {
      var k := Key(l.id, l.cls);
      DrainSourceExists(CacheOf(s, k));
      DrainToFrame(s, k, l.src, Total(CacheOf(s, k)));
    } else if l.AllocMiss? {
      DrainInboxFrame(s, RequestClass(l.requested));
    }
  }

  /** Every live block keeps the header of its request until it is freed, and the payload fits its own block. */
  lemma LiveBlocksAreSound(s: State, b: Addr, b': Addr)
    requires Reachable(s) && b in s.live
    ensures var r := s.live[b];
            && Hdr(s, b) == WriteSmall(r.cls, r.requested, r.owner)
            && Validate(Hdr(s, b)) == Ok(Small(r.cls)) && Hdr(s, b).tail == ZERO_TAIL
            && b + HEADER_SIZE + r.requested <= b + Limits(s, r.cls).blockSize <= s.arena.base + s.arena.len
    ensures b' in s.live && b < b' ==> b + Limits(s, s.live[b].cls).blockSize <= b'
  {
    var loc := ReachableInv(s);
    BlockStanding(s, loc, b);
    BlockStanding(s, loc, b');
    var r := s.live[b];
    SmallRoundTrip(r.cls, r.requested, r.owner);
    assert Limits(s, r.cls).blockSize >= HEADER_SIZE + Payload(r.cls);
  }

  lemma LiveIsCarved(s: State, b: Addr)
    requires Reachable(s) && b in s.live
    ensures b in s.carved && s.carved[b] == s.live[b].cls
  {
    hide Placed, Shaped, Threaded, BlocksOk, PendingOk, OneOwner, CarvedOk, LimitsOk, Bounded, PhasesOk, Reachable, Hdr, Limits;
    var loc := ReachableInv(s);
    BlockStanding(s, loc, b);
  }

  /** Every live block starts at a multiple of 64. */
  lemma BlockIsAligned(s: State, b: Addr)
    requires Reachable(s) && b in s.live
    ensures b % HEADER_ALIGNMENT == 0
  {
    hide Placed, Shaped, Threaded, BlocksOk, PendingOk, OneOwner, CarvedOk, LimitsOk, Bounded, PhasesOk, Reachable, Hdr, Limits;
    var loc := ReachableInv(s);
    BlockStanding(s, loc, b);
    assert b in s.carved;
    CarvedIsAligned(s, b);
  }

  /** On every block start ever carved, comparing marker words decides whether the block was freed. */
  lemma MarkerWordsAreExact(s: State, b: Addr)
    requires Reachable(s) && b in s.carved
    ensures b < 0x1_0000_0000_0000_0000
    ensures MarkerWord(Hdr(s, b).marker, b as bv64) == SmallFreeMarkerFor(b as bv64) <==> Hdr(s, b).marker == Freed
  {
    hide Placed, Shaped, Threaded, BlocksOk, PendingOk, OneOwner, Bounded, PhasesOk, Reachable, Hdr, Limits, SmallFreeMarkerFor;
    var loc := ReachableInv(s);
    CarvedIsAligned(s, b);
    assert b < s.arena.base + s.arena.len;
    MarkedFreedIsFlag(Hdr(s, b), b);
  }

  /**
   Freeing is exact on block starts: it is accepted for a live block, through any cache,
   unless a wrong size is given; for any other block it is refused, as a double free exactly
   when its header still decodes, and nothing changes.
   */
  lemma FreeIsExact(s: State, l: Label, s': State)
    requires Reachable(s) && l.Free? && Step(s, l, s')
    ensures FreeCheck(s, l.block, l.expected).Ok? <==>
            l.block in s.live && (l.expected.Some? ==> l.expected.value == s.live[l.block].requested)
    ensures l.block in s.live && l.expected.Some? && l.expected.value != s.live[l.block].requested ==>
              FreeCheck(s, l.block, l.expected) == Err(SizeMismatch(l.expected.value, s.live[l.block].requested))
    ensures l.block !in s.live ==>
              FreeCheck(s, l.block, l.expected) == if Validate(Hdr(s, l.block)).Ok? then Err(DoubleFree) else Err(CorruptHeader)
    ensures FreeCheck(s, l.block, l.expected).Err? ==> s' == s
    ensures FreeCheck(s, l.block, l.expected).Ok? ==> l.block !in s'.live && s'.live == s.live - {l.block}
  {
    var loc := ReachableInv(s);
    FreeCheckExact(s, loc, l.block, l.expected);
    FreeFrame(s, l);
  }

  // ----- Lists in shared memory

  /** No block starts at the null address. */
  lemma BlockIsNotNull(s: State, loc: Locs, b: Addr)
    requires LimitsOk(s) && CarvedOk(s) && RegisteredOk(s, loc) && b in loc
    ensures b > 0
  {
    assert Arena.ContainsBlockStart(s.arena, b);
  }

  /**
   All intrusive lists run through one link memory at once: each is a duplicate-free chain
   of its own blocks ending in null, fixed by its head and length, and no two share a block.
   */
  lemma ListsAreDisjointChains(s: State, p: Place, q: Place)
    requires Reachable(s) && IsList(s, p)
    ensures FreeLists.Chain(s.link, Head(Contents(s, p)), |Contents(s, p)|, Contents(s, p))
    ensures IsList(s, q) && q != p ==> forall b :: b in Contents(s, p) ==> b !in Contents(s, q)
  {
    var loc := ReachableInv(s);
    ContentsOnce(s, loc, p);
    PlacedAt(s, loc, p);
    PlacedAt(s, loc, q);
    forall b | b in Contents(s, p) ensures b > 0 {
      assert b in At(s, p);
      BlockIsNotNull(s, loc, b);
    }
    if IsList(s, q) && q != p {
      forall b | b in Contents(s, p) ensures b !in Contents(s, q) {
        assert b in At(s, p);
        assert b in Contents(s, q) ==> b in At(s, q);
      }
    }
  }

  // ----- Whole slabs

  lemma LentSlabIsFull(s: State, id: nat, requested: nat, slab: nat)
    requires s.arena.alignment > 0 && Enabled(s, AllocSlab(id, requested, slab))
    ensures var pool := PoolOf(DrainInbox(s, RequestClass(requested)), RequestClass(requested));
            slab < |pool| && pool[slab].Full()
  {
    hide DrainInbox, PoolOf, RequestClass, FromRequest, Total;
  }

  /** When a slab is lent whole, nobody but the center holds any of its blocks. */
  lemma LentSlabIsHeldByNobody(s: State, id: nat, requested: nat, slab: nat, b: Addr, p: Place)
    requires Reachable(s) && s.arena.alignment > 0 && Enabled(s, AllocSlab(id, requested, slab))
    requires b in PoolOf(DrainInbox(s, RequestClass(requested)), RequestClass(requested))[slab].blocks
    requires b in At(DrainInbox(s, RequestClass(requested)), p)
    ensures p == Central(RequestClass(requested), slab)
  {
    hide Enabled, DrainInbox, RequestClass, Reachable, At, PoolOf, PoolSlab.Full;
    hide Placed, Shaped, Threaded, BlocksOk, PendingOk, OneOwner, CarvedOk, RegisteredOk, LimitsOk, Bounded, PhasesOk;
    var c := RequestClass(requested);
    var s1 := DrainInbox(s, c);
    LentSlabIsFull(s, id, requested, slab);
    var loc := ReachableInv(s);
    loc := DrainInboxInv(s, c, loc);
    PlacedAt(s1, loc, p);
    FullSlabBlock(s1, loc, c, slab, b);
  }

  /** A record that a lent slab resets, in any cache of its class, holds nothing: resetting it loses no block. */
  lemma StaleRecordsAreEmpty(s: State, id: nat, requested: nat, slab: nat, k: Key)
    requires Reachable(s) && s.arena.alignment > 0 && Enabled(s, AllocSlab(id, requested, slab))
    requires k.cls == RequestClass(requested)
    ensures var s1 := DrainInbox(s, k.cls);
            var slabs, lent := CacheOf(s1, k).slabs, PoolOf(s1, k.cls)[slab];
            var i := SlabAt(slabs, lent.start);
            i < |slabs| ==> slabs[i].blocks == lent.blocks && slabs[i].untouched == [] && slabs[i].free == []
  {
    hide Enabled, DrainInbox, RequestClass, Reachable, At, PoolOf, PoolSlab.Full;
    hide Placed, Shaped, Threaded, BlocksOk, PendingOk, OneOwner, CarvedOk, RegisteredOk, LimitsOk, Bounded, PhasesOk;
    var s1 := DrainInbox(s, k.cls);
    LentSlabIsFull(s, id, requested, slab);
    var loc := ReachableInv(s);
    loc := DrainInboxInv(s, k.cls, loc);
    LoanFindsNothing(s1, loc, k, slab);
  }

  /** At most one cache ever has untouched blocks of a slab. */
  lemma UntouchedBlocksHaveOneCache(s: State, c: SizeClass, i: nat, b: Addr, b': Addr, p: Place, p': Place)
    requires Reachable(s) && i < |PoolOf(s, c)| && b in PoolOf(s, c)[i].blocks && b' in PoolOf(s, c)[i].blocks
    requires p.Untouched? && p'.Untouched? && b in At(s, p) && b' in At(s, p')
    ensures p == p'
  {
    var loc := ReachableInv(s);
    assert PoolSlabOk(s, loc, c, i);
    PlacedAt(s, loc, p);
    PlacedAt(s, loc, p');
    assert SameUntouchedSlab(loc, b, b');
  }

  // ----- Registration

  /** The re-registration branch is never taken: a span being registered starts no known slab, of the pool or of any cache. */
  lemma RegistrationIsAlwaysNew(s: State, id: nat, k: Key, i: nat)
    requires Reachable(s) && PhaseOf(s, id).Carved?
    ensures PhaseOf(s, id).blocks != []
    ensures i < |PoolOf(s, k.cls)| ==> PoolOf(s, k.cls)[i].start != PhaseOf(s, id).blocks[0]
    ensures i < |CacheOf(s, k).slabs| ==> CacheOf(s, k).slabs[i].start != PhaseOf(s, id).blocks[0]
  {
    var loc := ReachableInv(s);
    assert PhaseOf(s, id).blocks[0] in PhaseOf(s, id).blocks;
    if i < |PoolOf(s, k.cls)| {
      assert PoolSlabOk(s, loc, k.cls, i);
      assert PoolOf(s, k.cls)[i].start in PoolOf(s, k.cls)[i].blocks;
    }
    if i < |CacheOf(s, k).slabs| {
      assert LocalSlabOk(s, loc, k, i);
    }
  }

  /** Every block outside the slabs belongs to a registered slab that still misses it, so its return always finds a home. */
  lemma ReturnsFindTheirSlab(s: State, p: Place, b: Addr, c: SizeClass)
    requires Reachable(s) && b in At(s, p) && !p.Central? && Registered(s, c, b)
    ensures var i := PoolHome(PoolOf(s, c), b);
            && i < |PoolOf(s, c)| && b in PoolOf(s, c)[i].blocks
            && !PoolOf(s, c)[i].Full() && b !in PoolOf(s, c)[i].free
            && |PoolOf(s, c)[i].free| < |PoolOf(s, c)[i].blocks|
  {
    hide Threaded, PendingOk, OneOwner, CarvedOk, RegisteredOk, LimitsOk, Bounded, PhasesOk, Reachable, Placed, BlocksOk, PoolHome, At;
    var loc := ReachableInv(s);
    PlacedAt(s, loc, p);
    var i :| 0 <= i < |PoolOf(s, c)| && b in PoolOf(s, c)[i].blocks;
    assert PoolSlabOk(s, loc, c, i);
    ReturnTarget(s, loc, b);
  }

  lemma {:induction false} InboxReturns(s: State, loc: Locs, c: SizeClass)
    requires Inv(s, loc)
    ensures Returnable(PoolOf(s, c), InboxOf(s, c))
    decreases |InboxOf(s, c)|
  {
    hide Placed, Shaped, Threaded, BlocksOk, PendingOk, OneOwner, CarvedOk, RegisteredOk, LimitsOk, ReturnBlock, PoolHome;
    if InboxOf(s, c) != [] {
      var s1, b := ReturnFromInbox(s, c), InboxOf(s, c)[0];
      InboxTarget(s, c, loc);
      ReturnTarget(s, loc, b);
      var loc1 := ReturnFromInboxInv(s, c, loc);
      InboxReturns(s1, loc1, c);
      assert PoolOf(s1, c) == ReturnBlock(PoolOf(s, c), b) && InboxOf(s1, c) == InboxOf(s, c)[1..];
    }
  }

  lemma {:induction false} HandReturns(s: State, loc: Locs)
    requires Inv(s, loc)
    ensures Returnable(PoolOf(s, s.handCls), s.hand)
    decreases |s.hand|
  {
    hide Placed, Shaped, Threaded, BlocksOk, PendingOk, OneOwner, CarvedOk, RegisteredOk, LimitsOk, ReturnBlock, PoolHome;
    if s.hand != [] {
      var s1, b := ReturnFromHand(s), s.hand[0];
      HandTarget(s, loc);
      ReturnTarget(s, loc, b);
      var loc1 := ReturnFromHandInv(s, loc);
      HandReturns(s1, loc1);
      assert PoolOf(s1, s.handCls) == ReturnBlock(PoolOf(s, s.handCls), b);
    }
  }

  /** The inbox can always be returned whole, and so can any batch a cache drains after it: what `return_batch` demands of its callers holds. */
  lemma ReturnsAreAlwaysPossible(s: State, k: Key, src: Source, max: nat)
    requires Reachable(s)
    ensures Returnable(PoolOf(s, k.cls), InboxOf(s, k.cls))
    ensures max > 0 && DrainSource(CacheOf(s, k), src) ==>
              Returnable(ReturnBatch(PoolOf(s, k.cls), InboxOf(s, k.cls)), DrainBatch(CacheOf(s, k), src, max))
  {
    hide Placed, Shaped, Threaded, BlocksOk, PendingOk, OneOwner, CarvedOk, RegisteredOk, LimitsOk, Bounded, PhasesOk;
    hide DrainBatch, ReturnBatch, Returnable, Reachable, Detach, DrainInbox, CacheOf, PoolOf, InboxOf;
    var loc := ReachableInv(s);
    InboxReturns(s, loc, k.cls);
    if max > 0 && DrainSource(CacheOf(s, k), src) {
      DrainSourceNonempty(CacheOf(s, k), src);
      var s1 := Detach(s, k, src, max);
      DetachIsDrain(s, k, src, max);
      loc := DetachInv(s, k, src, max, loc);
      loc := DrainInboxInv(s1, k.cls, loc);
      DrainInboxFrame(s1, k.cls);
      SameCenter(s, s1, k.cls);
      HandReturns(DrainInbox(s1, k.cls), loc);
    }
  }

  // ----- Draining

  ghost predicate Drained(s: State) {
    && s.live == map[]
    && (forall k :: Total(CacheOf(s, k)) == 0 && StagedOf(s, k) == [])
  }

  /** Once nothing is live and every cache is drained, the next inbox drain makes every slab full again. */
  lemma QuiescenceRestoresSlabs(s: State, c: SizeClass, i: nat)
    requires Reachable(s) && Drained(s) && i < |PoolOf(DrainInbox(s, c), c)|
    ensures PoolOf(DrainInbox(s, c), c)[i].Full()
    ensures PoolOf(DrainInbox(s, c), c)[i].Central() == PoolOf(DrainInbox(s, c), c)[i].blocks
  {
    hide Placed, Shaped, Threaded, BlocksOk, PendingOk, OneOwner, CarvedOk, RegisteredOk, LimitsOk, Bounded, PhasesOk, Reachable, DrainInbox;
    var loc := ReachableInv(s);
    loc := DrainInboxInv(s, c, loc);
    DrainInboxFrame(s, c);
    var s1 := DrainInbox(s, c);
    forall k ensures CacheOf(s1, k) == CacheOf(s, k) && StagedOf(s1, k) == StagedOf(s, k) {}
    forall b | b in PoolOf(s1, c)[i].blocks ensures b in PoolOf(s1, c)[i].Central() {
      DrainedBlockIsCentral(s1, loc, c, i, b);
    }
    AllCentralIsFull(s1, loc, c, i);
  }

  /** A slab that misses none of its blocks is full. */
  lemma AllCentralIsFull(s: State, loc: Locs, c: SizeClass, i: nat)
    requires Shaped(s, loc) && i < |PoolOf(s, c)|
    requires forall b :: b in PoolOf(s, c)[i].blocks ==> b in PoolOf(s, c)[i].Central()
    ensures PoolOf(s, c)[i].Full()
  {
    var slab := PoolOf(s, c)[i];
    assert PoolSlabOk(s, loc, c, i);
    if !slab.Full() {
      assert multiset(slab.blocks) <= multiset(slab.free) by {
        forall b | b in multiset(slab.blocks) ensures multiset(slab.blocks)[b] <= multiset(slab.free)[b] {
          assert b in slab.blocks;
          assert b in slab.free;
        }
      }
      SubmultisetLength(slab.blocks, slab.free);
    }
  }

  lemma SubmultisetLength(a: seq<Addr>, b: seq<Addr>)
    requires multiset(a) <= multiset(b)
    ensures |a| <= |b|
  {
    assert multiset(b) == multiset(a) + (multiset(b) - multiset(a));
    assert |multiset(b)| == |multiset(a)| + |multiset(b) - multiset(a)|;
  }

  lemma BlockAt(s: State, loc: Locs, b: Addr)
    requires BlocksOk(s, loc) && b in loc
    ensures loc[b].place.Inbox? ==> loc[b].place.cls == loc[b].cls
    ensures loc[b].place.Central? ==> loc[b].place == Central(loc[b].cls, loc[b].slab)
  {
    assert BlockOk(s, b, loc[b]);
  }

  lemma DrainedBlockIsCentral(s: State, loc: Locs, c: SizeClass, i: nat, b: Addr)
    requires Inv(s, loc) && s.hand == [] && Drained(s) && InboxOf(s, c) == []
    requires i < |PoolOf(s, c)| && b in PoolOf(s, c)[i].blocks
    ensures b in PoolOf(s, c)[i].Central()
  {
    hide Placed, Threaded, BlocksOk, PendingOk, OneOwner, CarvedOk, RegisteredOk, LimitsOk, Total;
    assert PoolSlabOk(s, loc, c, i);
    var p := loc[b].place;
    PlacedAt(s, loc, p);
    assert b in At(s, p);
    BlockAt(s, loc, b);
    hide Shaped, PoolSlabOk;
    if p.Hot? || p.Reclaimed? || p.Untouched? || p.Shared? {
      EmptyCache(CacheOf(s, p.key));
    }
  }

  // ----- Exhaustion

  /** At the refill lock section that sends a cache to the arena, its class was empty and the center held no block of it. */
  lemma MissFindsNothing(s: State, id: nat, requested: nat, s': State)
    requires Reachable(s) && Step(s, AllocMiss(id, requested), s')
    ensures Total(CacheOf(s, Key(id, RequestClass(requested)))) == 0
    ensures AtRest(s, RequestClass(requested)) == 0
  {
    hide Placed, Threaded, BlocksOk, PendingOk, OneOwner, CarvedOk, RegisteredOk, LimitsOk, Bounded, PhasesOk, Reachable, DrainInbox;
    var c := RequestClass(requested);
    var loc := ReachableInv(s);
    DrainInboxCount(s, loc, c);
    var loc1 := DrainInboxInv(s, c, loc);
    var pool := PoolOf(DrainInbox(s, c), c);
    forall i | 0 <= i < |pool| ensures pool[i].Central() == [] {
      assert PoolSlabOk(DrainInbox(s, c), loc1, c, i);
    }
    CentralCountZero(pool);
  }

  /** The step at which a cache began the allocation it is carving for. */
  ghost predicate MissedAt(states: seq<State>, labels: seq<Label>, m: nat, id: nat, ph: Phase)
    requires |states| == |labels| + 1
  {
    && ph.Carving? && m < |labels|
    && labels[m] == AllocMiss(id, ph.requested) && RequestClass(ph.requested) == ph.cls
  }

  /** A cache only ever carves after a miss for the same request, and stays in that phase until its next step. */
  lemma {:induction false} CarvingFollowsMiss(states: seq<State>, labels: seq<Label>, n: nat, id: nat) returns (m: nat)
    requires Run(states, labels) && n < |states| && PhaseOf(states[n], id).Carving?
    ensures m < n && MissedAt(states, labels, m, id, PhaseOf(states[n], id))
    ensures forall j :: m < j <= n ==> PhaseOf(states[j], id) == PhaseOf(states[n], id)
  {
    assert n > 0;
    RunStepPhases(states, labels, n - 1, id);
    if PhaseOf(states[n - 1], id) == PhaseOf(states[n], id) {
      m := CarvingFollowsMiss(states, labels, n - 1, id);
    } else {
      m := n - 1;
    }
  }

  lemma RunStepPhases(states: seq<State>, labels: seq<Label>, n: nat, id: nat)
    requires Run(states, labels) && n < |labels|
    ensures PhaseOf(states[n + 1], id).Carving? && PhaseOf(states[n], id) != PhaseOf(states[n + 1], id) ==>
              && labels[n].AllocMiss? && labels[n].id == id
              && PhaseOf(states[n + 1], id) == Carving(RequestClass(labels[n].requested), labels[n].requested)
  {
    var loc := RunInv(states, labels, n);
    assert StepAt(states, labels, n);
    StepFrame(states[n], loc, labels[n]);
  }

  lemma {:induction false} RunAdvances(states: seq<State>, labels: seq<Label>, n: nat, m: nat)
    requires Run(states, labels) && n <= m < |states|
    ensures states[m].arena == states[n].arena && states[m].limits == states[n].limits && states[m].next >= states[n].next
    decreases m - n
  {
    if n < m {
      RunAdvances(states, labels, n, m - 1);
      RunStepAdvances(states, labels, m - 1);
    }
  }

  lemma RunStepAdvances(states: seq<State>, labels: seq<Label>, n: nat)
    requires Run(states, labels) && n < |labels|
    ensures states[n + 1].arena == states[n].arena && states[n + 1].limits == states[n].limits
    ensures states[n + 1].next >= states[n].next
  {
    var loc := RunInv(states, labels, n);
    assert StepAt(states, labels, n);
    StepFrame(states[n], loc, labels[n]);
  }

  /**
   Out of memory is only ever reported after this cache found its class empty and the
   center without one block of it, and when not one whole block fitted behind the arena
   cursor; no later state has room for one either.
   */
  lemma OutOfMemoryIsHonest(states: seq<State>, labels: seq<Label>, n: nat, id: nat, later: nat)
    requires Run(states, labels) && n <= later < |states| && n < |labels| && labels[n] == CarveFails(id)
    ensures PhaseOf(states[n], id).Carving?
    ensures exists m :: 0 <= m < n && labels[m].AllocMiss? && labels[m].id == id
                        && RequestClass(labels[m].requested) == PhaseOf(states[n], id).cls
                        && labels[m].requested == PhaseOf(states[n], id).requested
                        && Total(CacheOf(states[m], Key(id, PhaseOf(states[n], id).cls))) == 0
                        && AtRest(states[m], PhaseOf(states[n], id).cls) == 0
    ensures Total(CacheOf(states[n], Key(id, PhaseOf(states[n], id).cls))) == 0
    ensures states[later].arena.alignment > 0 && PlanFor(states[later], PhaseOf(states[n], id).cls).None?
  {
    hide Run, Total, AtRest, CacheOf, PlanFor, Limits;
    RunCarveFails(states, labels, n, id);
    var m := MissBeforeCarve(states, labels, n, id);
    StaysExhausted(states, labels, n, later, PhaseOf(states[n], id).cls);
  }

  lemma MissBeforeCarve(states: seq<State>, labels: seq<Label>, n: nat, id: nat) returns (m: nat)
    requires Run(states, labels) && n < |labels| && PhaseOf(states[n], id).Carving?
    ensures m < n && labels[m].AllocMiss? && labels[m].id == id
    ensures var ph := PhaseOf(states[n], id);
            && RequestClass(labels[m].requested) == ph.cls && labels[m].requested == ph.requested
            && Total(CacheOf(states[m], Key(id, ph.cls))) == 0 && AtRest(states[m], ph.cls) == 0
  {
    hide Total, AtRest, CacheOf, Init, Step, PhaseOf;
    m := CarvingFollowsMiss(states, labels, n, id);
    RunPrefix(states, labels, m);
    assert StepAt(states, labels, m);
    MissFindsNothing(states[m], id, labels[m].requested, states[m + 1]);
  }

  lemma StaysExhausted(states: seq<State>, labels: seq<Label>, n: nat, later: nat, c: SizeClass)
    requires Run(states, labels) && n <= later < |states|
    requires states[n].arena.Valid() && states[n].next >= states[n].arena.base && PlanFor(states[n], c).None?
    ensures states[later].arena.alignment > 0 && PlanFor(states[later], c).None?
  {
    hide Run, Arena.PlanBlocks;
    var s := states[n];
    RunAdvances(states, labels, n, later);
    Arena.NoFitForever(s.arena, Arena.Request.Blocks(Limits(s, c).blockSize, Limits(s, c).refill),
                       s.next - s.arena.base, states[later].next - s.arena.base);
  }

  lemma RunCarveFails(states: seq<State>, labels: seq<Label>, n: nat, id: nat)
    requires Run(states, labels) && n < |labels| && labels[n] == CarveFails(id)
    ensures var s := states[n];
            && s.arena.Valid() && s.next >= s.arena.base && PhaseOf(s, id).Carving?
            && PlanFor(s, PhaseOf(s, id).cls).None?
            && Total(CacheOf(s, Key(id, PhaseOf(s, id).cls))) == 0
  {
    var loc := RunInv(states, labels, n);
    assert StepAt(states, labels, n);
  }

  lemma RunPrefix(states: seq<State>, labels: seq<Label>, n: nat)
    requires Run(states, labels) && n < |states|
    ensures Reachable(states[n])
  {
    var states', labels' := states[..n + 1], labels[..n];
    assert Run(states', labels') by {
      forall i | 0 <= i < n ensures StepAt(states', labels', i) {
        assert StepAt(states, labels, i);
      }
    }
    assert states'[|labels'|] == states[n];
  }

  // ----- The hot block

  lemma {:induction false} HotStaysDuring(states: seq<State>, labels: seq<Label>, n: nat, m: nat, k: Key, b: Addr)
    requires Run(states, labels) && n <= m < |states|
    requires CacheOf(states[n], k).hot == Some(b)
    requires forall j :: n <= j < m ==> states[j].arena.alignment > 0 && !UsesHotSlot(states[j], labels[j], k)
    ensures CacheOf(states[m], k).hot == Some(b)
    decreases m - n
  {
    if n < m {
      HotStaysDuring(states, labels, n, m - 1, k, b);
      RunStepKeepsHot(states, labels, m - 1, k);
    }
  }

  lemma RunStepKeepsHot(states: seq<State>, labels: seq<Label>, n: nat, k: Key)
    requires Run(states, labels) && n < |labels| && CacheOf(states[n], k).hot.Some?
    requires states[n].arena.alignment > 0 && !UsesHotSlot(states[n], labels[n], k)
    ensures CacheOf(states[n + 1], k).hot == CacheOf(states[n], k).hot
  {
    var loc := RunInv(states, labels, n);
    assert StepAt(states, labels, n);
    StepFrame(states[n], loc, labels[n]);
  }

  /**
   A block freed through its owner cache is the very next block that cache allocates from
   that class, for any size of the class and whatever all other threads do in between.
   */
  lemma FreedBlockIsNextAllocated(states: seq<State>, labels: seq<Label>, n: nat, m: nat, c: SizeClass)
    requires Run(states, labels) && n < m < |labels| && labels[n].Free? && states[n].arena.alignment > 0
    requires FreeCheck(states[n], labels[n].block, labels[n].expected) == Ok(c)
    requires Hdr(states[n], labels[n].block).owner == labels[n].id
    requires forall j :: n < j < m ==>
               states[j].arena.alignment > 0 && !UsesHotSlot(states[j], labels[j], Key(labels[n].id, c))
    requires labels[m].AllocHit? || labels[m].AllocBatch? || labels[m].AllocSlab? || labels[m].AllocMiss?
    requires labels[m].id == labels[n].id && RequestClass(labels[m].requested) == c
    ensures labels[m].AllocHit?
    ensures Issues(states[m], states[m + 1], Key(labels[n].id, c), labels[m].requested, labels[n].block)
  {
    var k, b := Key(labels[n].id, c), labels[n].block;
    RunFreeMakesHot(states, labels, n, c);
    HotStaysDuring(states, labels, n + 1, m, k, b);
    RunAllocTakesHot(states, labels, m, k, b);
  }

  lemma RunFreeMakesHot(states: seq<State>, labels: seq<Label>, n: nat, c: SizeClass)
    requires Run(states, labels) && n < |labels| && labels[n].Free? && states[n].arena.alignment > 0
    requires FreeCheck(states[n], labels[n].block, labels[n].expected) == Ok(c)
    requires Hdr(states[n], labels[n].block).owner == labels[n].id
    ensures CacheOf(states[n + 1], Key(labels[n].id, c)).hot == Some(labels[n].block)
  {
    var loc := RunInv(states, labels, n);
    assert StepAt(states, labels, n);
    FreeFrame(states[n], labels[n]);
  }

  /** While a block is hot, any allocation of its class by its cache takes it. */
  lemma RunAllocTakesHot(states: seq<State>, labels: seq<Label>, m: nat, k: Key, b: Addr)
    requires Run(states, labels) && m < |labels| && CacheOf(states[m], k).hot == Some(b)
    requires labels[m].AllocHit? || labels[m].AllocBatch? || labels[m].AllocSlab? || labels[m].AllocMiss?
    requires labels[m].id == k.id && RequestClass(labels[m].requested) == k.cls
    ensures labels[m].AllocHit? && Issues(states[m], states[m + 1], k, labels[m].requested, b)
  {
    var loc := RunInv(states, labels, m);
    assert StepAt(states, labels, m);
    assert Total(CacheOf(states[m], k)) > 0;
    var issued := AllocIssues(states[m], loc, labels[m]);
  }
}

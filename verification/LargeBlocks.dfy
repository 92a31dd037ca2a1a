/**
 Large allocations across their two lock sections: any number of threads take a block, write
 its header and register it, or release it, in any interleaving.
 */
module LargeBlocks {
  import opened Basics
  import opened SizeClasses
  import opened Headers
  import opened LargeObjects
  import Arena

  /** Where a thread stands inside `allocate_large`. */
  datatype Phase =
    | Idle
    | Missed(requested: nat)
    | Held(requested: nat, block: FreeBlock)

  /**
   `sizes` records every large block ever reserved; `lost` those dropped because their
   header could not be encoded; `panicked` whether a registration found its pointer taken.
   */
  datatype State = State(
    arena: Arena.Geometry,
    next: Addr,
    sizes: map<Addr, nat>,
    hdr: map<Addr, Header>,
    live: map<Addr, LargeRecord>,
    free: Buckets,
    phases: map<nat, Phase>,
    lost: set<Addr>,
    panicked: bool)

  function Hdr(s: State, b: Addr): Header { if b in s.hdr then s.hdr[b] else ZERO_HEADER }

  function PhaseOf(s: State, id: nat): Phase { if id in s.phases then s.phases[id] else Idle }

  // ----- Steps

  /** Header plus request, rounded up to the arena's alignment; none on overflow. */
  function BlockSizeFor(g: Arena.Geometry, requested: nat): Option<nat>
    requires g.alignment > 0
  {
    match Arena.CheckedAdd(HEADER_SIZE, requested)
    case None => None
    case Some(total) => Arena.CheckedAlignUp(total, g.alignment)
  }

  function PlanFor(s: State, requested: nat): Option<Arena.Span>
    requires s.arena.alignment > 0
  {
    match BlockSizeFor(s.arena, requested)
    case None => None
    case Some(size) => Arena.PlanBytes(s.arena, size, if s.next < s.arena.base then 0 else s.next - s.arena.base)
  }

  datatype Label =
    | TakeReusable(id: nat, requested: nat, size: nat)
    | FindNone(id: nat, requested: nat)
    | Reserve(id: nat)
    | ReserveFails(id: nat)
    | Record(id: nat)
    | Release(user: Addr, expected: Option<nat>)
    | ReserveOther(size: nat)

  ghost predicate Enabled(s: State, l: Label)
    requires s.arena.alignment > 0
  {
    match l
    case TakeReusable(id, requested, size) =>
      && PhaseOf(s, id) == Idle && requested > 0 && BlockSizeFor(s.arena, requested).Some?
      && BestFit(s.free, BlockSizeFor(s.arena, requested).value, size) && s.free[size] != []
    case FindNone(id, requested) =>
      && PhaseOf(s, id) == Idle && requested > 0 && BlockSizeFor(s.arena, requested).Some?
      && forall size :: size in s.free ==> size < BlockSizeFor(s.arena, requested).value
    case Reserve(id) => PhaseOf(s, id).Missed? && PlanFor(s, PhaseOf(s, id).requested).Some?
    case ReserveFails(id) => PhaseOf(s, id).Missed? && PlanFor(s, PhaseOf(s, id).requested).None?
    case Record(id) => PhaseOf(s, id).Held?
    case Release(user, _) => user >= HEADER_SIZE && user - HEADER_SIZE in s.sizes
    case ReserveOther(size) => s.arena.base <= s.next && Arena.PlanBytes(s.arena, size, s.next - s.arena.base).Some?
  }

  /** The second lock section: write the header, register the block. */
  function RecordBlock(s: State, id: nat, requested: nat, b: FreeBlock): State {
    var usable := if b.size >= HEADER_SIZE then b.size - HEADER_SIZE else 0;
    var user := b.block + HEADER_SIZE;
    var s1 := s.(phases := s.phases[id := Idle]);
    match WriteLarge(requested, usable)
    case None => s1.(lost := s.lost + {b.block})
    case Some(h) =>
      if user in s.live then s1.(hdr := s.hdr[b.block := h], panicked := true)
      else s1.(hdr := s.hdr[b.block := h], live := s.live[user := LargeRecord(b.block, b.size, requested, usable)])
  }

  function ReleaseResult(s: State, user: Addr, expected: Option<nat>): Result<()>
    requires user >= HEADER_SIZE
  {
    var h := Hdr(s, user - HEADER_SIZE);
    match Validate(h)
    case Err(e) => Err(e)
    case Ok(Small(_)) => Err(CorruptHeader)
    case Ok(Large) =>
      if expected.Some? && expected.value != h.requested then Err(SizeMismatch(expected.value, h.requested))
      else ReleaseCheck(s.live, user, h.requested, h.usable)
  }

  function Apply(s: State, l: Label): State
    requires s.arena.alignment > 0 && Enabled(s, l)
  {
    match l
    case TakeReusable(id, requested, size) =>
      s.(free := RemoveLast(s.free, size),
         phases := s.phases[id := Held(requested, s.free[size][|s.free[size]| - 1])])
    case FindNone(id, requested) => s.(phases := s.phases[id := Missed(requested)])
    case Reserve(id) =>
      var requested := PhaseOf(s, id).requested;
      var span := PlanFor(s, requested).value;
      TakeSpan(s, id, requested, FreeBlock(s.arena.base + span.start, span.size))
    case ReserveFails(id) => s.(phases := s.phases[id := Idle])
    case Record(id) => RecordBlock(s, id, PhaseOf(s, id).requested, PhaseOf(s, id).block)
    case Release(user, expected) =>
      if ReleaseResult(s, user, expected).Ok? && user in s.live then
        s.(live := s.live - {user}, free := InsertFree(s.free, FreeBlock(s.live[user].block, s.live[user].size)))
      else s
    case ReserveOther(size) =>
      var span := Arena.PlanBytes(s.arena, size, s.next - s.arena.base).value;
      s.(next := s.arena.base + span.start + span.size)
  }

  /** A new block between the cursor and its own end, held by the thread that reserved it. */
  function TakeSpan(s: State, id: nat, requested: nat, b: FreeBlock): State {
    s.(next := b.block + b.size, sizes := s.sizes[b.block := b.size], phases := s.phases[id := Held(requested, b)])
  }

  ghost predicate Step(s: State, l: Label, s': State) {
    s.arena.alignment > 0 && Enabled(s, l) && s' == Apply(s, l)
  }

  ghost predicate Init(s: State) {
    && s.arena.Valid() && s.next == s.arena.base && s.sizes == map[] && s.hdr == map[] && s.live == map[]
    && s.free == map[] && s.phases == map[] && s.lost == {} && !s.panicked
  }

  ghost predicate StepAt(states: seq<State>, labels: seq<Label>, i: nat)
    requires i < |labels| && |states| == |labels| + 1
  {
    Step(states[i], labels[i], states[i + 1])
  }

  ghost predicate Run(states: seq<State>, labels: seq<Label>) {
    && |states| == |labels| + 1 && Init(states[0])
    && (forall i :: 0 <= i < |labels| ==> StepAt(states, labels, i))
  }

  ghost predicate Reachable(s: State) {
    exists states, labels :: Run(states, labels) && states[|labels|] == s
  }

  // ----- Places

  datatype Place = Live | Pooled(size: nat) | InTransit(id: nat) | Lost

  function Blocks(bucket: seq<FreeBlock>): (blocks: seq<Addr>)
    ensures |blocks| == |bucket| && forall i :: 0 <= i < |bucket| ==> blocks[i] == bucket[i].block
  {
    Map((b: FreeBlock) => b.block, bucket)
  }

  ghost function LiveBlocks(sizes: map<Addr, nat>, live: map<Addr, LargeRecord>): set<Addr> {
    set b | b in sizes && b + HEADER_SIZE in live
  }

  ghost function At(s: State, p: Place): multiset<Addr> {
    match p
    case Live => multiset(LiveBlocks(s.sizes, s.live))
    case Pooled(size) => multiset(Blocks(BucketOf(s.free, size)))
    case InTransit(id) => if PhaseOf(s, id).Held? then multiset{PhaseOf(s, id).block.block} else multiset{}
    case Lost => multiset(s.lost)
  }

  type Locs = map<Addr, Place>

  ghost function View(s: State): Place -> multiset<Addr> { p => At(s, p) }

  ghost predicate PlacedBy(at: Place -> multiset<Addr>, loc: Locs) {
    && (forall p, b :: b in at(p) <==> b in loc && loc[b] == p)
    && (forall p, b :: at(p)[b] <= 1)
  }

  /** Every reserved block is at its place, once, and nowhere else. */
  ghost predicate Placed(s: State, loc: Locs) { loc.Keys == s.sizes.Keys && PlacedBy(View(s), loc) }

  lemma PlacedAt(s: State, loc: Locs, p: Place)
    requires Placed(s, loc)
    ensures forall b :: b in At(s, p) <==> b in loc && loc[b] == p
    ensures forall b :: At(s, p)[b] <= 1
  {
    hide At;
    assert View(s)(p) == At(s, p);
    assert forall b :: View(s)(p)[b] <= 1;
  }

  lemma ViewAt(s: State, p: Place)
    ensures View(s)(p) == At(s, p)
  {
  }

  ghost predicate LiveOk(s: State, user: Addr)
    requires user in s.live
  {
    var r := s.live[user];
    && user == r.block + HEADER_SIZE && r.block in s.sizes && s.sizes[r.block] == r.size
    && r.size >= HEADER_SIZE && r.usable == r.size - HEADER_SIZE
    && WriteLarge(r.requested, r.usable) == Some(Hdr(s, r.block))
  }

  /** A pooled block has its own size, which a 32-bit header can describe. */
  ghost predicate PooledOk(s: State, size: nat, k: nat)
    requires size in s.free && k < |s.free[size]|
  {
    var b := s.free[size][k];
    b.size == size && b.block in s.sizes && s.sizes[b.block] == size && HEADER_SIZE <= size <= HEADER_SIZE + U32_MAX
  }

  /** A block serves a request with its exact rounded size, or with a larger one a header can describe. */
  ghost predicate Serves(g: Arena.Geometry, requested: nat, size: nat) {
    && requested > 0 && g.alignment > 0 && BlockSizeFor(g, requested).Some?
    && var need := BlockSizeFor(g, requested).value;
       HEADER_SIZE + requested <= need <= size && (size == need || size <= HEADER_SIZE + U32_MAX)
  }

  ghost predicate HeldOk(s: State, ph: Phase) {
    match ph
    case Held(requested, b) => b.block in s.sizes && s.sizes[b.block] == b.size && Serves(s.arena, requested, b.size)
    case Missed(requested) => requested > 0
    case Idle => true
  }

  /** Blocks lie in the arena below the cursor, aligned, and do not overlap. */
  ghost predicate SizesOk(s: State) { SizesFit(s.arena, s.next, s.sizes) }

  ghost predicate SizesFit(g: Arena.Geometry, next: Addr, sizes: map<Addr, nat>) {
    && g.Valid() && g.base <= next <= g.base + g.len
    && (forall b :: b in sizes ==> g.base <= b && b % g.alignment == 0 && sizes[b] > 0 && b + sizes[b] <= next)
    && (forall b :: b in sizes ==> sizes[b] % g.alignment == 0)
    && (forall b, b' :: b in sizes && b' in sizes && b < b' ==> b + sizes[b] <= b')
  }

  ghost predicate Sound(s: State) {
    && SizesOk(s) && !s.panicked
    && (forall user :: user in s.live ==> LiveOk(s, user))
    && (forall size :: size in s.free ==> s.free[size] != [] && forall k :: 0 <= k < |s.free[size]| ==> PooledOk(s, size, k))
    && (forall id :: HeldOk(s, PhaseOf(s, id)))
    && (forall b :: b in s.hdr ==> b in s.sizes && Validate(s.hdr[b]) == Ok(Large))
    && (forall b :: b in s.lost ==> b in s.sizes && s.sizes[b] > HEADER_SIZE + U32_MAX)
  }

  ghost predicate Inv(s: State, loc: Locs) { Sound(s) && Placed(s, loc) }

  // ----- Moves

  lemma MovePlacesBlock(at: Place -> multiset<Addr>, at': Place -> multiset<Addr>, loc: Locs,
                        from: Place, to: Place, b: Addr, p: Place, x: Addr)
    requires PlacedBy(at, loc) && from != to
    requires p != from && p != to ==> at'(p) == at(p)
    requires at(from) == at'(from) + multiset{b} && at'(to) == at(to) + multiset{b}
    ensures b in loc && loc[b] == from
    ensures x in at'(p) <==> x in loc && loc[b := to][x] == p
    ensures at'(p)[x] <= 1
  {
    assert b in at(from);
    assert at(from)[x] <= 1 && at(to)[x] <= 1 && at(p)[x] <= 1;
    assert x in at(from) <==> x in loc && loc[x] == from;
    assert x in at(to) <==> x in loc && loc[x] == to;
    assert x in at(p) <==> x in loc && loc[x] == p;
  }

  /** One block moves between two places. */
  lemma MovePlaced(s: State, s': State, loc: Locs, from: Place, to: Place, b: Addr)
    requires Placed(s, loc) && s'.sizes == s.sizes && from != to
    requires At(s, from) == At(s', from) + multiset{b} && At(s', to) == At(s, to) + multiset{b}
    requires forall p :: p != from && p != to ==> At(s', p) == At(s, p)
    ensures Placed(s', loc[b := to])
  {
    hide At;
    forall p ensures View(s)(p) == At(s, p) && View(s')(p) == At(s', p) { ViewAt(s, p); ViewAt(s', p); }
    var at, at', loc' := View(s), View(s'), loc[b := to];
    hide View;
    forall p, x ensures x in at'(p) <==> x in loc' && loc'[x] == p { MovePlacesBlock(at, at', loc, from, to, b, p, x); }
    forall p, x ensures at'(p)[x] <= 1 { MovePlacesBlock(at, at', loc, from, to, b, p, x); }
    MovePlacesBlock(at, at', loc, from, to, b, from, b);
  }

  /** A new block appears at one place. */
  lemma AppearPlaced(s: State, s': State, loc: Locs, to: Place, b: Addr)
    requires Placed(s, loc) && b !in s.sizes && s'.sizes.Keys == s.sizes.Keys + {b}
    requires At(s', to) == At(s, to) + multiset{b}
    requires forall p :: p != to ==> At(s', p) == At(s, p)
    ensures Placed(s', loc[b := to])
  {
    hide At;
    forall p ensures View(s)(p) == At(s, p) && View(s')(p) == At(s', p) { ViewAt(s, p); ViewAt(s', p); }
    AppearPlacedBy(View(s), View(s'), loc, to, b);
  }

  lemma AppearPlacedBy(at: Place -> multiset<Addr>, at': Place -> multiset<Addr>, loc: Locs, to: Place, b: Addr)
    requires PlacedBy(at, loc) && b !in loc
    requires at'(to) == at(to) + multiset{b} && forall p :: p != to ==> at'(p) == at(p)
    ensures PlacedBy(at', loc[b := to])
  {
    var loc' := loc[b := to];
    forall p, x ensures x in at'(p) <==> x in loc' && loc'[x] == p {
      assert x in at(p) <==> x in loc && loc[x] == p;
      assert b !in at(p);
    }
    forall p, x ensures at'(p)[x] <= 1 {
      assert at(p)[x] <= 1;
      assert b !in at(to);
    }
  }

  lemma StillPlaced(s: State, s': State, loc: Locs)
    requires Placed(s, loc) && s'.sizes == s.sizes && forall p :: At(s', p) == At(s, p)
    ensures Placed(s', loc)
  {
    hide At;
    forall p ensures View(s')(p) == View(s)(p) { ViewAt(s, p); ViewAt(s', p); }
    var at, at' := View(s), View(s');
    hide View;
    forall p, x ensures at'(p)[x] <= 1 { assert at(p)[x] <= 1; }
  }

  // ----- Every step keeps the invariant

  /** Known blocks keep their size. */
  ghost predicate SizesStable(s: State, s': State) {
    forall b :: b in s.sizes ==> b in s'.sizes && s'.sizes[b] == s.sizes[b]
  }

  lemma PooledStays(s: State, s': State, size: nat, k: nat)
    requires size in s.free && k < |s.free[size]| && PooledOk(s, size, k) && SizesStable(s, s')
    requires size in s'.free && k < |s'.free[size]| && s'.free[size][k] == s.free[size][k]
    ensures PooledOk(s', size, k)
  {
  }

  lemma LiveStays(s: State, s': State, user: Addr)
    requires user in s.live && LiveOk(s, user) && SizesStable(s, s')
    requires user in s'.live && s'.live[user] == s.live[user] && s'.hdr == s.hdr
    ensures LiveOk(s', user)
  {
  }

  lemma HeldStays(s: State, s': State, ph: Phase)
    requires HeldOk(s, ph) && SizesStable(s, s') && s'.arena == s.arena
    ensures HeldOk(s', ph)
  {
  }

  /** `m` bytes are a multiple of the alignment that holds the header and the request. */
  predicate Holds(g: Arena.Geometry, requested: nat, m: nat)
    requires g.alignment > 0
  {
    m % g.alignment == 0 && HEADER_SIZE + requested <= m
  }

  /** A large block is the least multiple of the alignment that holds header and request; there is none iff that overflows. */
  lemma BlockSizeIsLeast(g: Arena.Geometry, requested: nat)
    requires g.alignment > 0
    ensures BlockSizeFor(g, requested).None? <==> forall m: nat :: Holds(g, requested, m) ==> m > Arena.USIZE_MAX
    ensures BlockSizeFor(g, requested).Some? ==>
              var size := BlockSizeFor(g, requested).value;
              && Holds(g, requested, size) && size < HEADER_SIZE + requested + g.alignment
              && forall m: nat :: Holds(g, requested, m) ==> size <= m
  {
    var size := AlignUp(HEADER_SIZE + requested, g.alignment);
    assert Holds(g, requested, size);
    forall m: nat | Holds(g, requested, m) ensures size <= m {
      if m < size {
        Arena.MultiplesApart(size, m, g.alignment);
      }
    }
  }

  lemma BlockSizeIsEnough(g: Arena.Geometry, requested: nat)
    requires g.alignment > 0 && BlockSizeFor(g, requested).Some?
    ensures BlockSizeFor(g, requested).value >= HEADER_SIZE + requested
    ensures BlockSizeFor(g, requested).value % g.alignment == 0
  {
    BlockSizeIsLeast(g, requested);
  }

  /** No block of a size a header can describe holds the request: it is above 2^32 - 64, or alignments are above 2^32. */
  predicate NotEncodable(g: Arena.Geometry, requested: nat) { requested > 0xffff_ffc0 || g.alignment > 0x1_0000_0000 }

  lemma Twice(n: nat)
    requires PowerOfTwo(n)
    ensures PowerOfTwo(2 * n)
  {
    assert 2 * n / 2 == n;
  }

  lemma SixteenTimes(n: nat)
    requires PowerOfTwo(n)
    ensures PowerOfTwo(16 * n)
  {
    hide PowerOfTwo;
    Twice(n);
    Twice(2 * n);
    Twice(4 * n);
    Twice(8 * n);
  }

  lemma TwoTo32IsPower()
    ensures PowerOfTwo(0x1_0000_0000)
  {
    hide PowerOfTwo;
    assert PowerOfTwo(0x10) by { OneIsPower(); SixteenTimes(1); }
    SixteenTimes(0x10);
    SixteenTimes(0x100);
    SixteenTimes(0x1000);
    SixteenTimes(0x1_0000);
    SixteenTimes(0x10_0000);
    SixteenTimes(0x100_0000);
    SixteenTimes(0x1000_0000);
  }

  lemma OneIsPower()
    ensures PowerOfTwo(1)
  {
  }

  lemma NotEncodableIff(g: Arena.Geometry, requested: nat)
    requires g.Valid() && BlockSizeFor(g, requested).Some?
    ensures BlockSizeFor(g, requested).value > HEADER_SIZE + U32_MAX <==> NotEncodable(g, requested)
  {
    hide BlockSizeFor, PowerOfTwo;
    BlockSizeIsLeast(g, requested);
    var size := BlockSizeFor(g, requested).value;
    TwoTo32IsPower();
    if g.alignment > 0x1_0000_0000 {
      Arena.MultiplesApart(size, 0, g.alignment);
      AlignmentsApart(g);
    } else {
      PowersDivide(g.alignment, 0x1_0000_0000);
      if requested <= 0xffff_ffc0 {
        assert Holds(g, requested, 0x1_0000_0000);
      } else {
        Arena.MultiplesApart(size, 0x1_0000_0000, g.alignment);
      }
    }
  }

  /** An alignment above 2^32 is at least twice that. */
  lemma AlignmentsApart(g: Arena.Geometry)
    requires g.Valid() && g.alignment > 0x1_0000_0000
    ensures g.alignment >= 0x2_0000_0000
  {
    TwoTo32IsPower();
    PowersDivide(0x1_0000_0000, g.alignment);
    Arena.MultiplesApart(g.alignment, 0x1_0000_0000, 0x1_0000_0000);
  }

  lemma BucketSplit(bucket: seq<FreeBlock>)
    requires bucket != []
    ensures multiset(Blocks(bucket)) == multiset(Blocks(bucket[..|bucket| - 1])) + multiset{bucket[|bucket| - 1].block}
  {
    var n := |bucket| - 1;
    assert Blocks(bucket) == Blocks(bucket[..n]) + [bucket[n].block];
  }

  lemma RemoveLastIs(free: Buckets, size: nat)
    requires size in free && free[size] != []
    ensures BucketOf(RemoveLast(free, size), size) == free[size][..|free[size]| - 1]
    ensures forall other :: other != size ==> BucketOf(RemoveLast(free, size), other) == BucketOf(free, other)
  {
  }

  lemma EnterTransit(s: State, s': State, id: nat, ph: Phase, size: nat, p: Place)
    requires s' == s.(free := s'.free, phases := s.phases[id := ph])
    requires forall other :: other != size ==> BucketOf(s'.free, other) == BucketOf(s.free, other)
    requires p != Pooled(size) && p != InTransit(id)
    ensures At(s', p) == At(s, p)
  {
    hide LiveBlocks, Blocks, BucketOf;
  }

  lemma TakePlaced(s: State, loc: Locs, id: nat, requested: nat, size: nat)
    requires Placed(s, loc) && !PhaseOf(s, id).Held? && size in s.free && s.free[size] != []
    ensures var b := s.free[size][|s.free[size]| - 1];
            var s' := s.(free := RemoveLast(s.free, size), phases := s.phases[id := Held(requested, b)]);
            Placed(s', loc[b.block := InTransit(id)])
  {
    var b := s.free[size][|s.free[size]| - 1];
    var s' := s.(free := RemoveLast(s.free, size), phases := s.phases[id := Held(requested, b)]);
    hide RemoveLast, LiveBlocks, Blocks, Placed;
    RemoveLastIs(s.free, size);
    BucketSplit(s.free[size]);
    forall p | p != Pooled(size) && p != InTransit(id) ensures At(s', p) == At(s, p) {
      EnterTransit(s, s', id, Held(requested, b), size, p);
    }
    MovePlaced(s, s', loc, Pooled(size), InTransit(id), b.block);
  }

  lemma TakeSound(s: State, id: nat, requested: nat, size: nat)
    requires Sound(s) && requested > 0 && s.arena.alignment > 0 && BlockSizeFor(s.arena, requested).Some?
    requires BestFit(s.free, BlockSizeFor(s.arena, requested).value, size) && s.free[size] != []
    ensures Sound(s.(free := RemoveLast(s.free, size), phases := s.phases[id := Held(requested, s.free[size][|s.free[size]| - 1])]))
  {
    BlockSizeIsEnough(s.arena, requested);
    var n := |s.free[size]| - 1;
    assert PooledOk(s, size, n);
    var s' := s.(free := RemoveLast(s.free, size), phases := s.phases[id := Held(requested, s.free[size][n])]);
    hide BlockSizeFor, SizesFit;
    forall other, k | other in s'.free && 0 <= k < |s'.free[other]| ensures PooledOk(s', other, k) { PooledStays(s, s', other, k); }
    forall user | user in s'.live ensures LiveOk(s', user) { LiveStays(s, s', user); }
    forall i ensures HeldOk(s', PhaseOf(s', i)) {
      if PhaseOf(s', i) == PhaseOf(s, i) { HeldStays(s, s', PhaseOf(s, i)); }
    }
  }

  lemma PhaseOnly(s: State, loc: Locs, id: nat, ph: Phase)
    requires Inv(s, loc) && !PhaseOf(s, id).Held? && !ph.Held? && HeldOk(s, ph)
    ensures Inv(s.(phases := s.phases[id := ph]), loc)
  {
    hide LiveBlocks, Blocks, BucketOf, PlacedBy, SizesFit;
    var s' := s.(phases := s.phases[id := ph]);
    forall p ensures At(s', p) == At(s, p) {}
    StillPlaced(s, s', loc);
    forall size, k | size in s'.free && 0 <= k < |s'.free[size]| ensures PooledOk(s', size, k) { PooledStays(s, s', size, k); }
    forall user | user in s'.live ensures LiveOk(s', user) { LiveStays(s, s', user); }
    forall i ensures HeldOk(s', PhaseOf(s', i)) {
      if PhaseOf(s', i) == PhaseOf(s, i) { HeldStays(s, s', PhaseOf(s, i)); }
    }
  }

  // ----- Reserving

  /** `b` is new: aligned, behind the cursor, inside the arena, and large enough. */
  ghost predicate NewBlock(s: State, requested: nat, b: FreeBlock)
    requires s.arena.alignment > 0
  {
    && s.next <= b.block && b.block % s.arena.alignment == 0 && b.block + b.size <= s.arena.base + s.arena.len
    && BlockSizeFor(s.arena, requested) == Some(b.size) && Holds(s.arena, requested, b.size)
  }

  lemma PlanIsNew(s: State, requested: nat)
    requires SizesOk(s) && PlanFor(s, requested).Some?
    ensures var span := PlanFor(s, requested).value;
            NewBlock(s, requested, FreeBlock(s.arena.base + span.start, span.size))
  {
    BlockSizeIsEnough(s.arena, requested);
    var size := BlockSizeFor(s.arena, requested).value;
    Arena.PlanFits(s.arena, Arena.Request.Bytes(size), s.next - s.arena.base);
    var span := PlanFor(s, requested).value;
    Arena.SumOfMultiples(s.arena.base, span.start, s.arena.alignment);
  }

  lemma NewBlockIsUnknown(s: State, requested: nat, b: FreeBlock)
    requires SizesOk(s) && NewBlock(s, requested, b)
    ensures b.block !in s.sizes && s.next <= b.block
  {
  }

  lemma SpanLive(s: State, b: FreeBlock)
    requires b.block !in s.sizes && forall user :: user in s.live ==> LiveOk(s, user)
    ensures LiveBlocks(s.sizes[b.block := b.size], s.live) == LiveBlocks(s.sizes, s.live)
  {
    if b.block + HEADER_SIZE in s.live {
      assert LiveOk(s, b.block + HEADER_SIZE);
    }
  }

  lemma SpanElsewhere(s: State, id: nat, requested: nat, b: FreeBlock, p: Place)
    requires LiveBlocks(s.sizes[b.block := b.size], s.live) == LiveBlocks(s.sizes, s.live) && p != InTransit(id)
    ensures At(TakeSpan(s, id, requested, b), p) == At(s, p)
  {
    hide LiveBlocks, Blocks, BucketOf;
  }

  lemma SpanPlaced(s: State, loc: Locs, id: nat, requested: nat, b: FreeBlock)
    requires Placed(s, loc) && !PhaseOf(s, id).Held? && b.block !in s.sizes
    requires forall user :: user in s.live ==> LiveOk(s, user)
    ensures Placed(TakeSpan(s, id, requested, b), loc[b.block := InTransit(id)])
  {
    hide Placed, LiveOk, Blocks, BucketOf, LiveBlocks;
    var s' := TakeSpan(s, id, requested, b);
    SpanLive(s, b);
    forall p | p != InTransit(id) ensures At(s', p) == At(s, p) { SpanElsewhere(s, id, requested, b, p); }
    assert At(s, InTransit(id)) == multiset{} && At(s', InTransit(id)) == multiset{b.block};
    hide TakeSpan, At;
    AppearPlaced(s, s', loc, InTransit(id), b.block);
  }

  lemma SpanSizes(s: State, id: nat, requested: nat, b: FreeBlock)
    requires SizesOk(s) && NewBlock(s, requested, b)
    ensures SizesOk(TakeSpan(s, id, requested, b))
  {
  }

  lemma SpanSound(s: State, id: nat, requested: nat, b: FreeBlock)
    requires Sound(s) && NewBlock(s, requested, b) && requested > 0 && b.block !in s.sizes
    ensures Sound(TakeSpan(s, id, requested, b))
  {
    hide SizesFit, Validate;
    var s' := TakeSpan(s, id, requested, b);
    SpanSizes(s, id, requested, b);
    hide SizesFit;
    forall size, k | size in s'.free && 0 <= k < |s'.free[size]| ensures PooledOk(s', size, k) { PooledStays(s, s', size, k); }
    forall user | user in s'.live ensures LiveOk(s', user) { LiveStays(s, s', user); }
    forall i ensures HeldOk(s', PhaseOf(s', i)) {
      if PhaseOf(s', i) == PhaseOf(s, i) { HeldStays(s, s', PhaseOf(s, i)); }
    }
  }

  lemma ArenaHasAlignment(s: State)
    requires SizesOk(s)
    ensures s.arena.alignment > 0
  {
  }

  lemma ReserveInv(s: State, loc: Locs, id: nat) returns (loc': Locs)
    requires Inv(s, loc) && PhaseOf(s, id).Missed? && PlanFor(s, PhaseOf(s, id).requested).Some?
    ensures Inv(Apply(s, Reserve(id)), loc')
  {
    hide PlanFor, NewBlock, SizesFit, Placed, TakeSpan, LiveOk, PooledOk, Validate;
    ArenaHasAlignment(s);
    var requested := PhaseOf(s, id).requested;
    var span := PlanFor(s, requested).value;
    var b := FreeBlock(s.arena.base + span.start, span.size);
    PlanIsNew(s, requested);
    NewBlockIsUnknown(s, requested, b);
    assert HeldOk(s, PhaseOf(s, id));
    SpanSound(s, id, requested, b);
    SpanPlaced(s, loc, id, requested, b);
    loc' := loc[b.block := InTransit(id)];
  }

  // ----- Recording

  /** A held block is nobody else's, so its user pointer is not registered. */
  lemma HeldIsUnregistered(s: State, loc: Locs, id: nat)
    requires Placed(s, loc) && PhaseOf(s, id).Held? && PhaseOf(s, id).block.block in s.sizes
    ensures PhaseOf(s, id).block.block + HEADER_SIZE !in s.live
    ensures PhaseOf(s, id).block.block !in s.lost
  {
    hide Placed;
    var b := PhaseOf(s, id).block.block;
    PlacedAt(s, loc, InTransit(id));
    PlacedAt(s, loc, Live);
    PlacedAt(s, loc, Lost);
    assert b in At(s, InTransit(id));
    assert b !in At(s, Live);
    assert b !in LiveBlocks(s.sizes, s.live);
    assert b !in At(s, Lost);
  }

  lemma RegisterLive(s: State, b: Addr, r: LargeRecord)
    requires b in s.sizes && b + HEADER_SIZE !in s.live
    ensures b !in LiveBlocks(s.sizes, s.live)
    ensures LiveBlocks(s.sizes, s.live[b + HEADER_SIZE := r]) == LiveBlocks(s.sizes, s.live) + {b}
    ensures multiset(LiveBlocks(s.sizes, s.live[b + HEADER_SIZE := r])) == multiset(LiveBlocks(s.sizes, s.live)) + multiset{b}
  {
  }

  lemma LeaveTransit(s: State, s': State, id: nat, p: Place)
    requires s' == s.(phases := s.phases[id := Idle], hdr := s'.hdr, live := s'.live, lost := s'.lost)
    requires p == Live ==> s'.live == s.live
    requires p == Lost ==> s'.lost == s.lost
    requires p != InTransit(id)
    ensures At(s', p) == At(s, p)
  {
    hide LiveBlocks, Blocks, BucketOf;
  }

  /** A recorded block leaves its thread for the registry, or is lost when its header cannot be encoded. */
  lemma RecordPlaced(s: State, loc: Locs, id: nat)
    requires Placed(s, loc) && PhaseOf(s, id).Held? && HeldOk(s, PhaseOf(s, id))
    ensures var ph := PhaseOf(s, id);
            Placed(RecordBlock(s, id, ph.requested, ph.block),
                   loc[ph.block.block := if WriteLarge(ph.requested, ph.block.size - HEADER_SIZE).Some? then Live else Lost])
  {
    hide Placed, LiveBlocks, WriteLarge;
    var ph := PhaseOf(s, id);
    var b, usable := ph.block.block, ph.block.size - HEADER_SIZE;
    var s' := RecordBlock(s, id, ph.requested, ph.block);
    HeldIsUnregistered(s, loc, id);
    var to := if WriteLarge(ph.requested, usable).Some? then Live else Lost;
    forall p | p != to && p != InTransit(id) ensures At(s', p) == At(s, p) { LeaveTransit(s, s', id, p); }
    if to == Live {
      RegisterLive(s, b, LargeRecord(b, ph.block.size, ph.requested, usable));
    } else {
      LoseBlock(s.lost, b);
    }
    MovePlaced(s, s', loc, InTransit(id), to, b);
  }

  lemma LoseBlock(lost: set<Addr>, b: Addr)
    requires b !in lost
    ensures multiset(lost + {b}) == multiset(lost) + multiset{b}
  {
  }

  lemma RecordLive(s: State, id: nat, user: Addr)
    requires PhaseOf(s, id).Held? && HeldOk(s, PhaseOf(s, id)) && PhaseOf(s, id).block.block + HEADER_SIZE !in s.live
    requires user in s.live ==> LiveOk(s, user)
    ensures var s' := RecordBlock(s, id, PhaseOf(s, id).requested, PhaseOf(s, id).block);
            user in s'.live ==> LiveOk(s', user)
  {
    hide BlockSizeFor, PhaseOf, WriteLarge;
  }

  lemma RecordSound(s: State, id: nat)
    requires Sound(s) && PhaseOf(s, id).Held? && PhaseOf(s, id).block.block + HEADER_SIZE !in s.live
    ensures Sound(RecordBlock(s, id, PhaseOf(s, id).requested, PhaseOf(s, id).block))
  {
    hide Validate, LiveOk, PooledOk, SizesFit;
    var ph := PhaseOf(s, id);
    var s' := RecordBlock(s, id, ph.requested, ph.block);
    assert HeldOk(s, ph);
    LargeRoundTrip(ph.requested, ph.block.size - HEADER_SIZE);
    hide SizesFit, Validate;
    forall size, k | size in s'.free && 0 <= k < |s'.free[size]| ensures PooledOk(s', size, k) { PooledStays(s, s', size, k); }
    forall user | user in s'.live ensures LiveOk(s', user) { RecordLive(s, id, user); }
    forall i ensures HeldOk(s', PhaseOf(s', i)) {
      if PhaseOf(s', i) == PhaseOf(s, i) { HeldStays(s, s', PhaseOf(s, i)); }
    }
  }

  // ----- Releasing

  lemma ReleasePlaced(s: State, loc: Locs, user: Addr)
    requires Inv(s, loc) && user in s.live
    ensures var r := s.live[user];
            var s' := s.(live := s.live - {user}, free := InsertFree(s.free, FreeBlock(r.block, r.size)));
            Placed(s', loc[r.block := Pooled(r.size)])
  {
    hide PlacedBy, SizesFit, View, PooledOk, Blocks, LiveBlocks;
    var r := s.live[user];
    var s' := s.(live := s.live - {user}, free := InsertFree(s.free, FreeBlock(r.block, r.size)));
    assert LiveOk(s, user);
    InsertFreeIs(s.free, FreeBlock(r.block, r.size));
    ReleaseLive(s, user);
    hide InsertFree, BucketOf;
    forall p | p != Live && p != Pooled(r.size) ensures At(s', p) == At(s, p) {}
    MovePlaced(s, s', loc, Live, Pooled(r.size), r.block);
  }

  lemma InsertFreeIs(free: Buckets, b: FreeBlock)
    ensures multiset(Blocks(BucketOf(InsertFree(free, b), b.size))) == multiset(Blocks(BucketOf(free, b.size))) + multiset{b.block}
    ensures forall other :: other != b.size ==> BucketOf(InsertFree(free, b), other) == BucketOf(free, other)
  {
    assert Blocks(BucketOf(free, b.size) + [b]) == Blocks(BucketOf(free, b.size)) + [b.block];
  }

  lemma ReleaseLive(s: State, user: Addr)
    requires user in s.live && LiveOk(s, user)
    ensures multiset(LiveBlocks(s.sizes, s.live)) == multiset(LiveBlocks(s.sizes, s.live - {user})) + multiset{s.live[user].block}
  {
    var b := s.live[user].block;
    assert LiveBlocks(s.sizes, s.live) == LiveBlocks(s.sizes, s.live - {user}) + {b};
    assert b !in LiveBlocks(s.sizes, s.live - {user});
  }

  lemma ReleaseSound(s: State, user: Addr)
    requires Sound(s) && user in s.live
    ensures var r := s.live[user];
            Sound(s.(live := s.live - {user}, free := InsertFree(s.free, FreeBlock(r.block, r.size))))
  {
    var r := s.live[user];
    var s' := s.(live := s.live - {user}, free := InsertFree(s.free, FreeBlock(r.block, r.size)));
    assert LiveOk(s, user);
    hide SizesFit;
    forall size, k | size in s'.free && 0 <= k < |s'.free[size]| ensures PooledOk(s', size, k) {
      if size in s.free && k < |s.free[size]| {
        PooledStays(s, s', size, k);
      }
    }
    forall u | u in s'.live ensures LiveOk(s', u) { LiveStays(s, s', u); }
    forall i ensures HeldOk(s', PhaseOf(s', i)) {
      if PhaseOf(s', i) == PhaseOf(s, i) { HeldStays(s, s', PhaseOf(s, i)); }
    }
  }

  lemma OtherInv(s: State, loc: Locs, next: Addr)
    requires Inv(s, loc) && s.next <= next <= s.arena.base + s.arena.len
    ensures Inv(s.(next := next), loc)
  {
    var s' := s.(next := next);
    forall p ensures At(s', p) == At(s, p) {}
    StillPlaced(s, s', loc);
    forall size, k | size in s'.free && 0 <= k < |s'.free[size]| ensures PooledOk(s', size, k) { PooledStays(s, s', size, k); }
    forall user | user in s'.live ensures LiveOk(s', user) { LiveStays(s, s', user); }
    forall i ensures HeldOk(s', PhaseOf(s', i)) {
      if PhaseOf(s', i) == PhaseOf(s, i) { HeldStays(s, s', PhaseOf(s, i)); }
    }
  }

  /** Every step of every thread keeps the invariant. */
  lemma StepKeepsInv(s: State, loc: Locs, l: Label, s': State) returns (loc': Locs)
    requires Inv(s, loc) && Step(s, l, s')
    ensures Inv(s', loc')
  {
    hide Sound, Placed, PlanFor, BestFit, BlockSizeFor, RemoveLast, RecordBlock, ReleaseResult, TakeSpan;
    loc' := loc;
    match l
    case TakeReusable(id, requested, size) => loc' := TakeInv(s, loc, id, requested, size);
    case FindNone(id, requested) => PhaseOnly(s, loc, id, Missed(requested));
    case Reserve(id) => loc' := ReserveInv(s, loc, id);
    case ReserveFails(id) => PhaseOnly(s, loc, id, Idle);
    case Record(id) => loc' := RecordInv(s, loc, id);
    case Release(user, expected) =>
      if ReleaseResult(s, user, expected).Ok? && user in s.live {
        ReleasePlaced(s, loc, user);
        ReleaseSound(s, user);
        loc' := loc[s.live[user].block := Pooled(s.live[user].size)];
      }
    case ReserveOther(size) => OtherPlanInv(s, loc, size);
  }

  lemma TakeInv(s: State, loc: Locs, id: nat, requested: nat, size: nat) returns (loc': Locs)
    requires Inv(s, loc) && !PhaseOf(s, id).Held? && requested > 0 && s.arena.alignment > 0 && BlockSizeFor(s.arena, requested).Some?
    requires BestFit(s.free, BlockSizeFor(s.arena, requested).value, size) && s.free[size] != []
    ensures Inv(s.(free := RemoveLast(s.free, size),
                   phases := s.phases[id := Held(requested, s.free[size][|s.free[size]| - 1])]), loc')
  {
    hide Sound, Placed, BlockSizeFor, RemoveLast;
    TakePlaced(s, loc, id, requested, size);
    TakeSound(s, id, requested, size);
    loc' := loc[s.free[size][|s.free[size]| - 1].block := InTransit(id)];
  }

  lemma RecordInv(s: State, loc: Locs, id: nat) returns (loc': Locs)
    requires Inv(s, loc) && PhaseOf(s, id).Held?
    ensures Inv(RecordBlock(s, id, PhaseOf(s, id).requested, PhaseOf(s, id).block), loc')
  {
    hide Placed, RecordBlock, WriteLarge, Serves;
    var ph := PhaseOf(s, id);
    assert HeldOk(s, ph) && ph.block.size >= HEADER_SIZE by { HeldHasHeader(s, id); }
    HeldIsUnregistered(s, loc, id);
    RecordPlaced(s, loc, id);
    RecordSound(s, id);
    loc' := loc[ph.block.block := if WriteLarge(ph.requested, ph.block.size - HEADER_SIZE).Some? then Live else Lost];
  }

  lemma HeldHasHeader(s: State, id: nat)
    requires Sound(s) && PhaseOf(s, id).Held?
    ensures HeldOk(s, PhaseOf(s, id)) && PhaseOf(s, id).block.size >= HEADER_SIZE
  {
    assert HeldOk(s, PhaseOf(s, id));
  }

  lemma OtherPlanInv(s: State, loc: Locs, size: nat)
    requires Inv(s, loc) && s.arena.alignment > 0 && s.arena.base <= s.next
    requires Arena.PlanBytes(s.arena, size, s.next - s.arena.base).Some?
    ensures var span := Arena.PlanBytes(s.arena, size, s.next - s.arena.base).value;
            Inv(s.(next := s.arena.base + span.start + span.size), loc)
  {
    hide Placed;
    Arena.PlanFits(s.arena, Arena.Request.Bytes(size), s.next - s.arena.base);
    var span := Arena.PlanBytes(s.arena, size, s.next - s.arena.base).value;
    OtherInv(s, loc, s.arena.base + span.start + span.size);
  }

  lemma InitInv(s: State)
    requires Init(s)
    ensures Inv(s, map[])
  {
    forall p ensures View(s)(p) == multiset{} { ViewAt(s, p); assert At(s, p) == multiset{}; }
    var at := View(s);
    forall p, b ensures at(p)[b] <= 1 { assert at(p) == multiset{}; }
  }

  lemma {:induction false} RunInv(states: seq<State>, labels: seq<Label>, n: nat) returns (loc: Locs)
    requires Run(states, labels) && n < |states|
    ensures Inv(states[n], loc)
  {
    if n == 0 {
      InitInv(states[0]);
      loc := map[];
    } else {
      loc := RunInv(states, labels, n - 1);
      assert StepAt(states, labels, n - 1);
      loc := StepKeepsInv(states[n - 1], loc, labels[n - 1], states[n]);
    }
  }

  lemma ReachableInv(s: State) returns (loc: Locs)
    requires Reachable(s)
    ensures Inv(s, loc)
  {
    var states, labels :| Run(states, labels) && states[|labels|] == s;
    loc := RunInv(states, labels, |labels|);
  }

  /** Runs can be extended. */
  lemma StepReachable(s: State, l: Label, s': State)
    requires Reachable(s) && Step(s, l, s')
    ensures Reachable(s')
  {
    hide Step, Init;
    var states, labels :| Run(states, labels) && states[|labels|] == s;
    var states', labels' := states + [s'], labels + [l];
    assert Run(states', labels') by {
      forall i | 0 <= i < |labels'| ensures StepAt(states', labels', i) {
        if i < |labels| {
          assert StepAt(states, labels, i);
        }
      }
    }
    assert states'[|labels'|] == s';
  }

  // ----- Main results

  ghost predicate OnlyAt(s: State, b: Addr, p: Place) {
    At(s, p)[b] == 1 && forall q :: b in At(s, q) ==> q == p
  }

  /** In every interleaving, each reserved large block is in exactly one place: live, pooled, in transit in one thread, or lost. */
  lemma LargeBlockIsInOnePlace(s: State, b: Addr)
    requires Reachable(s)
    ensures b in s.sizes <==> exists p :: OnlyAt(s, b, p)
  {
    var loc := ReachableInv(s);
    hide At, Sound;
    if b in s.sizes {
      PlacedAt(s, loc, loc[b]);
      forall q | b in At(s, q) ensures q == loc[b] { PlacedAt(s, loc, q); }
      assert OnlyAt(s, b, loc[b]);
    }
    if p :| OnlyAt(s, b, p) {
      assert b in At(s, p);
      PlacedAt(s, loc, p);
    }
  }

  /** The panic on a double registration is unreachable. */
  lemma NeverRegisteredTwice(s: State)
    requires Reachable(s)
    ensures !s.panicked
  {
    var loc := ReachableInv(s);
  }

  /** No step changes the size of a block, so a block never shrinks across reuse. */
  lemma BlocksKeepTheirSize(s: State, l: Label, s': State)
    requires Reachable(s) && Step(s, l, s')
    ensures SizesStable(s, s')
  {
    hide Reachable, Step;
    SizesGrowBehindCursor(s, l, s');
  }

  lemma RecordSizes(s: State, id: nat, requested: nat, b: FreeBlock)
    ensures RecordBlock(s, id, requested, b).sizes == s.sizes
  {
  }

  /** New blocks only ever appear behind the cursor. */
  lemma SizesGrowBehindCursor(s: State, l: Label, s': State)
    requires Reachable(s) && Step(s, l, s')
    ensures SizesStable(s, s') && forall b :: b in s'.sizes && b !in s.sizes ==> s.next <= b
  {
    hide Reachable, Placed, NewBlock, PlanFor, BestFit, BlockSizeFor, RemoveLast, RecordBlock, ReleaseResult;
    var loc := ReachableInv(s);
    if l.Reserve? {
      var requested := PhaseOf(s, l.id).requested;
      PlanIsNew(s, requested);
      var span := PlanFor(s, requested).value;
      NewBlockIsUnknown(s, requested, FreeBlock(s.arena.base + span.start, span.size));
    } else if l.Record? {
      RecordSizes(s, l.id, PhaseOf(s, l.id).requested, PhaseOf(s, l.id).block);
    }
  }

  /** Reuse is best fit: the smallest pooled size that holds the request, and of that size the block pooled last. */
  lemma ReusesBestFit(s: State, id: nat, requested: nat, size: nat, s': State)
    requires Reachable(s) && Step(s, TakeReusable(id, requested, size), s')
    ensures PhaseOf(s', id).Held? && PhaseOf(s', id).requested == requested && PhaseOf(s', id).block.size == size
    ensures BucketOf(s.free, size) == BucketOf(s'.free, size) + [PhaseOf(s', id).block]
    ensures HEADER_SIZE + requested <= size
    ensures forall other :: other in s.free && other < size ==> other < HEADER_SIZE + requested
    ensures forall other :: other != size ==> BucketOf(s'.free, other) == BucketOf(s.free, other)
  {
    hide Reachable, Placed, BlockSizeFor, RemoveLast, Sound, PooledOk;
    var loc := ReachableInv(s);
    BlockSizeIsEnough(s.arena, requested);
    RemoveLastIs(s.free, size);
    PooledSize(s, size);
    forall other | other in s.free && other < size ensures other < HEADER_SIZE + requested {
      TooSmall(s, requested, size, other);
    }
  }

  lemma PooledSize(s: State, size: nat)
    requires Sound(s) && size in s.free
    ensures s.free[size] != [] && s.free[size][|s.free[size]| - 1].size == size
    ensures s.arena.alignment > 0 && size % s.arena.alignment == 0
  {
    assert PooledOk(s, size, |s.free[size]| - 1);
  }

  /** A pooled size below the best fit does not hold the request. */
  lemma TooSmall(s: State, requested: nat, size: nat, other: nat)
    requires Sound(s) && s.arena.alignment > 0 && BlockSizeFor(s.arena, requested).Some?
    requires BestFit(s.free, BlockSizeFor(s.arena, requested).value, size) && other in s.free && other < size
    ensures other < HEADER_SIZE + requested
  {
    hide BlockSizeFor, Sound;
    PooledSize(s, other);
    BlockSizeIsLeast(s.arena, requested);
    assert Holds(s.arena, requested, other) <==> HEADER_SIZE + requested <= other;
  }

  /** The registry, the pool and the threads in between all know a block by its real size. */
  lemma SizesAgreeEverywhere(s: State, user: Addr, size: nat, k: nat, id: nat)
    requires Reachable(s)
    ensures user in s.live ==> s.live[user].block in s.sizes && s.sizes[s.live[user].block] == s.live[user].size
    ensures size in s.free && k < |s.free[size]| ==>
              s.free[size][k].block in s.sizes && s.sizes[s.free[size][k].block] == size == s.free[size][k].size
    ensures PhaseOf(s, id).Held? ==>
              PhaseOf(s, id).block.block in s.sizes && s.sizes[PhaseOf(s, id).block.block] == PhaseOf(s, id).block.size
  {
    var loc := ReachableInv(s);
    assert user in s.live ==> LiveOk(s, user);
    assert size in s.free && k < |s.free[size]| ==> PooledOk(s, size, k);
    assert HeldOk(s, PhaseOf(s, id));
  }

  /** Every large block is a multiple of the alignment. */
  lemma SizesAreRounded(s: State, b: Addr)
    requires Reachable(s) && b in s.sizes
    ensures s.arena.alignment > 0 && s.sizes[b] % s.arena.alignment == 0
  {
    var loc := ReachableInv(s);
  }

  /** A thread that reserves a block holds the least multiple of the alignment for its request, at the first aligned address behind the cursor. */
  lemma ReservesLeast(s: State, id: nat, s': State)
    requires Reachable(s) && Step(s, Reserve(id), s')
    ensures PhaseOf(s, id).Missed? && PhaseOf(s', id).Held? && PhaseOf(s', id).requested == PhaseOf(s, id).requested
    ensures var b := PhaseOf(s', id).block;
            && Holds(s.arena, PhaseOf(s, id).requested, b.size)
            && (forall m: nat :: Holds(s.arena, PhaseOf(s, id).requested, m) ==> b.size <= m)
            && s.next <= b.block < s.next + s.arena.alignment && b.block % s.arena.alignment == 0
            && s'.next == b.block + b.size && s'.sizes == s.sizes[b.block := b.size]
  {
    hide Reachable, BlockSizeFor, Arena.PlanBytes, Sound, Placed;
    ReservedSpan(s, PhaseOf(s, id).requested);
    BlockSizeIsLeast(s.arena, PhaseOf(s, id).requested);
  }

  lemma ReservedSpan(s: State, requested: nat)
    requires Reachable(s) && s.arena.alignment > 0 && PlanFor(s, requested).Some?
    ensures s.arena.base <= s.next && BlockSizeFor(s.arena, requested).Some?
    ensures var span := PlanFor(s, requested).value;
            && span.size == BlockSizeFor(s.arena, requested).value
            && s.next <= s.arena.base + span.start < s.next + s.arena.alignment
            && (s.arena.base + span.start) % s.arena.alignment == 0
  {
    hide Reachable, BlockSizeFor, Placed, Arena.PlanBytes;
    var loc := ReachableInv(s);
    var size := BlockSizeFor(s.arena, requested).value;
    Arena.PlanFits(s.arena, Arena.Request.Bytes(size), s.next - s.arena.base);
    Arena.SumOfMultiples(s.arena.base, PlanFor(s, requested).value.start, s.arena.alignment);
  }

  /**
   A block is lost exactly by the registration of a request above 2^32 - 64 bytes, or of any
   request under an alignment above 2^32; every other step conserves every block.
   */
  lemma LostOnlyWhenNotEncodable(s: State, l: Label, s': State)
    requires Reachable(s) && Step(s, l, s')
    ensures s'.lost == if l.Record? && NotEncodable(s.arena, PhaseOf(s, l.id).requested)
                       then s.lost + {PhaseOf(s, l.id).block.block} else s.lost
  {
    var loc := ReachableInv(s);
    if l.Record? {
      var ph := PhaseOf(s, l.id);
      assert HeldOk(s, ph);
      NotEncodableIff(s.arena, ph.requested);
      LargeRoundTrip(ph.requested, ph.block.size - HEADER_SIZE);
    }
    hide Sound, Placed, BlockSizeFor, NotEncodable;
  }

  /** A new allocator over a valid arena. */
  function NewAllocator(g: Arena.Geometry): State {
    State(g, g.base, map[], map[], map[], map[], map[], {}, false)
  }

  /** What the first large request of a new allocator reserves. */
  lemma FirstPlan(g: Arena.Geometry, requested: nat)
    requires g.Valid() && BlockSizeFor(g, requested).Some? && BlockSizeFor(g, requested).value <= g.len
    ensures var size := BlockSizeFor(g, requested).value;
            size > 0 && Arena.PlanBytes(g, size, 0) == Some(Arena.Span(0, size))
  {
    BlockSizeIsEnough(g, requested);
  }

  /** Every request too large for a 32-bit header that fits the arena does lose its block. */
  lemma TooLargeRequestLosesItsBlock(g: Arena.Geometry, requested: nat) returns (states: seq<State>, labels: seq<Label>)
    requires g.Valid() && requested > 0 && NotEncodable(g, requested)
    requires AlignUp(HEADER_SIZE + requested, g.alignment) <= g.len
    ensures Run(states, labels) && labels == [FindNone(0, requested), Reserve(0), Record(0)]
    ensures states[0] == NewAllocator(g) && states[3].lost == {g.base} && states[3].live == map[]
  {
    assert BlockSizeFor(g, requested) == Some(AlignUp(HEADER_SIZE + requested, g.alignment));
    hide BlockSizeFor, Arena.PlanBytes, NotEncodable, AlignUp;
    NotEncodableIff(g, requested);
    FirstPlan(g, requested);
    var size := BlockSizeFor(g, requested).value;
    var s0 := NewAllocator(g);
    var s1 := s0.(phases := s0.phases[0 := Missed(requested)]);
    var b := FreeBlock(g.base, size);
    var s2 := TakeSpan(s1, 0, requested, b);
    var s3 := RecordBlock(s2, 0, requested, b);
    assert Step(s0, FindNone(0, requested), s1);
    assert PlanFor(s1, requested) == Some(Arena.Span(0, size));
    assert Step(s1, Reserve(0), s2);
    assert WriteLarge(requested, size - HEADER_SIZE).None?;
    assert Step(s2, Record(0), s3);
    states, labels := [s0, s1, s2, s3], [FindNone(0, requested), Reserve(0), Record(0)];
    hide Step;
    assert StepAt(states, labels, 0) && StepAt(states, labels, 1) && StepAt(states, labels, 2);
  }

  /** For one, 4 GiB from an arena of 8 GiB. */
  lemma FourGibibytesAreLost() returns (states: seq<State>, labels: seq<Label>)
    ensures Run(states, labels) && states[|labels|].lost == {64}
  {
    var g := Arena.Geometry(64, 0x2_0000_0000, 64);
    assert PowerOfTwo(64) by { assert PowerOfTwo(2); assert PowerOfTwo(8); assert PowerOfTwo(32); }
    states, labels := TooLargeRequestLosesItsBlock(g, 0x1_0000_0000);
    hide Run;
  }

  /** A pooled block can always be given a header again, so reuse never loses one. */
  lemma PooledBlocksAreEncodable(s: State, size: nat, requested: nat)
    requires Reachable(s) && size in s.free && 1 <= requested && HEADER_SIZE + requested <= size
    ensures s.free[size] != [] && WriteLarge(requested, size - HEADER_SIZE).Some?
  {
    var loc := ReachableInv(s);
    assert PooledOk(s, size, 0);
    LargeRoundTrip(requested, size - HEADER_SIZE);
  }

  /** The header of a live large block is its record's, its payload lies in its own block, and live blocks do not overlap. */
  lemma LiveLargeBlocksAreSound(s: State, user: Addr, other: Addr)
    requires Reachable(s) && user in s.live
    ensures var r := s.live[user];
            && user == r.block + HEADER_SIZE && WriteLarge(r.requested, r.usable) == Some(Hdr(s, r.block))
            && Validate(Hdr(s, r.block)) == Ok(Large) && Hdr(s, r.block).tail == ZERO_TAIL
            && user + r.requested <= r.block + r.size <= s.arena.base + s.arena.len
            && s.arena.alignment > 0 && r.block % s.arena.alignment == 0
            && r.usable == r.size - HEADER_SIZE && r.size % s.arena.alignment == 0
    ensures other in s.live && user < other ==> user - HEADER_SIZE + s.live[user].size <= other - HEADER_SIZE
  {
    var loc := ReachableInv(s);
    assert LiveOk(s, user);
    if other in s.live {
      assert LiveOk(s, other);
    }
    var r := s.live[user];
    LargeRoundTrip(r.requested, r.usable);
    hide Placed, Sound;
  }

  /** Live large blocks start at multiples of 64. */
  lemma LargeBlockIsAligned(s: State, user: Addr)
    requires Reachable(s) && user in s.live
    ensures user == s.live[user].block + HEADER_SIZE && s.live[user].block % HEADER_ALIGNMENT == 0
  {
    LiveLargeBlocksAreSound(s, user, user);
    ArenaIsAligned(s);
    DividesTrans(64, s.arena.alignment, s.live[user].block);
  }

  lemma ArenaIsAligned(s: State)
    requires Reachable(s)
    ensures s.arena.alignment > 0 && s.arena.alignment % 64 == 0
  {
    var loc := ReachableInv(s);
    assert PowerOfTwo(64) by { assert PowerOfTwo(2); assert PowerOfTwo(8); assert PowerOfTwo(32); }
    PowersDivide(64, s.arena.alignment);
  }

  lemma LiveIsOk(s: State, user: Addr)
    requires Sound(s) && user in s.live
    ensures LiveOk(s, user)
  {
  }

  /** How a release is answered. */
  ghost function ReleaseAnswer(s: State, user: Addr, expected: Option<nat>): Result<()>
    requires user >= HEADER_SIZE
  {
    var h := Hdr(s, user - HEADER_SIZE);
    if user in s.live then
      if expected.Some? && expected.value != s.live[user].requested then Err(SizeMismatch(expected.value, s.live[user].requested))
      else Ok(())
    else if Validate(h).Err? then Err(CorruptHeader)
    else if expected.Some? && expected.value != h.requested then Err(SizeMismatch(expected.value, h.requested))
    else Err(AlreadyFreedOrUnknownLarge)
  }

  /**
   Releasing is exact on block starts: accepted for a live block with the right size, which is
   pooled last in its bucket, and refused without a change otherwise; a block that is not live
   is reported as already freed as soon as it ever had a header, unless the size is wrong.
   */
  lemma LargeFreeIsExact(s: State, user: Addr, expected: Option<nat>, s': State)
    requires Reachable(s) && Step(s, Release(user, expected), s')
    ensures ReleaseResult(s, user, expected) == ReleaseAnswer(s, user, expected)
    ensures ReleaseResult(s, user, expected).Err? ==> s' == s
    ensures ReleaseResult(s, user, expected).Ok? ==>
              var size := s.live[user].size;
              && s' == s.(live := s.live - {user}, free := s'.free)
              && BucketOf(s'.free, size) == BucketOf(s.free, size) + [FreeBlock(user - HEADER_SIZE, size)]
              && forall other :: other != size ==> BucketOf(s'.free, other) == BucketOf(s.free, other)
  {
    hide Sound, Placed, Reachable;
    var loc := ReachableInv(s);
    HeaderIsLarge(s, user - HEADER_SIZE);
    if user in s.live {
      LiveIsOk(s, user);
      var r := s.live[user];
      LargeRoundTrip(r.requested, r.usable);
    }
  }

  lemma HeaderIsLarge(s: State, b: Addr)
    requires Sound(s)
    ensures Validate(Hdr(s, b)) == Ok(Large) || Validate(Hdr(s, b)) == Err(CorruptHeader)
  {
    if b in s.hdr {
      assert Validate(s.hdr[b]) == Ok(Large);
    }
  }

  // ----- Freeing twice

  /** The step registers the block of this user pointer again. */
  ghost predicate Reissues(s: State, l: Label, user: Addr) {
    l.Record? && PhaseOf(s, l.id).Held? && PhaseOf(s, l.id).block.block + HEADER_SIZE == user
  }

  /** The block was registered before and is not live. */
  ghost predicate Retired(s: State, user: Addr) {
    user >= HEADER_SIZE && user !in s.live && Validate(Hdr(s, user - HEADER_SIZE)) == Ok(Large)
  }

  lemma StaysRetired(s: State, l: Label, s': State, user: Addr)
    requires Step(s, l, s') && Retired(s, user) && !Reissues(s, l, user)
    ensures Retired(s', user)
  {
    hide Validate, WriteLarge, PlanFor, BestFit, ReleaseResult;
  }

  lemma {:induction false} RetiredDuring(states: seq<State>, labels: seq<Label>, n: nat, m: nat, user: Addr)
    requires Run(states, labels) && n <= m < |states| && Retired(states[n], user)
    requires forall j :: n <= j < m ==> !Reissues(states[j], labels[j], user)
    ensures Retired(states[m], user)
    decreases m - n
  {
    hide Step, Retired, Reissues;
    if n < m {
      RetiredDuring(states, labels, n, m - 1, user);
      assert StepAt(states, labels, m - 1);
      StaysRetired(states[m - 1], labels[m - 1], states[m], user);
    }
  }

  /**
   A second release of a large block is reported as such, whatever happens in between, until
   the block is registered again.
   */
  lemma LargeDoubleFreeIsReported(states: seq<State>, labels: seq<Label>, n: nat, m: nat, user: Addr)
    requires Run(states, labels) && n < m < |states| && labels[n].Release? && labels[n].user == user && user >= HEADER_SIZE
    requires ReleaseResult(states[n], user, labels[n].expected).Ok?
    requires forall j :: n < j < m ==> !Reissues(states[j], labels[j], user)
    ensures ReleaseResult(states[m], user, None) == Err(AlreadyFreedOrUnknownLarge)
  {
    hide StepAt, Init, ReleaseResult;
    AcceptedRetires(states, labels, n, user);
    RetiredDuring(states, labels, n + 1, m, user);
    RetiredAnswer(states[m], user);
  }

  lemma AcceptedRetires(states: seq<State>, labels: seq<Label>, n: nat, user: Addr)
    requires Run(states, labels) && n < |labels| && labels[n].Release? && labels[n].user == user && user >= HEADER_SIZE
    requires ReleaseResult(states[n], user, labels[n].expected).Ok?
    ensures Retired(states[n + 1], user)
  {
    assert StepAt(states, labels, n);
  }

  lemma RetiredAnswer(s: State, user: Addr)
    requires Retired(s, user)
    ensures ReleaseResult(s, user, None) == Err(AlreadyFreedOrUnknownLarge)
  {
  }
}

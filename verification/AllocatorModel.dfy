/**
 One allocator shared by any number of thread caches, as a state machine.

 A state holds the header and link words of every small block, every cache, the central
 pool and inbox of every class, the blocks the program holds, and the arena cursor. The
 functions below are the actions of src/allocator.rs on it; `hand` is the batch a running
 action has detached and is empty between actions.
 */
module AllocatorModel {
  import opened Basics
  import opened SizeClasses
  import opened Headers
  import opened CacheModel
  import opened PoolModel
  import Arena

  /** One class of the cache with this id. */
  datatype Key = Key(id: nat, cls: SizeClass)

  /** What the program asked for when it was given a block. */
  datatype LiveRecord = LiveRecord(cls: SizeClass, owner: nat, requested: nat)

  /** Where a cache stands between the lock sections of one small allocation. */
  datatype Phase =
    | Idle
    | Carving(cls: SizeClass, requested: nat)
    | Carved(cls: SizeClass, requested: nat, blocks: seq<Addr>)

  /**
   `next` is the address of the arena cursor; `carved` records every small block start
   reserved so far with its class.
   */
  datatype State = State(
    limits: map<SizeClass, ClassLimits>,
    arena: Arena.Geometry,
    next: Addr,
    carved: map<Addr, SizeClass>,
    hdr: map<Addr, Header>,
    link: map<Addr, Addr>,
    caches: map<Key, ClassCache>,
    staged: map<Key, seq<Addr>>,
    pools: map<SizeClass, Pool>,
    inboxes: map<SizeClass, seq<Addr>>,
    live: map<Addr, LiveRecord>,
    phases: map<nat, Phase>,
    handCls: SizeClass,
    hand: seq<Addr>)

  // ----- Reading a state; whatever was never touched reads as empty

  function Hdr(s: State, b: Addr): Header { if b in s.hdr then s.hdr[b] else ZERO_HEADER }

  function CacheOf(s: State, k: Key): ClassCache { if k in s.caches then s.caches[k] else EMPTY_CACHE }

  function StagedOf(s: State, k: Key): seq<Addr> { if k in s.staged then s.staged[k] else [] }

  function PoolOf(s: State, c: SizeClass): Pool { if c in s.pools then s.pools[c] else [] }

  function InboxOf(s: State, c: SizeClass): seq<Addr> { if c in s.inboxes then s.inboxes[c] else [] }

  function PhaseOf(s: State, id: nat): Phase { if id in s.phases then s.phases[id] else Idle }

  /** The sizing of a class; total, so that the actions need no precondition on the table. */
  function Limits(s: State, c: SizeClass): ClassLimits {
    if c in s.limits then s.limits[c] else ClassLimits(64, 1, 2, 1)
  }

  // ----- Places

  /** The places a small block can be in. */
  datatype Place =
    | Live
    | Hand
    | Hot(key: Key)
    | Reclaimed(key: Key, slab: nat)
    | Untouched(key: Key, slab: nat)
    | Shared(key: Key)
    | Staged(key: Key)
    | Inbox(cls: SizeClass)
    | Central(cls: SizeClass, slab: nat)

  function Contents(s: State, p: Place): seq<Addr> {
    match p
    case Live => []
    case Hand => s.hand
    case Hot(k) => HotSeq(CacheOf(s, k))
    case Reclaimed(k, i) => if i < |CacheOf(s, k).slabs| then CacheOf(s, k).slabs[i].free else []
    case Untouched(k, i) => if i < |CacheOf(s, k).slabs| then CacheOf(s, k).slabs[i].untouched else []
    case Shared(k) => CacheOf(s, k).shared
    case Staged(k) => StagedOf(s, k)
    case Inbox(c) => InboxOf(s, c)
    case Central(c, i) => if i < |PoolOf(s, c)| then PoolOf(s, c)[i].Central() else []
  }

  /** The blocks at a place, with multiplicity. */
  function At(s: State, p: Place): multiset<Addr> {
    if p.Live? then multiset(s.live.Keys) else multiset(Contents(s, p))
  }

  /** Whether a place is an intrusive list threaded through the link words. */
  predicate IsList(s: State, p: Place) {
    match p
    case Live => false
    case Hot(_) => false
    case Untouched(_, _) => false
    case Central(c, i) => i < |PoolOf(s, c)| && !PoolOf(s, c)[i].Full()
    case _ => true
  }

  // ----- Small actions: each moves blocks from one place to another

  /** The previous hot block goes to its local slab or to the shared list. */
  function SpillHot(s: State, k: Key): State {
    var c := CacheOf(s, k);
    if c.hot.None? then s
    else
      var b := c.hot.value;
      var i := HomeOf(c.slabs, b);
      var head := if i < |c.slabs| then Head(c.slabs[i].free) else Head(c.shared);
      s.(caches := s.caches[k := Spill(c.(hot := None), b)], link := s.link[b := head])
  }

  /** A block the program gives back is marked freed and takes the hot slot. */
  function FreeToHot(s: State, k: Key, b: Addr): State {
    s.(live := s.live - {b}, hdr := s.hdr[b := MarkFreed(Hdr(s, b))],
       caches := s.caches[k := CacheOf(s, k).(hot := Some(b))])
  }

  /** A block owned by another cache is marked freed and staged. */
  function FreeToStaged(s: State, k: Key, b: Addr): State {
    s.(live := s.live - {b}, hdr := s.hdr[b := MarkFreed(Hdr(s, b))],
       link := s.link[b := Head(StagedOf(s, k))],
       staged := s.staged[k := [b] + StagedOf(s, k)])
  }

  /** `flush_remote_returns_for_class`: the whole staged list is spliced into the class inbox. */
  function FlushStaged(s: State, k: Key): State {
    var batch := StagedOf(s, k);
    if batch == [] then s
    else
      s.(staged := s.staged[k := []],
         link := s.link[batch[|batch| - 1] := Head(InboxOf(s, k.cls))],
         inboxes := s.inboxes[k.cls := batch + InboxOf(s, k.cls)])
  }

  function DetachShared(s: State, k: Key, max: nat): State {
    var c := CacheOf(s, k);
    var n := Min(max, |c.shared|);
    if n == 0 then s
    else
      s.(caches := s.caches[k := DrainRest(c, FromShared, max)], handCls := k.cls,
         hand := c.shared[..n], link := s.link[c.shared[n - 1] := 0])
  }

  function DetachHot(s: State, k: Key): State {
    var c := CacheOf(s, k);
    if c.hot.None? then s
    else
      s.(caches := s.caches[k := c.(hot := None)], handCls := k.cls,
         hand := [c.hot.value], link := s.link[c.hot.value := 0])
  }

  /** One reclaimed block of local slab `i` joins the batch in hand. */
  function DetachReclaimed(s: State, k: Key, i: nat): State
    requires i < |CacheOf(s, k).slabs| && CacheOf(s, k).slabs[i].free != []
  {
    var c := CacheOf(s, k);
    var b := c.slabs[i].free[0];
    s.(caches := s.caches[k := c.(slabs := c.slabs[i := c.slabs[i].(free := c.slabs[i].free[1..])])],
       handCls := k.cls, hand := [b] + s.hand, link := s.link[b := Head(s.hand)])
  }

  /** One untouched block of local slab `i` gets initialized metadata and joins the batch in hand. */
  function DetachUntouched(s: State, k: Key, i: nat): State
    requires i < |CacheOf(s, k).slabs| && CacheOf(s, k).slabs[i].untouched != []
  {
    var c := CacheOf(s, k);
    var b := c.slabs[i].untouched[0];
    s.(caches := s.caches[k := c.(slabs := c.slabs[i := c.slabs[i].(untouched := c.slabs[i].untouched[1..])])],
       hdr := s.hdr[b := InitializeSmall(k.cls)],
       handCls := k.cls, hand := [b] + s.hand, link := s.link[b := Head(s.hand)])
  }

  function DetachSlab(s: State, k: Key, i: nat, max: nat): State
    decreases max
  {
    if max == 0 || i >= |CacheOf(s, k).slabs| then s
    else if CacheOf(s, k).slabs[i].free != [] then DetachSlab(DetachReclaimed(s, k, i), k, i, max - 1)
    else if CacheOf(s, k).slabs[i].untouched != [] then DetachSlab(DetachUntouched(s, k, i), k, i, max - 1)
    else s
  }

  /** `LocalClassCache::pop_batch`. */
  function Detach(s: State, k: Key, src: Source, max: nat): State {
    match src
    case FromShared => DetachShared(s, k, max)
    case FromSlab(i) => DetachSlab(s, k, i, max)
    case FromHot => DetachHot(s, k)
  }

  /** The list head a returned block is linked to. */
  function ReturnLink(pool: Pool, b: Addr): Addr {
    var i := PoolHome(pool, b);
    if i < |pool| then Head(pool[i].free) else 0
  }

  /** One block of the batch in hand returns to its central slab. */
  function ReturnFromHand(s: State): State
    requires s.hand != []
  {
    var b, pool := s.hand[0], PoolOf(s, s.handCls);
    s.(hand := s.hand[1..], pools := s.pools[s.handCls := ReturnBlock(pool, b)],
       link := s.link[b := ReturnLink(pool, b)])
  }

  function ReturnHand(s: State): State
    decreases |s.hand|
  {
    if s.hand == [] then s else ReturnHand(ReturnFromHand(s))
  }

  /** One block of the class inbox returns to its central slab. */
  function ReturnFromInbox(s: State, c: SizeClass): State
    requires InboxOf(s, c) != []
  {
    var b, pool := InboxOf(s, c)[0], PoolOf(s, c);
    s.(inboxes := s.inboxes[c := InboxOf(s, c)[1..]], pools := s.pools[c := ReturnBlock(pool, b)],
       link := s.link[b := ReturnLink(pool, b)])
  }

  /** `drain_remote_inbox`. */
  function DrainInbox(s: State, c: SizeClass): State
    decreases |InboxOf(s, c)|
  {
    if InboxOf(s, c) == [] then s else DrainInbox(ReturnFromInbox(s, c), c)
  }

  /** The batch half of `take_refill`: a prefix of a partial slab's list is detached. */
  function TakeBatch(s: State, c: SizeClass, i: nat, max: nat): State
    requires i < |PoolOf(s, c)|
  {
    var slab := PoolOf(s, c)[i];
    var batch := PartialBatch(slab, max);
    if batch == [] then s
    else
      s.(pools := s.pools[c := PoolOf(s, c)[i := TakePartial(slab, max)]], handCls := c, hand := batch,
         link := s.link[batch[|batch| - 1] := 0])
  }

  /** `push_shared_batch`: the batch in hand is spliced in front of the shared list. */
  function AcceptHand(s: State, k: Key): State {
    var c := CacheOf(s, k);
    if s.hand == [] then s
    else
      s.(caches := s.caches[k := AcceptBatch(c, s.hand)], hand := [],
         link := s.link[s.hand[|s.hand| - 1] := Head(c.shared)])
  }

  /** The whole-slab half of `take_refill`, and `push_owned_slab` of what it lends. */
  function LoanSlab(s: State, k: Key, i: nat): State
    requires i < |PoolOf(s, k.cls)|
  {
    var slab := PoolOf(s, k.cls)[i];
    s.(pools := s.pools[k.cls := PoolOf(s, k.cls)[i := Loan(slab)]],
       caches := s.caches[k := OwnSlab(CacheOf(s, k), slab.start, slab.blocks)])
  }

  /** The header a popped block gets: the marker is cleared, then as much is rewritten as its path needs. */
  function Refreshed(h: Header, reuse: BlockReuse, c: SizeClass, requested: nat, owner: nat): Header {
    match reuse
    case HotReuseRequestedOnly => RefreshRequested(ClearFreed(h), requested)
    case NeedsOwnerAndRequestedSizeRefresh => RefreshRequestedAndOwner(ClearFreed(h), requested, owner)
    case NeedsHeaderRewrite => WriteSmall(c, requested, owner)
  }

  /** The pop that ends an allocation: the block's header is refreshed and the program has it. */
  function PopLive(s: State, k: Key, src: Source, requested: nat): State
    requires Nonempty(CacheOf(s, k), src)
  {
    var c := CacheOf(s, k);
    var b, reuse := PopBlock(c, src), PopReuse(c, src);
    s.(caches := s.caches[k := PopRest(c, src)],
       hdr := s.hdr[b := Refreshed(Hdr(s, b), reuse, k.cls, requested, k.id)],
       link := if reuse == NeedsHeaderRewrite then s.link[b := 0] else s.link,
       live := s.live[b := LiveRecord(k.cls, k.id, requested)])
  }

  /** `register_slab` and `push_owned_slab` of a span carved from the arena. */
  function RegisterCarved(s: State, k: Key, blocks: seq<Addr>): State
    requires blocks != []
  {
    s.(pools := s.pools[k.cls := Register(PoolOf(s, k.cls), blocks[0], blocks)],
       caches := s.caches[k := OwnSlab(CacheOf(s, k), blocks[0], blocks)],
       phases := s.phases[k.id := Idle])
  }

  // ----- The invariant

  /** Where a block is, and the registered slab it is part of. */
  datatype Loc = Loc(place: Place, cls: SizeClass, slab: nat)

  type Locs = map<Addr, Loc>

  ghost function View(s: State): Place -> multiset<Addr> { p => At(s, p) }

  ghost predicate PlacedBy(at: Place -> multiset<Addr>, loc: Locs) {
    && (forall p, b :: b in at(p) <==> b in loc && loc[b].place == p)
    && (forall p, b :: at(p)[b] <= 1)
  }

  /** Every block is at its place, once, and nowhere else. */
  ghost predicate Placed(s: State, loc: Locs) { PlacedBy(View(s), loc) }

  /** What `Placed` says about one place. */
  lemma PlacedAt(s: State, loc: Locs, p: Place)
    requires Placed(s, loc)
    ensures forall b :: b in At(s, p) <==> b in loc && loc[b].place == p
    ensures forall b :: At(s, p)[b] <= 1
  {
    hide At;
    assert View(s)(p) == At(s, p);
    assert forall b :: View(s)(p)[b] <= 1;
  }

  /** Blocks carved one after the other from a single span. */
  ghost predicate IsSpan(blocks: seq<Addr>, blockSize: nat) {
    blocks != [] && blocks == Arena.Carve(blocks[0], blockSize, |blocks|)
  }

  ghost predicate PoolSlabOk(s: State, loc: Locs, c: SizeClass, i: nat)
    requires i < |PoolOf(s, c)|
  {
    var slab := PoolOf(s, c)[i];
    && slab.Consistent() && slab.blocks != [] && slab.start == slab.blocks[0]
    && |slab.blocks| <= Limits(s, c).refill
    && IsSpan(slab.blocks, Limits(s, c).blockSize)
    && (forall b :: multiset(slab.blocks)[b] <= 1)
    && (forall b :: b in slab.blocks ==> b in loc && loc[b].cls == c && loc[b].slab == i)
  }

  ghost predicate LocalSlabOk(s: State, loc: Locs, k: Key, i: nat)
    requires i < |CacheOf(s, k).slabs|
  {
    var slab := CacheOf(s, k).slabs[i];
    && slab.start in loc && loc[slab.start].cls == k.cls
    && loc[slab.start].slab < |PoolOf(s, k.cls)|
    && PoolOf(s, k.cls)[loc[slab.start].slab].start == slab.start
    && PoolOf(s, k.cls)[loc[slab.start].slab].blocks == slab.blocks
    && (forall j :: 0 <= j < |CacheOf(s, k).slabs| && CacheOf(s, k).slabs[j].start == slab.start ==> j == i)
  }

  /** Slab records agree with each other about geometry; registered slabs are disjoint. */
  ghost predicate Shaped(s: State, loc: Locs) {
    && (forall c, i :: 0 <= i < |PoolOf(s, c)| ==> PoolSlabOk(s, loc, c, i))
    && (forall k, i :: 0 <= i < |CacheOf(s, k).slabs| ==> LocalSlabOk(s, loc, k, i))
    && (forall b :: b in loc ==>
          && loc[b].slab < |PoolOf(s, loc[b].cls)|
          && b in PoolOf(s, loc[b].cls)[loc[b].slab].blocks)
  }

  /** All lists are threaded through the one link memory at once. */
  ghost predicate Threaded(s: State) {
    forall p :: IsList(s, p) ==> Linked(s.link, Contents(s, p))
  }

  ghost predicate LiveHeader(h: Header, r: LiveRecord) {
    h == WriteSmall(r.cls, r.requested, r.owner) && 1 <= r.requested <= Payload(r.cls)
  }

  /** What the header of a block promises at each place, and that the place suits the block. */
  ghost predicate BlockOk(s: State, b: Addr, l: Loc) {
    var h := Hdr(s, b);
    match l.place
    case Live => b in s.live && s.live[b].cls == l.cls && LiveHeader(h, s.live[b])
    case Hand => s.handCls == l.cls && Initialized(h, l.cls) && Rejected(h)
    case Hot(k) => k.cls == l.cls && Initialized(h, l.cls) && h.owner == k.id && h.marker == Freed
    case Reclaimed(k, i) =>
      && k.cls == l.cls && Initialized(h, l.cls) && h.owner == k.id && h.marker == Freed
      && i < |CacheOf(s, k).slabs| && b in CacheOf(s, k).slabs[i].blocks
    case Untouched(k, i) =>
      && k.cls == l.cls && Rejected(h)
      && i < |CacheOf(s, k).slabs| && b in CacheOf(s, k).slabs[i].blocks
    case Shared(k) => k.cls == l.cls && Initialized(h, l.cls) && Rejected(h)
    case Staged(k) => k.cls == l.cls && Initialized(h, l.cls) && Rejected(h)
    case Inbox(c) => c == l.cls && Initialized(h, l.cls) && Rejected(h)
    case Central(c, i) =>
      && c == l.cls && i == l.slab && i < |PoolOf(s, c)|
      && (PoolOf(s, c)[i].Full() || Initialized(h, l.cls)) && Rejected(h)
  }

  ghost predicate BlocksOk(s: State, loc: Locs) {
    forall b :: b in loc ==> BlockOk(s, b, loc[b])
  }

  ghost predicate SameUntouchedSlab(loc: Locs, b: Addr, b': Addr) {
    && b in loc && b' in loc && loc[b].place.Untouched? && loc[b'].place.Untouched?
    && loc[b].cls == loc[b'].cls && loc[b].slab == loc[b'].slab
  }

  /** At most one cache has untouched blocks of a given slab. */
  ghost predicate OneOwner(loc: Locs) {
    forall b, b' :: SameUntouchedSlab(loc, b, b') ==> loc[b].place == loc[b'].place
  }

  ghost predicate SpanOk(s: State, loc: Locs, ph: Phase)
    requires ph.Carved?
  {
    && ph.blocks != [] && |ph.blocks| <= Limits(s, ph.cls).refill
    && IsSpan(ph.blocks, Limits(s, ph.cls).blockSize)
    && (forall b :: multiset(ph.blocks)[b] <= 1)
    && (forall b :: b in ph.blocks ==> b !in loc && b in s.carved && s.carved[b] == ph.cls)
  }

  /** Spans reserved but not yet registered: new, disjoint memory that nobody has written. */
  ghost predicate PendingOk(s: State, loc: Locs) {
    && (forall b :: b in s.hdr ==> b in loc)
    && (forall id :: PhaseOf(s, id).Carved? ==> SpanOk(s, loc, PhaseOf(s, id)))
    && (forall id, id', b ::
          (PhaseOf(s, id).Carved? && PhaseOf(s, id').Carved?
           && b in PhaseOf(s, id).blocks && b in PhaseOf(s, id').blocks) ==> id == id')
  }

  /** The class table fits the arena: blocks keep its alignment and hold a header and a payload. */
  ghost predicate LimitsOk(s: State) {
    && s.arena.Valid()
    && (forall c :: Limits(s, c).Valid()
                    && Limits(s, c).blockSize % s.arena.alignment == 0
                    && Limits(s, c).blockSize >= HEADER_SIZE + Payload(c))
  }

  /** Carved blocks are aligned block starts of this arena, below the cursor, and do not overlap. */
  ghost predicate CarvedOk(s: State)
    requires s.arena.alignment > 0
  {
    && s.arena.base <= s.next <= s.arena.base + s.arena.len
    && (forall b :: b in s.carved ==>
          && Arena.ContainsBlockStart(s.arena, b) && b % s.arena.alignment == 0
          && b + Limits(s, s.carved[b]).blockSize <= s.next)
    && (forall b, b' :: b in s.carved && b' in s.carved && b < b' ==> b + Limits(s, s.carved[b]).blockSize <= b')
  }

  /** Registered blocks were carved for their class. */
  ghost predicate RegisteredOk(s: State, loc: Locs) {
    forall b :: b in loc ==> b in s.carved && s.carved[b] == loc[b].cls
  }

  /** The core invariant, kept even by the small actions inside a lock section. */
  ghost predicate Inv(s: State, loc: Locs) {
    && LimitsOk(s)
    && CarvedOk(s)
    && RegisteredOk(s, loc)
    && Placed(s, loc)
    && Shaped(s, loc)
    && Threaded(s)
    && BlocksOk(s, loc)
    && PendingOk(s, loc)
    && OneOwner(loc)
  }
}

/** The `GlobalAlloc` adapter (src/global_alloc.rs): routing, and the prefix of system fallback blocks. */
module GlobalAlloc {
  import opened Basics
  import opened SizeClasses
  import opened Headers
  import opened AllocatorModel
  import opened AllocatorSteps
  import opened AllocatorTheorems
  import Arena
  import LargeBlocks

  datatype Layout = Layout(size: nat, align: nat) {
    /** What `Layout` guarantees of itself. */
    ghost predicate Valid() { PowerOfTwo(align) && align <= ISIZE_MAX && size <= ISIZE_MAX - (align - 1) }
  }

  const ISIZE_MAX: nat := 0x7fff_ffff_ffff_ffff

  const FALLBACK_MAGIC: nat := 0x4f52_5448_4653_5953
  const PREFIX_SIZE: nat := 24
  const PREFIX_ALIGNMENT: nat := 8

  datatype Backend = System | Orthotope

  function SelectBackend(l: Layout): Backend {
    if l.size == 0 || l.align > HEADER_ALIGNMENT then System else Orthotope
  }

  /** Orthotope serves every non-empty layout whose alignment is at most 64, so one of seven. */
  lemma OrthotopeServes(l: Layout)
    requires l.Valid()
    ensures SelectBackend(l) == Orthotope <==> l.size > 0 && l.align in {1, 2, 4, 8, 16, 32, 64}
  {
    SmallPowers(l.align);
  }

  lemma SmallPowers(n: nat)
    requires PowerOfTwo(n)
    ensures n <= 64 <==> n in {1, 2, 4, 8, 16, 32, 64}
  {
    hide PowerOfTwo;
    var a := HalfOf(n);
    var b := HalfOf(a);
    var c := HalfOf(b);
    var d := HalfOf(c);
    var e := HalfOf(d);
    var f := HalfOf(e);
  }

  lemma HalfOf(n: nat) returns (half: nat)
    requires PowerOfTwo(n)
    ensures PowerOfTwo(half) && 1 <= half && (n == 1 == half || n == 2 * half)
  {
    half := if n == 1 then 1 else n / 2;
  }

  function FallbackAlignment(l: Layout): (alignment: nat) { Max(l.align, PREFIX_ALIGNMENT) }

  /** `Layout::from_size_align` for an alignment that is already a power of two. */
  function FromSizeAlign(size: nat, align: nat): Option<Layout>
    requires align > 0
  {
    if align > ISIZE_MAX || size > ISIZE_MAX - (align - 1) then None else Some(Layout(size, align))
  }

  /** Room for the payload, the prefix and the worst misalignment. */
  function TryFallbackLayout(l: Layout): Option<Layout> {
    var alignment := FallbackAlignment(l);
    match Arena.CheckedAdd(l.size, PREFIX_SIZE)
    case None => None
    case Some(size) =>
      match Arena.CheckedAdd(size, alignment - 1)
      case None => None
      case Some(total) => FromSizeAlign(total, alignment)
  }

  /** A fallback layout exists exactly when payload, prefix and twice the worst misalignment fit `isize`. */
  lemma FallbackLayoutFits(l: Layout)
    requires l.Valid()
    ensures TryFallbackLayout(l).None? <==> l.size + PREFIX_SIZE + 2 * (FallbackAlignment(l) - 1) > ISIZE_MAX
    ensures TryFallbackLayout(l).Some? ==>
              var total := TryFallbackLayout(l).value;
              && total.align == FallbackAlignment(l) && total.Valid()
              && total.size == PREFIX_SIZE + l.size + (total.align - 1)
  {
    assert PowerOfTwo(8) by { assert PowerOfTwo(2); }
  }

  /** Memory as 8-byte words; what was never written reads 0. */
  function WordAt(words: map<Addr, nat>, a: Addr): nat { if a in words then words[a] else 0 }

  class Memory {
    var words: map<Addr, nat>

    constructor ()
      ensures words == map[]
    {
      words := map[];
    }
  }

  /** What the system allocator promises about a block for `l`. */
  ghost predicate SystemBlock(raw: Addr, l: Layout)
    requires l.align > 0
  {
    raw > 0 && raw % l.align == 0 && raw + l.size <= Arena.USIZE_MAX
  }

  /**
   `fallback_alloc`; `raw` is the system allocator's answer for the larger layout. The prefix
   and the payload lie inside the raw block, and the pointer decodes back to it.
   */
  method FallbackAlloc(l: Layout, mem: Memory, raw: Option<Addr>) returns (user: Option<Addr>)
    requires l.Valid() && l.align > 0
    requires raw.Some? && TryFallbackLayout(l).Some? ==> SystemBlock(raw.value, TryFallbackLayout(l).value)
    modifies mem
    ensures user.None? <==> TryFallbackLayout(l).None? || raw.None?
    ensures user.None? ==> mem.words == old(mem.words)
    ensures user.Some? ==>
              && raw.value + PREFIX_SIZE <= user.value
              && user.value + l.size <= raw.value + TryFallbackLayout(l).value.size
              && user.value % FallbackAlignment(l) == 0
              && FallbackRawPtr(mem.words, user.value) == raw
              && user.value == FallbackPointer(l, raw.value) && mem.words == FallbackWords(old(mem.words), l, raw.value)
  {
    var rawLayout := TryFallbackLayout(l);
    if rawLayout.None? || raw.None? {
      return None;
    }
    var alignment := FallbackAlignment(l);
    var aligned := Arena.CheckedAlignUp(raw.value + PREFIX_SIZE, alignment);
    if aligned.None? {
      assert false;
      return None;
    }
    var p := aligned.value;
    mem.words := mem.words[p - 24 := FALLBACK_MAGIC][p - 16 := raw.value][p - 8 := p];
    user := Some(p);
  }

  /** The pointer `fallback_alloc` hands out for the raw block at `raw`. */
  function FallbackPointer(l: Layout, raw: Addr): Addr
    requires l.align > 0
  {
    AlignUp(raw + PREFIX_SIZE, FallbackAlignment(l))
  }

  /** Memory after `fallback_alloc` wrote the prefix of the raw block at `raw`. */
  function FallbackWords(words: map<Addr, nat>, l: Layout, raw: Addr): map<Addr, nat>
    requires l.align > 0
  {
    var p := FallbackPointer(l, raw);
    words[p - 24 := FALLBACK_MAGIC][p - 16 := raw][p - 8 := p]
  }

  /** `fallback_raw_ptr`. */
  function FallbackRawPtr(words: map<Addr, nat>, ptr: Addr): Option<Addr> {
    if ptr < PREFIX_SIZE || ptr - PREFIX_SIZE == 0 then None
    else
      var prefix := ptr - PREFIX_SIZE;
      if WordAt(words, prefix) != FALLBACK_MAGIC || WordAt(words, prefix + 16) != ptr then None
      else Some(WordAt(words, prefix + 8))
  }

  /** A pointer decodes to `raw` exactly when its prefix reads as `fallback_alloc` writes it for that block and pointer. */
  lemma PrefixIsExact(words: map<Addr, nat>, ptr: Addr, raw: Addr)
    requires ptr > PREFIX_SIZE
    ensures FallbackRawPtr(words, ptr) == Some(raw) <==>
            WordAt(words, ptr - 24) == 0x4f52_5448_4653_5953 && WordAt(words, ptr - 16) == raw && WordAt(words, ptr - 8) == ptr
  {
  }

  // ----- Routing a deallocation

  datatype Route = ToSystem | ToSystemFallback(raw: Addr) | ToOrthotope

  function RouteFree(words: map<Addr, nat>, l: Layout, ptr: Addr): Route {
    if SelectBackend(l) == System then ToSystem
    else
      match FallbackRawPtr(words, ptr)
      case Some(raw) => ToSystemFallback(raw)
      case None => ToOrthotope
  }

  /** The last 24 bytes of the header at `b` are the three words just below its user pointer. */
  ghost predicate HoldsTail(words: map<Addr, nat>, b: Addr, h: Header) {
    && WordAt(words, b + 40) == h.tail.word0
    && WordAt(words, b + 48) == h.tail.word1
    && WordAt(words, b + 56) == h.tail.word2
  }

  /** A zero tail never decodes as a fallback prefix. */
  lemma ZeroTailIsNoPrefix(words: map<Addr, nat>, b: Addr, h: Header)
    requires HoldsTail(words, b, h) && h.tail == ZERO_TAIL
    ensures FallbackRawPtr(words, b + HEADER_SIZE).None?
  {
    var ptr := b + HEADER_SIZE;
    assert ptr - PREFIX_SIZE == b + 40;
  }

  /** In every reachable state, freeing a live small block through the adapter reaches Orthotope, never the system. */
  lemma LiveSmallPointerIsNoFallback(s: State, b: Addr, words: map<Addr, nat>, l: Layout)
    requires Reachable(s) && b in s.live && HoldsTail(words, b, Hdr(s, b)) && SelectBackend(l) == Orthotope
    ensures RouteFree(words, l, b + HEADER_SIZE) == ToOrthotope
  {
    LiveBlocksAreSound(s, b, b);
    ZeroTailIsNoPrefix(words, b, Hdr(s, b));
  }

  /** The same for live large blocks. */
  lemma LiveLargePointerIsNoFallback(s: LargeBlocks.State, user: Addr, words: map<Addr, nat>, l: Layout)
    requires LargeBlocks.Reachable(s) && user in s.live && SelectBackend(l) == Orthotope
    requires HoldsTail(words, s.live[user].block, LargeBlocks.Hdr(s, s.live[user].block))
    ensures RouteFree(words, l, user) == ToOrthotope
  {
    LargeBlocks.LiveLargeBlocksAreSound(s, user, user);
    ZeroTailIsNoPrefix(words, s.live[user].block, LargeBlocks.Hdr(s, s.live[user].block));
  }

  /** `words'` differs from `words` at most in words that overlap the payload. */
  ghost predicate OnlyPayloadChanged(words: map<Addr, nat>, words': map<Addr, nat>, user: Addr, size: nat) {
    forall a: Addr :: a + 8 <= user || user + size <= a ==> WordAt(words', a) == WordAt(words, a)
  }

  /**
   Whatever the program writes into the payload of a pointer that `fallback_alloc` returned,
   freeing it with its layout reaches the raw block it came from, with the layout it was
   allocated with.
   */
  lemma FallbackIsFreedWhereItCameFrom(words: map<Addr, nat>, words': map<Addr, nat>, l: Layout, raw: Addr)
    requires l.Valid() && l.align > 0 && SelectBackend(l) == Orthotope
    requires TryFallbackLayout(l).Some? && SystemBlock(raw, TryFallbackLayout(l).value)
    requires OnlyPayloadChanged(FallbackWords(words, l, raw), words', FallbackPointer(l, raw), l.size)
    ensures RouteFree(words', l, FallbackPointer(l, raw)) == ToSystemFallback(raw)
  {
    var p, after := FallbackPointer(l, raw), FallbackWords(words, l, raw);
    assert WordAt(words', p - 24) == WordAt(after, p - 24);
    assert WordAt(words', p - 16) == WordAt(after, p - 16);
    assert WordAt(words', p - 8) == WordAt(after, p - 8);
  }

  /** A user pointer 64 bytes into a 64-byte aligned block has every alignment up to 64. */
  lemma HeaderKeepsAlignment(b: Addr, l: Layout)
    requires b % HEADER_ALIGNMENT == 0 && l.Valid() && SelectBackend(l) == Orthotope
    ensures (b + HEADER_SIZE) % l.align == 0
  {
    assert PowerOfTwo(64) by { assert PowerOfTwo(2); assert PowerOfTwo(8); assert PowerOfTwo(32); }
    PowersDivide(l.align, 64);
    DividesTrans(l.align, 64, b);
    Arena.SumOfMultiples(b, 64, l.align);
  }

  /** Every layout routed to Orthotope and served by a small block gets a pointer of its alignment. */
  lemma SmallPointerMeetsAlignment(s: State, b: Addr, l: Layout)
    requires Reachable(s) && b in s.live && l.Valid() && SelectBackend(l) == Orthotope
    ensures (b + HEADER_SIZE) % l.align == 0
  {
    BlockIsAligned(s, b);
    HeaderKeepsAlignment(b, l);
  }

  /** And so does every one served by a large block. */
  lemma LargePointerMeetsAlignment(s: LargeBlocks.State, user: Addr, l: Layout)
    requires LargeBlocks.Reachable(s) && user in s.live && l.Valid() && SelectBackend(l) == Orthotope
    ensures user % l.align == 0
  {
    LargeBlocks.LargeBlockIsAligned(s, user);
    HeaderKeepsAlignment(s.live[user].block, l);
  }
}

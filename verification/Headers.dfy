/** The 64-byte allocation header (src/header.rs): writers, refreshers, validation and the freed marker. */
module Headers {
  import opened Basics
  import opened SizeClasses

  const HEADER_MAGIC: nat := 0x4f52_5448
  const LARGE_CLASS_SENTINEL: nat := 255
  const KIND_SMALL: nat := 1
  const KIND_LARGE: nat := 2
  const U32_MAX: nat := 0xffff_ffff

  /** The freed-marker word as the allocator uses it; `MarkerWord` gives its bits. */
  datatype Marker = Clear | Freed

  /** The last 24 header bytes as three words: the bytes just below the user pointer. */
  datatype Tail = Tail(word0: nat, word1: nat, word2: nat)

  /** Every header word except the free-list link, which `Basics.Next` reads. */
  datatype Header = Header(
    magic: nat, kind: nat, classIndex: nat,
    requested: nat, usable: nat, owner: nat,
    marker: Marker, tail: Tail)

  const ZERO_TAIL := Tail(0, 0, 0)

  /** What anonymous or reclaimed memory reads as. */
  const ZERO_HEADER := Header(0, 0, 0, 0, 0, 0, Clear, ZERO_TAIL)

  datatype AllocationKind = Small(cls: SizeClass) | Large

  datatype FreeError =
    | ForeignPointer
    | SizeMismatch(provided: nat, recorded: nat)
    | DoubleFree
    | AlreadyFreedOrUnknownLarge
    | CorruptHeader

  datatype Result<+T> = Ok(value: T) | Err(error: FreeError)

  // ----- Writers and refreshers

  function EncodedHeader(kind: nat, classIndex: nat, requested: nat, usable: nat, owner: nat): Header {
    Header(HEADER_MAGIC, kind, classIndex, requested, usable, owner, Clear, ZERO_TAIL)
  }

  /** `write_small_to_block_unchecked`: every word is rewritten. */
  function WriteSmall(c: SizeClass, requested: nat, owner: nat): Header {
    EncodedHeader(KIND_SMALL, Index(c), requested, Payload(c), owner)
  }

  /** `initialize_small_to_block_unchecked`: a full write with no request and no owner. */
  function InitializeSmall(c: SizeClass): Header { WriteSmall(c, 0, 0) }

  function RefreshRequested(h: Header, requested: nat): Header { h.(requested := requested) }

  function RefreshRequestedAndOwner(h: Header, requested: nat, owner: nat): Header {
    h.(requested := requested, owner := owner)
  }

  function MarkFreed(h: Header): Header { h.(marker := Freed) }

  function ClearFreed(h: Header): Header { h.(marker := Clear) }

  /** `write_large_to_block`: fails when either size does not fit its 32-bit field. */
  function WriteLarge(requested: nat, usable: nat): Option<Header> {
    if requested == 0 || usable < requested || usable > U32_MAX then None
    else Some(EncodedHeader(KIND_LARGE, LARGE_CLASS_SENTINEL, requested, usable, 0))
  }

  // ----- Validation

  /** `validate_prefix`. */
  function Validate(h: Header): Result<AllocationKind> {
    if h.magic != HEADER_MAGIC then Err(CorruptHeader)
    else if h.requested == 0 || h.usable < h.requested then Err(CorruptHeader)
    else if h.kind == KIND_SMALL then
      match FromIndex(h.classIndex)
      case None => Err(CorruptHeader)
      case Some(c) => if h.usable != Payload(c) then Err(CorruptHeader) else Ok(Small(c))
    else if h.kind == KIND_LARGE && h.classIndex == LARGE_CLASS_SENTINEL then Ok(Large)
    else Err(CorruptHeader)
  }

  /**
   Validation is the inverse of the writers: what decodes as small agrees with what is written
   for that class and request, what decodes as large with what is written for those sizes, up
   to owner, marker and tail.
   */
  lemma ValidateIsExact(h: Header)
    ensures forall c :: Validate(h) == Ok(Small(c)) <==>
              1 <= h.requested <= Payload(c) && SameFields(h, WriteSmall(c, h.requested, h.owner))
    ensures Validate(h) == Ok(Large) <==>
              1 <= h.requested <= h.usable && SameFields(h, EncodedHeader(KIND_LARGE, LARGE_CLASS_SENTINEL, h.requested, h.usable, h.owner))
    ensures Validate(h).Err? ==> Validate(h) == Err(CorruptHeader)
  {
    forall c { IndexRoundTrip(c); }
    if FromIndex(h.classIndex).Some? {
      assert Index(FromIndex(h.classIndex).value) == h.classIndex;
    }
  }

  /** An initialized header is a class and nothing more: no request, no owner, no mark, so it does not decode. */
  lemma InitializedIsBlank(c: SizeClass)
    ensures var h := InitializeSmall(c);
            && Initialized(h, c) && h.requested == 0 && h.owner == 0 && h.marker == Clear
            && Validate(h) == Err(CorruptHeader)
  {
  }

  predicate SameFields(h: Header, h': Header) {
    && h.magic == h'.magic && h.kind == h'.kind && h.classIndex == h'.classIndex
    && h.requested == h'.requested && h.usable == h'.usable
  }

  /** The header fields that let a later refresh touch only request and owner. */
  predicate Initialized(h: Header, c: SizeClass) {
    && h.magic == HEADER_MAGIC && h.kind == KIND_SMALL && h.classIndex == Index(c)
    && h.usable == Payload(c) && h.tail == ZERO_TAIL
  }

  /** A header that the free path rejects: it does not decode, or it carries the freed marker. */
  predicate Rejected(h: Header) {
    match Validate(h)
    case Err(_) => true
    case Ok(Small(_)) => h.marker == Freed
    case Ok(Large) => false
  }

  /** A refresh of an initialized header, marker cleared first, equals a full rewrite. */
  lemma RefreshEqualsRewrite(h: Header, c: SizeClass, requested: nat, owner: nat)
    requires Initialized(h, c)
    ensures RefreshRequestedAndOwner(ClearFreed(h), requested, owner) == WriteSmall(c, requested, owner)
    ensures h.owner == owner ==> RefreshRequested(ClearFreed(h), requested) == WriteSmall(c, requested, owner)
  {
  }

  /** Small headers round trip through validation exactly for the requests their class can hold. */
  lemma SmallRoundTrip(c: SizeClass, requested: nat, owner: nat)
    ensures Validate(WriteSmall(c, requested, owner)) ==
            if 1 <= requested <= Payload(c) then Ok(Small(c)) else Err(CorruptHeader)
  {
    IndexRoundTrip(c);
  }

  /** A large header is written exactly when the usable size fits 32 bits, and then decodes to its own sizes. */
  lemma LargeRoundTrip(requested: nat, usable: nat)
    requires 1 <= requested <= usable
    ensures WriteLarge(requested, usable).Some? <==> usable <= U32_MAX
    ensures WriteLarge(requested, usable).Some? ==>
              var h := WriteLarge(requested, usable).value;
              Validate(h) == Ok(Large) && h.requested == requested && h.usable == usable
  {
  }

  // ----- The freed marker, bit by bit (debug builds, 64-bit words)

  const SMALL_FREE_MARKER_SEED: bv64 := 0xffff_ffff_ffff_ffff ^ 0x4f52_5448

  function SmallFreeMarkerFor(blockStart: bv64): bv64 {
    SMALL_FREE_MARKER_SEED ^ blockStart.RotateLeft(17) ^ 64
  }

  function MarkerWord(m: Marker, blockStart: bv64): bv64 {
    match m
    case Clear => 0
    case Freed => SmallFreeMarkerFor(blockStart)
  }

  /** A word whose six low bits are clear: a 64-byte aligned address. */
  predicate Aligned(w: bv64) { w & 63 == 0 }

  /** The marker of a 64-byte aligned block is never the cleared word. */
  lemma MarkerNeverZero(blockStart: bv64)
    requires Aligned(blockStart)
    ensures SmallFreeMarkerFor(blockStart) != 0
  {
    var rotated := blockStart.RotateLeft(17);
    assert rotated & 0x7e_0000 == 0;
    assert (SMALL_FREE_MARKER_SEED ^ 64) & 0x7e_0000 != 0;
  }

  /** So the word comparison of `small_block_is_marked_freed` decides the flag exactly. */
  lemma MarkerWordDecides(m: Marker, blockStart: bv64)
    requires Aligned(blockStart)
    ensures MarkerWord(m, blockStart) == SmallFreeMarkerFor(blockStart) <==> m == Freed
  {
    MarkerNeverZero(blockStart);
  }

  /** The 64-bit word that holds an address. */
  function Word(a: Addr): bv64 { if a < 0x1_0000_0000_0000_0000 then a as bv64 else 0 }

  /** `small_block_is_marked_freed`: the marker word of the header at `b` is compared with the block's own marker. */
  predicate MarkedFreed(h: Header, b: Addr) { MarkerWord(h.marker, Word(b)) == SmallFreeMarkerFor(Word(b)) }

  function Doubled(w: bv64): bv64 { w + w }

  predicate SameWord(v: bv64, w: bv64) { v == w }

  lemma BitsOfDouble(a: Addr)
    requires a + a < 0x1_0000_0000_0000_0000
    ensures SameWord((a + a) as bv64, (a as bv64) + (a as bv64))
  {
  }

  lemma WordOfDouble(a: Addr)
    requires a + a < 0x1_0000_0000_0000_0000
    ensures Word(a + a) == Doubled(Word(a))
  {
    BitsOfDouble(a);
  }

  lemma SixDoublings(w: bv64)
    ensures Aligned(Doubled(Doubled(Doubled(Doubled(Doubled(Doubled(w)))))))
  {
  }

  /** A multiple of 64 is some number doubled six times, and so is its word. */
  lemma AlignedWord(a: Addr)
    requires a < 0x1_0000_0000_0000_0000 && a % 64 == 0
    ensures Aligned(Word(a))
  {
    hide Word, Doubled, Aligned;
    var q := a / 64;
    WordOfDouble(q);
    WordOfDouble(2 * q);
    WordOfDouble(4 * q);
    WordOfDouble(8 * q);
    WordOfDouble(16 * q);
    WordOfDouble(32 * q);
    SixDoublings(Word(q));
    assert Word(a) == Doubled(Doubled(Doubled(Doubled(Doubled(Doubled(Word(q)))))));
  }

  /** On aligned block starts the word comparison is the flag. */
  lemma MarkedFreedIsFlag(h: Header, b: Addr)
    requires b < 0x1_0000_0000_0000_0000 && b % 64 == 0
    ensures MarkedFreed(h, b) <==> h.marker == Freed
  {
    AlignedWord(b);
    MarkerWordDecides(h.marker, Word(b));
  }
}

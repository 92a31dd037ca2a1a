/** The twelve small-request classes (src/size_class.rs) and per-class cache sizing (src/config.rs). */
module SizeClasses {
  import opened Basics

  const HEADER_SIZE: nat := 64
  const HEADER_ALIGNMENT: nat := 64
  const BLOCK_ALIGNMENT: nat := 64

  datatype SizeClass =
    B64 | B256 | B4K | B6K | B8K | B16K | B32K | B64K | B128K | B256K | B1M | B16M

  /** Maps a request size to its class; zero and large requests have none. */
  function FromRequest(size: nat): Option<SizeClass> {
    if size == 0 then None
    else if size <= 64 then Some(B64)
    else if size <= 256 then Some(B256)
    else if size <= 4096 then Some(B4K)
    else if size <= 6144 then Some(B6K)
    else if size <= 8192 then Some(B8K)
    else if size <= 16_384 then Some(B16K)
    else if size <= 32_768 then Some(B32K)
    else if size <= 65_536 then Some(B64K)
    else if size <= 131_072 then Some(B128K)
    else if size <= 262_144 then Some(B256K)
    else if size <= 1_048_576 then Some(B1M)
    else if size <= 16_777_216 then Some(B16M)
    else None
  }

  function Payload(c: SizeClass): nat {
    match c
    case B64 => 64
    case B256 => 256
    case B4K => 4096
    case B6K => 6144
    case B8K => 8192
    case B16K => 16_384
    case B32K => 32_768
    case B64K => 65_536
    case B128K => 131_072
    case B256K => 262_144
    case B1M => 1_048_576
    case B16M => 16_777_216
  }

  function Index(c: SizeClass): nat {
    match c
    case B64 => 0
    case B256 => 1
    case B4K => 2
    case B6K => 3
    case B8K => 4
    case B16K => 5
    case B32K => 6
    case B64K => 7
    case B128K => 8
    case B256K => 9
    case B1M => 10
    case B16M => 11
  }

  function FromIndex(i: nat): Option<SizeClass> {
    match i
    case 0 => Some(B64)
    case 1 => Some(B256)
    case 2 => Some(B4K)
    case 3 => Some(B6K)
    case 4 => Some(B8K)
    case 5 => Some(B16K)
    case 6 => Some(B32K)
    case 7 => Some(B64K)
    case 8 => Some(B128K)
    case 9 => Some(B256K)
    case 10 => Some(B1M)
    case 11 => Some(B16M)
    case _ => None
  }

  function AlignUp(value: nat, alignment: nat): (r: nat)
    requires alignment > 0
    ensures value <= r < value + alignment
    ensures r % alignment == 0
  {
    var rem := value % alignment;
    if rem == 0 then value
    else
      RoundsUp(value, alignment);
      value + (alignment - rem)
  }

  lemma RoundsUp(value: nat, alignment: nat)
    requires alignment > 0 && value % alignment != 0
    ensures (value + (alignment - value % alignment)) % alignment == 0
  {
    var q := value / alignment;
    assert value == q * alignment + value % alignment;
    assert value + (alignment - value % alignment) == (q + 1) * alignment;
    MultipleMod(q + 1, alignment);
  }

  lemma {:induction false} MultipleMod(q: nat, m: nat)
    requires m > 0
    ensures (q * m) % m == 0
  {
    if q > 0 {
      MultipleMod(q - 1, m);
      assert q * m == (q - 1) * m + m;
      AddModulus((q - 1) * m, m);
    }
  }

  lemma AddModulus(x: nat, m: nat)
    requires m > 0
    ensures (x + m) % m == x % m
  {
    var q, r := x / m, x % m;
    assert x + m == (q + 1) * m + r;
    DivModUnique(x + m, q + 1, r, m);
  }

  lemma DivModUnique(x: nat, q: nat, r: nat, m: nat)
    requires m > 0 && r < m && x == q * m + r
    ensures x / m == q && x % m == r
  {
    var q' := x / m;
    if q' > q {
      MulGap(q', q, m);
    } else if q' < q {
      MulGap(q, q', m);
    }
  }

  lemma MulGap(a: nat, b: nat, m: nat)
    requires a > b
    ensures a * m >= b * m + m
  {
    assert a * m == b * m + m + (a - b - 1) * m;
  }

  function Quotient(a: nat, b: nat): nat
    requires b > 0
  {
    a / b
  }

  /** Full block size under an alignment: header plus payload, rounded up; never below 64-byte alignment. */
  function BlockSize(c: SizeClass, alignment: nat): (r: nat)
    ensures HEADER_SIZE + Payload(c) <= r < HEADER_SIZE + Payload(c) + Max(BLOCK_ALIGNMENT, alignment)
    ensures r % Max(BLOCK_ALIGNMENT, alignment) == 0
  {
    AlignUp(Payload(c) + HEADER_SIZE, Max(BLOCK_ALIGNMENT, alignment))
  }

  /** What an allocator and its caches need to know about one class. */
  datatype ClassLimits = ClassLimits(blockSize: nat, refill: nat, local: nat, drain: nat) {
    ghost predicate Valid() {
      && blockSize >= HEADER_SIZE && blockSize % HEADER_ALIGNMENT == 0
      && refill >= 1 && local >= 2 && drain >= 1 && drain <= refill
    }
  }

  datatype Config = Config(arenaSize: nat, alignment: nat, refillTarget: nat, localTarget: nat)

  ghost predicate PowerOfTwo(n: nat) {
    n == 1 || (n > 1 && n % 2 == 0 && PowerOfTwo(n / 2))
  }

  /** The checks of `validate_config` and `validate_allocator_config` together. */
  ghost predicate ValidConfig(cfg: Config) {
    && cfg.arenaSize > 0 && PowerOfTwo(cfg.alignment)
    && cfg.alignment >= HEADER_ALIGNMENT && cfg.arenaSize >= cfg.alignment
  }

  /** `refill_count`: whole blocks of the refill target, at least one. */
  function RefillCount(cfg: Config, c: SizeClass): nat {
    Max(1, Quotient(cfg.refillTarget, BlockSize(c, cfg.alignment)))
  }

  /** `local_limit`: whole blocks of the local target, at least two. */
  function LocalLimit(cfg: Config, c: SizeClass): nat {
    Max(2, Quotient(cfg.localTarget, BlockSize(c, cfg.alignment)))
  }

  /** `drain_count`: half a refill, at least one. */
  function DrainCount(cfg: Config, c: SizeClass): nat { Max(1, RefillCount(cfg, c) / 2) }

  function LimitsFor(cfg: Config, c: SizeClass): ClassLimits {
    ClassLimits(BlockSize(c, cfg.alignment), RefillCount(cfg, c), LocalLimit(cfg, c), DrainCount(cfg, c))
  }

  /** A class holds exactly the requests that fit its payload and no smaller class's. */
  lemma RequestFitsClass(size: nat)
    ensures match FromRequest(size)
            case None => size == 0 || size > 16_777_216
            case Some(c) => 1 <= size <= Payload(c) && (Index(c) > 0 ==> Payload(FromIndex(Index(c) - 1).value) < size)
  {
  }

  lemma IndexRoundTrip(c: SizeClass)
    ensures FromIndex(Index(c)) == Some(c)
  {
  }

  lemma {:induction false} PowersDivide(p: nat, q: nat)
    requires PowerOfTwo(p) && PowerOfTwo(q) && p <= q
    ensures q % p == 0
    decreases q
  {
    if p == 1 || p == q {
    } else {
      HalvesOrdered(p, q);
      PowersDivide(p / 2, q / 2);
      var k := (q / 2) / (p / 2);
      assert q / 2 == k * (p / 2);
      assert q == k * p;
      MultipleMod(k, p);
    }
  }

  lemma HalvesOrdered(p: nat, q: nat)
    requires p <= q
    ensures p / 2 <= q / 2
  {
  }

  /** Every valid configuration gives usable limits, and blocks keep the arena's alignment. */
  lemma LimitsAreValid(cfg: Config, c: SizeClass)
    requires ValidConfig(cfg)
    ensures LimitsFor(cfg, c).Valid()
    ensures LimitsFor(cfg, c).blockSize % cfg.alignment == 0
    ensures LimitsFor(cfg, c).blockSize >= HEADER_SIZE + Payload(c)
  {
    var size := BlockSize(c, cfg.alignment);
    assert PowerOfTwo(64) by { assert PowerOfTwo(2); assert PowerOfTwo(8); assert PowerOfTwo(32); }
    PowersDivide(64, cfg.alignment);
    DividesTrans(64, cfg.alignment, size);
    assert RefillCount(cfg, c) / 2 <= RefillCount(cfg, c);
  }

  /** `n` is how many whole blocks of `size` bytes there are in `target` bytes. */
  predicate WholeBlocks(n: nat, size: nat, target: nat) { n * size <= target < (n + 1) * size }

  lemma QuotientIsWholeBlocks(target: nat, size: nat)
    requires size > 0
    ensures WholeBlocks(Quotient(target, size), size, target)
  {
    var n := Quotient(target, size);
    assert (n + 1) * size == n * size + size;
  }

  lemma FewWholeBlocks(n: nat, size: nat, target: nat, bound: nat)
    requires size > 0 && WholeBlocks(n, size, target)
    ensures n < bound <==> target < bound * size
  {
    if n < bound {
      MulMonotone(n + 1, bound, size);
    } else {
      MulMonotone(bound, n, size);
    }
  }

  lemma MulMonotone(a: nat, b: nat, m: nat)
    requires a <= b
    ensures a * m <= b * m
  {
    assert b * m == a * m + (b - a) * m;
  }

  /**
   The sizing numbers of a class. A block is the least multiple of the alignment that holds
   header and payload; a refill is the whole blocks of its own target, but at least one; the
   limit those of its own target, but at least two; a drain half a refill, but at least one.
   */
  lemma SizingNumbers(cfg: Config, c: SizeClass)
    requires ValidConfig(cfg)
    ensures var size := BlockSize(c, cfg.alignment);
            && size % cfg.alignment == 0 && HEADER_SIZE + Payload(c) <= size < HEADER_SIZE + Payload(c) + cfg.alignment
            && (if cfg.refillTarget < size then RefillCount(cfg, c) == 1
                else WholeBlocks(RefillCount(cfg, c), size, cfg.refillTarget))
            && (if cfg.localTarget < 2 * size then LocalLimit(cfg, c) == 2
                else WholeBlocks(LocalLimit(cfg, c), size, cfg.localTarget))
    ensures if RefillCount(cfg, c) == 1 then DrainCount(cfg, c) == 1
            else 2 * DrainCount(cfg, c) <= RefillCount(cfg, c) <= 2 * DrainCount(cfg, c) + 1
  {
    var size := BlockSize(c, cfg.alignment);
    hide BlockSize, Quotient;
    QuotientIsWholeBlocks(cfg.refillTarget, size);
    FewWholeBlocks(Quotient(cfg.refillTarget, size), size, cfg.refillTarget, 1);
    QuotientIsWholeBlocks(cfg.localTarget, size);
    FewWholeBlocks(Quotient(cfg.localTarget, size), size, cfg.localTarget, 2);
  }

  /** `AllocatorConfig::default`. */
  const DEFAULT_CONFIG := Config(0x4000_0000, 64, 0x8000, 0x1_0000)

  /** The numbers of the default configuration, class by class. */
  function DefaultLimits(c: SizeClass): ClassLimits {
    match c
    case B64 => ClassLimits(128, 256, 512, 128)
    case B256 => ClassLimits(320, 102, 204, 51)
    case B4K => ClassLimits(4160, 7, 15, 3)
    case B6K => ClassLimits(6208, 5, 10, 2)
    case B8K => ClassLimits(8256, 3, 7, 1)
    case B16K => ClassLimits(16448, 1, 3, 1)
    case B32K => ClassLimits(32832, 1, 2, 1)
    case B64K => ClassLimits(65600, 1, 2, 1)
    case B128K => ClassLimits(131136, 1, 2, 1)
    case B256K => ClassLimits(262208, 1, 2, 1)
    case B1M => ClassLimits(1048640, 1, 2, 1)
    case B16M => ClassLimits(16777280, 1, 2, 1)
  }

  lemma DefaultNumbers(c: SizeClass)
    ensures LimitsFor(DEFAULT_CONFIG, c) == DefaultLimits(c)
  {
    var cfg := DEFAULT_CONFIG;
    var size, n, m := DefaultLimits(c).blockSize, DefaultLimits(c).refill, DefaultLimits(c).local;
    assert BlockSize(c, 64) == size;
    assert 0x8000 / size == if size > 0x8000 then 0 else n;
    assert 0x1_0000 / size == if size > 0x8000 then 0x1_0000 / size else m;
  }

  /** Larger classes have larger payloads and, in the default configuration, larger blocks. */
  lemma ClassesAscend(c: SizeClass, c': SizeClass)
    requires Index(c) < Index(c')
    ensures Payload(c) < Payload(c')
    ensures BlockSize(c, 64) < BlockSize(c', 64)
  {
    DefaultNumbers(c);
    DefaultNumbers(c');
  }

  lemma DividesTrans(a: nat, b: nat, c: nat)
    requires a > 0 && b > 0 && b % a == 0 && c % b == 0
    ensures c % a == 0
  {
    var x, y := b / a, c / b;
    assert c == y * (x * a);
    assert c == (y * x) * a;
    MultipleMod(y * x, a);
  }
}

/** The monotonic arena (src/arena.rs): its arithmetic and its lock-free bump cursor. */
module Arena {
  import opened Basics
  import opened SizeClasses

  const USIZE_MAX: nat := 0xffff_ffff_ffff_ffff

  /** The aligned base of the mapping, its usable length and the block alignment. */
  datatype Geometry = Geometry(base: Addr, len: nat, alignment: nat) {
    /** What `Arena::new` establishes: the whole range is addressable and the base is aligned. */
    ghost predicate Valid() {
      && base > 0 && len > 0 && base + len <= USIZE_MAX
      && PowerOfTwo(alignment) && alignment >= HEADER_ALIGNMENT && base % alignment == 0
    }
  }

  function CheckedAdd(a: nat, b: nat): Option<nat> { if a + b <= USIZE_MAX then Some(a + b) else None }

  function CheckedAlignUp(value: nat, alignment: nat): (r: Option<nat>)
    requires alignment > 0
    ensures r == if AlignUp(value, alignment) <= USIZE_MAX then Some(AlignUp(value, alignment)) else None
  {
    var rem := value % alignment;
    if rem == 0 then (if value <= USIZE_MAX then Some(value) else None) else CheckedAdd(value, alignment - rem)
  }

  /** A reservation: `size` bytes at offset `start` of the mapping. */
  datatype Span = Span(start: nat, size: nat)

  datatype Request = Bytes(size: nat) | Blocks(blockSize: nat, target: nat)

  /** What one pass of the retry loops computes from the cursor value it loaded. */
  function Plan(g: Geometry, request: Request, current: nat): Option<Span>
    requires g.alignment > 0
  {
    match request
    case Bytes(size) => PlanBytes(g, size, current)
    case Blocks(blockSize, target) => PlanBlocks(g, blockSize, target, current)
  }

  /** `reserve_span`. */
  function PlanBytes(g: Geometry, size: nat, current: nat): Option<Span>
    requires g.alignment > 0
  {
    if size == 0 then None
    else
      match CheckedAlignUp(current, g.alignment)
      case None => None
      case Some(aligned) =>
        match CheckedAdd(aligned, size)
        case None => None
        case Some(end) => if end > g.len then None else Some(Span(aligned, size))
  }

  /** `reserve_block_span`: as many whole blocks as fit, up to the target. */
  function PlanBlocks(g: Geometry, blockSize: nat, target: nat, current: nat): Option<Span>
    requires g.alignment > 0
  {
    if blockSize == 0 || target == 0 then None
    else
      match CheckedAlignUp(current, g.alignment)
      case None => None
      case Some(aligned) =>
        var remaining := if aligned <= g.len then g.len - aligned else 0;
        var blocks := Min(target, Quotient(remaining, blockSize));
        if blocks == 0 || blocks * blockSize > USIZE_MAX then None
        else
          match CheckedAdd(aligned, blocks * blockSize)
          case None => None
          case Some(end) => if end > g.len then None else Some(Span(aligned, blocks * blockSize))
  }

  // ----- Arithmetic of reservations

  lemma QuotientBounds(a: nat, b: nat)
    requires b > 0
    ensures Quotient(a, b) * b <= a < Quotient(a, b) * b + b
  {
  }

  lemma MultiplesApart(x: nat, y: nat, m: nat)
    requires m > 0 && x % m == 0 && y % m == 0 && x > y
    ensures x >= y + m
  {
    var p, q := x / m, y / m;
    assert x == p * m && y == q * m;
    if p <= q {
      MulMonotone(p, q, m);
    } else {
      MulGap(p, q, m);
    }
  }

  lemma AlignUpMonotone(a: nat, b: nat, m: nat)
    requires m > 0 && a <= b
    ensures AlignUp(a, m) <= AlignUp(b, m)
  {
    if AlignUp(a, m) > AlignUp(b, m) {
      MultiplesApart(AlignUp(a, m), AlignUp(b, m), m);
    }
  }

  lemma QuotientPositive(a: nat, b: nat)
    requires b > 0
    ensures Quotient(a, b) > 0 <==> a >= b
  {
    QuotientBounds(a, b);
    if Quotient(a, b) > 0 {
      MulGap(Quotient(a, b), 0, b);
    }
  }

  /** `n` blocks are as many as fit into `len` bytes from `start` on, up to the target. */
  ghost predicate TakesWhatFits(len: nat, blockSize: nat, target: nat, start: nat, n: nat) {
    1 <= n <= target && start + n * blockSize <= len && (n == target || start + (n + 1) * blockSize > len)
  }

  /**
   A plan starts at the first aligned offset at or after the cursor, is not empty and ends
   inside the arena; a plan for blocks takes as many as fit, up to the target.
   */
  lemma PlanFits(g: Geometry, request: Request, current: nat)
    requires g.alignment > 0 && g.len <= USIZE_MAX && Plan(g, request, current).Some?
    ensures var span := Plan(g, request, current).value;
            && current <= span.start < current + g.alignment && span.start % g.alignment == 0
            && span.size > 0 && span.start + span.size <= g.len
    ensures request.Bytes? ==> Plan(g, request, current).value.size == request.size
    ensures request.Blocks? ==>
              var span := Plan(g, request, current).value;
              exists n :: span.size == n * request.blockSize && TakesWhatFits(g.len, request.blockSize, request.target, span.start, n)
  {
    match request
    case Bytes(_) =>
    case Blocks(blockSize, target) =>
      var aligned := AlignUp(current, g.alignment);
      var remaining := if aligned <= g.len then g.len - aligned else 0;
      var n := Min(target, Quotient(remaining, blockSize));
      MulGap(n, 0, blockSize);
      MulMonotone(n, Quotient(remaining, blockSize), blockSize);
      QuotientBounds(remaining, blockSize);
      if n < target {
        assert (n + 1) * blockSize == n * blockSize + blockSize;
      }
      assert Plan(g, request, current).value.size == n * blockSize;
      assert TakesWhatFits(g.len, blockSize, target, aligned, n);
  }

  /** There is no plan for blocks exactly when not even one whole block fits after the cursor. */
  lemma PlanFailsWhenNoBlockFits(g: Geometry, blockSize: nat, target: nat, current: nat)
    requires g.alignment > 0 && g.len <= USIZE_MAX && blockSize > 0 && target > 0
    ensures PlanBlocks(g, blockSize, target, current).None? <==> AlignUp(current, g.alignment) + blockSize > g.len
  {
    var aligned := AlignUp(current, g.alignment);
    var remaining := if aligned <= g.len then g.len - aligned else 0;
    QuotientPositive(remaining, blockSize);
    QuotientBounds(remaining, blockSize);
    var n := Min(target, Quotient(remaining, blockSize));
    MulMonotone(n, Quotient(remaining, blockSize), blockSize);
  }

  lemma PlanBytesFails(g: Geometry, size: nat, current: nat)
    requires g.alignment > 0 && g.len <= USIZE_MAX && size > 0
    ensures PlanBytes(g, size, current).None? <==> AlignUp(current, g.alignment) + size > g.len
  {
  }

  /** Exhaustion is permanent: the cursor only grows, so what did not fit once never fits again. */
  lemma NoFitForever(g: Geometry, request: Request, current: nat, later: nat)
    requires g.alignment > 0 && g.len <= USIZE_MAX && current <= later
    requires Plan(g, request, current).None?
    ensures Plan(g, request, later).None?
  {
    AlignUpMonotone(current, later, g.alignment);
    match request
    case Bytes(size) =>
      if size > 0 {
        PlanBytesFails(g, size, current);
        PlanBytesFails(g, size, later);
      }
    case Blocks(blockSize, target) =>
      if blockSize > 0 && target > 0 {
        PlanFailsWhenNoBlockFits(g, blockSize, target, current);
        PlanFailsWhenNoBlockFits(g, blockSize, target, later);
      }
  }

  /** A span planned for blocks is the one planned for its bytes. */
  lemma BlocksPlanIsBytesPlan(g: Geometry, blockSize: nat, target: nat, current: nat)
    requires g.alignment > 0 && g.len <= USIZE_MAX && PlanBlocks(g, blockSize, target, current).Some?
    ensures var span := PlanBlocks(g, blockSize, target, current).value;
            PlanBytes(g, span.size, current) == Some(span)
  {
    PlanFits(g, Request.Blocks(blockSize, target), current);
  }

  // ----- Carving a span into blocks

  function BlockAt(start: Addr, blockSize: nat, i: nat): Addr { start + i * blockSize }

  /** The block starts of a span of `n` blocks, in address order. */
  function Carve(start: Addr, blockSize: nat, n: nat): (blocks: seq<Addr>)
    ensures |blocks| == n
  {
    seq(n, i requires 0 <= i < n => BlockAt(start, blockSize, i))
  }

  /** `contains_block_start`. */
  predicate ContainsBlockStart(g: Geometry, b: Addr)
    requires g.alignment > 0
  {
    g.base <= b < g.base + g.len && (b - g.base) % g.alignment == 0
  }

  /** The block starts an arena recognises are the multiples of its alignment from its base on, inside the mapping. */
  lemma BlockStartsAreMultiples(g: Geometry, b: Addr)
    requires g.alignment > 0
    ensures ContainsBlockStart(g, b) <==> exists k: nat :: b == BlockAt(g.base, g.alignment, k) && k * g.alignment < g.len
  {
    if ContainsBlockStart(g, b) {
      var k := (b - g.base) / g.alignment;
      assert b == BlockAt(g.base, g.alignment, k);
    }
    if k: nat :| b == BlockAt(g.base, g.alignment, k) && k * g.alignment < g.len {
      MultipleMod(k, g.alignment);
    }
  }

  lemma SumOfMultiples(x: nat, y: nat, m: nat)
    requires m > 0 && x % m == 0 && y % m == 0
    ensures (x + y) % m == 0
  {
    var p, q := x / m, y / m;
    assert x == p * m && y == q * m;
    assert x + y == (p + q) * m;
    MultipleMod(p + q, m);
  }

  lemma ProductOfMultiple(i: nat, x: nat, m: nat)
    requires m > 0 && x % m == 0
    ensures (i * x) % m == 0
  {
    var q := x / m;
    assert i * x == i * (q * m);
    assert i * x == (i * q) * m;
    MultipleMod(i * q, m);
  }

  /** Block `i` lies inside the span, and ends where the next one begins or the span ends. */
  lemma BlockInside(start: Addr, blockSize: nat, n: nat, i: nat)
    requires i < n
    ensures start <= BlockAt(start, blockSize, i)
    ensures BlockAt(start, blockSize, i) + blockSize <= start + n * blockSize
    ensures BlockAt(start, blockSize, i + 1) == BlockAt(start, blockSize, i) + blockSize
  {
    MulMonotone(i + 1, n, blockSize);
    assert (i + 1) * blockSize == i * blockSize + blockSize;
  }

  lemma BlocksApart(start: Addr, blockSize: nat, i: nat, j: nat)
    requires i < j
    ensures BlockAt(start, blockSize, i) + blockSize <= BlockAt(start, blockSize, j)
  {
    MulGap(j, i, blockSize);
  }

  /** Blocks of one span do not overlap, so no address appears twice. */
  lemma {:induction false} CarveOnce(start: Addr, blockSize: nat, n: nat)
    requires blockSize > 0
    ensures forall b :: multiset(Carve(start, blockSize, n))[b] <= 1
    decreases n
  {
    var l := Carve(start, blockSize, n);
    if n > 0 {
      var front := Carve(start, blockSize, n - 1);
      CarveOnce(start, blockSize, n - 1);
      assert l == front + [l[n - 1]];
      forall i | 0 <= i < n - 1 ensures front[i] != l[n - 1] { BlocksApart(start, blockSize, i, n - 1); }
      assert l[n - 1] !in front;
      assert multiset(l) == multiset(front) + multiset{l[n - 1]};
    }
  }

  /** Every carved block start is aligned, is recognised by the arena, and owns its whole block. */
  lemma CarveInside(g: Geometry, span: Span, blockSize: nat, n: nat, b: Addr)
    requires g.Valid() && blockSize % g.alignment == 0 && blockSize > 0
    requires span.start % g.alignment == 0 && span.size == n * blockSize && span.start + span.size <= g.len
    requires b in Carve(g.base + span.start, blockSize, n)
    ensures g.base + span.start <= b && b + blockSize <= g.base + span.start + span.size
    ensures b % g.alignment == 0 && ContainsBlockStart(g, b)
  {
    var start := g.base + span.start;
    var i :| 0 <= i < n && b == BlockAt(start, blockSize, i);
    BlockInside(start, blockSize, n, i);
    ProductOfMultiple(i, blockSize, g.alignment);
    SumOfMultiples(span.start, i * blockSize, g.alignment);
    SumOfMultiples(g.base, span.start + i * blockSize, g.alignment);
    assert b - g.base == span.start + i * blockSize;
  }

  // ----- Pages

  function AlignDown(value: nat, alignment: nat): (r: nat)
    requires alignment > 0
    ensures r <= value < r + alignment
  {
    value - value % alignment
  }

  /** `page_aligned_inner_range`: the whole pages inside a byte range, as (address, length). */
  function PageAlignedInnerRange(start: Addr, len: nat, page: nat): Option<(Addr, nat)>
    requires page > 0
  {
    if len == 0 || start + len > USIZE_MAX then None
    else
      match CheckedAlignUp(start, page)
      case None => None
      case Some(first) =>
        var last := AlignDown(start + len, page);
        if first >= last then None else Some((first, last - first))
  }

  /** `p` begins a whole page inside the byte range. */
  ghost predicate WholePage(start: Addr, len: nat, page: nat, p: Addr)
    requires page > 0
  {
    p % page == 0 && start <= p && p + page <= start + len
  }

  lemma WholePageInside(start: Addr, len: nat, page: nat, first: Addr, last: Addr, p: Addr)
    requires page > 0 && first % page == 0 && last % page == 0
    requires start <= first < start + page && last <= start + len < last + page
    ensures WholePage(start, len, page, p) <==> p % page == 0 && first <= p && p + page <= last
  {
    if WholePage(start, len, page, p) {
      if p < first {
        MultiplesApart(first, p, page);
      }
      MultiplesApart(last, p, page);
    }
  }

  lemma RoundsDown(value: nat, page: nat)
    requires page > 0
    ensures AlignDown(value, page) % page == 0
  {
    var q := value / page;
    assert AlignDown(value, page) == q * page;
    MultipleMod(q, page);
  }

  lemma DifferenceOfMultiples(x: nat, y: nat, m: nat)
    requires m > 0 && x % m == 0 && y % m == 0 && x >= y
    ensures (x - y) % m == 0
  {
    var p, q := x / m, y / m;
    assert x == p * m && y == q * m;
    if p < q {
      MulGap(q, p, m);
    }
    assert x - y == (p - q) * m;
    MultipleMod(p - q, m);
  }

  /**
   The range is a positive number of pages, and its pages are exactly the whole pages of the
   bytes; there is no range exactly when there is no whole page.
   */
  lemma InnerRangeIsWholePages(start: Addr, len: nat, page: nat)
    requires page > 0
    ensures var r := PageAlignedInnerRange(start, len, page);
            && (r.None? <==> start + len > USIZE_MAX || forall p: Addr :: !WholePage(start, len, page, p))
            && (r.Some? ==>
                  var (first, size) := r.value;
                  && first % page == 0 && size % page == 0 && size > 0
                  && start <= first && first + size <= start + len
                  && (forall p: Addr :: WholePage(start, len, page, p) <==> p % page == 0 && first <= p && p + page <= first + size))
  {
    var first, last := AlignUp(start, page), AlignDown(start + len, page);
    RoundsDown(start + len, page);
    forall p: Addr ensures WholePage(start, len, page, p) <==> p % page == 0 && first <= p && p + page <= last {
      WholePageInside(start, len, page, first, last, p);
    }
    if first < last {
      DifferenceOfMultiples(last, first, page);
      MultiplesApart(last, first, page);
      assert WholePage(start, len, page, first);
    }
  }

  /** The page at `p` shares a byte with the range, so advice about the range drops all of it. */
  ghost predicate PageOf(range: (Addr, nat), page: nat, p: Addr)
    requires page > 0
  {
    p % page == 0 && p < range.0 + range.1 && range.0 < p + page
  }

  /** A page that shares a byte with a range of whole pages lies inside it. */
  lemma PageInsideRange(first: Addr, size: nat, page: nat, p: Addr)
    requires page > 0 && first % page == 0 && size % page == 0 && PageOf((first, size), page, p)
    ensures first <= p && p + page <= first + size
  {
    if p < first {
      MultiplesApart(first, p, page);
    }
    SumOfMultiples(first, size, page);
    MultiplesApart(first + size, p, page);
  }

  // ----- The bump cursor under contention

  /**
   One caller of the retry loop: `begun` and `seen` count successes when it began and when it
   last loaded, `fails` its own exchanges that failed because the cursor had moved.
   */
  datatype Caller =
    | Ready(request: Request, begun: nat, fails: nat)
    | Loaded(request: Request, begun: nat, fails: nat, current: nat, seen: nat)
    | Done(request: Request, begun: nat, fails: nat, span: Span)
    | Exhausted(request: Request, begun: nat, fails: nat, current: nat)

  /** The cursor, its callers, and every span handed out so far, oldest first. */
  datatype Cursor = Cursor(g: Geometry, next: nat, callers: map<nat, Caller>, spans: seq<Span>)

  datatype CasLabel =
    | Begin(id: nat, request: Request)
    | Load(id: nat)
    | CasSucceeds(id: nat)
    | CasFails(id: nat, spurious: bool)

  /** Zero-sized requests are refused before the loop. */
  predicate NonZero(request: Request) {
    match request
    case Bytes(size) => size > 0
    case Blocks(blockSize, target) => blockSize > 0 && target > 0
  }

  ghost predicate CasEnabled(s: Cursor, l: CasLabel)
    requires s.g.alignment > 0
  {
    match l
    case Begin(id, request) =>
      && NonZero(request)
      && (id !in s.callers || s.callers[id].Done? || s.callers[id].Exhausted?)
    case Load(id) => id in s.callers && s.callers[id].Ready?
    case CasSucceeds(id) =>
      && id in s.callers && s.callers[id].Loaded? && s.callers[id].current == s.next
      && Plan(s.g, s.callers[id].request, s.callers[id].current).Some?
    case CasFails(id, spurious) =>
      && id in s.callers && s.callers[id].Loaded? && (spurious || s.callers[id].current != s.next)
  }

  function CasApply(s: Cursor, l: CasLabel): Cursor
    requires s.g.alignment > 0 && CasEnabled(s, l)
  {
    match l
    case Begin(id, request) => s.(callers := s.callers[id := Ready(request, |s.spans|, 0)])
    case Load(id) =>
      var c := s.callers[id];
      var after := if Plan(s.g, c.request, s.next).None? then Exhausted(c.request, c.begun, c.fails, s.next)
                   else Loaded(c.request, c.begun, c.fails, s.next, |s.spans|);
      s.(callers := s.callers[id := after])
    case CasSucceeds(id) =>
      var c := s.callers[id];
      var span := Plan(s.g, c.request, c.current).value;
      s.(next := span.start + span.size, spans := s.spans + [span], callers := s.callers[id := Done(c.request, c.begun, c.fails, span)])
    case CasFails(id, spurious) =>
      var c := s.callers[id];
      s.(callers := s.callers[id := Ready(c.request, c.begun, if c.current == s.next then c.fails else c.fails + 1)])
  }

  ghost predicate SpansOk(s: Cursor)
    requires s.g.alignment > 0
  {
    && (forall i :: 0 <= i < |s.spans| ==>
          && s.spans[i].size > 0 && s.spans[i].start % s.g.alignment == 0
          && s.spans[i].start + s.spans[i].size <= Min(s.next, s.g.len))
    && (forall i, j :: 0 <= i < j < |s.spans| ==> s.spans[i].start + s.spans[i].size <= s.spans[j].start)
  }

  /** A caller's real failures never outnumber the successes of others since it began. */
  ghost predicate CallerOk(s: Cursor, id: nat)
    requires id in s.callers && s.g.alignment > 0
  {
    match s.callers[id]
    case Ready(_, begun, fails) => begun + fails <= |s.spans|
    case Loaded(request, begun, fails, current, seen) =>
      && begun + fails <= seen <= |s.spans| && current <= s.next
      && (current == s.next <==> seen == |s.spans|)
      && Plan(s.g, request, current).Some?
    case Done(_, begun, fails, span) => begun + fails < |s.spans| && span in s.spans
    case Exhausted(request, begun, fails, current) => begun + fails <= |s.spans| && current <= s.next && Plan(s.g, request, current).None?
  }

  ghost predicate CursorInv(s: Cursor) {
    && s.g.Valid() && SpansOk(s)
    && (forall id :: id in s.callers ==> CallerOk(s, id))
  }

  ghost predicate CursorInit(s: Cursor) {
    s.g.Valid() && s.next == 0 && s.callers == map[] && s.spans == []
  }

  lemma CasKeepsInv(s: Cursor, l: CasLabel)
    requires CursorInv(s) && CasEnabled(s, l)
    ensures CursorInv(CasApply(s, l))
    ensures s.next <= CasApply(s, l).next
    ensures l.CasSucceeds? <==> CasApply(s, l).next != s.next
  {
    var s' := CasApply(s, l);
    if l.CasSucceeds? {
      var c := s.callers[l.id];
      PlanFits(s.g, c.request, c.current);
    }
    forall id | id in s'.callers ensures CallerOk(s', id) {
      if id in s.callers {
        assert CallerOk(s, id);
      }
    }
  }

  ghost predicate CasRun(states: seq<Cursor>, labels: seq<CasLabel>) {
    && |states| == |labels| + 1 && CursorInit(states[0])
    && (forall i :: 0 <= i < |labels| ==>
          CasStepAt(states, labels, i))
  }

  ghost predicate CasStepAt(states: seq<Cursor>, labels: seq<CasLabel>, i: nat)
    requires i < |labels| && |states| == |labels| + 1
  {
    && states[i].g.alignment > 0 && CasEnabled(states[i], labels[i])
    && states[i + 1] == CasApply(states[i], labels[i])
  }

  lemma {:induction false} CasRunInv(states: seq<Cursor>, labels: seq<CasLabel>, n: nat)
    requires CasRun(states, labels) && n < |states|
    ensures CursorInv(states[n]) && states[n].g == states[0].g
  {
    if n > 0 {
      CasRunInv(states, labels, n - 1);
      assert CasStepAt(states, labels, n - 1);
      CasKeepsInv(states[n - 1], labels[n - 1]);
    }
  }

  /**
   For every interleaving of loads and weak compare-exchanges: reserved spans are aligned,
   inside the mapping and pairwise disjoint in the order they were won, and a caller has
   really failed at most once per span won since it began, its own not counted.
   */
  lemma ReservationsAreDisjoint(states: seq<Cursor>, labels: seq<CasLabel>)
    requires CasRun(states, labels)
    ensures var s := states[|labels|];
            && s.g.Valid() && SpansOk(s)
            && (forall id :: id in s.callers ==>
                  s.callers[id].fails <= |s.spans| - s.callers[id].begun - if s.callers[id].Done? then 1 else 0)
  {
    CasRunInv(states, labels, |labels|);
    var s := states[|labels|];
    forall id | id in s.callers
      ensures s.callers[id].fails <= |s.spans| - s.callers[id].begun - if s.callers[id].Done? then 1 else 0
    {
      assert CallerOk(s, id);
    }
  }

  /** No ABA: a compare-exchange that succeeds did so before anyone else's, since its own load. */
  lemma SuccessMeansUndisturbed(states: seq<Cursor>, labels: seq<CasLabel>, n: nat)
    requires CasRun(states, labels) && n < |labels| && labels[n].CasSucceeds?
    ensures labels[n].id in states[n].callers
    ensures var c := states[n].callers[labels[n].id];
            c.Loaded? && c.seen == |states[n].spans| && states[n].next < states[n + 1].next
  {
    CasRunInv(states, labels, n);
    assert CasStepAt(states, labels, n);
    CasKeepsInv(states[n], labels[n]);
    assert CallerOk(states[n], labels[n].id);
  }

  /** A caller told that the arena is exhausted would be told so again at any later cursor value. */
  lemma ExhaustionIsPermanent(states: seq<Cursor>, labels: seq<CasLabel>, id: nat)
    requires CasRun(states, labels)
    requires id in states[|labels|].callers && states[|labels|].callers[id].Exhausted?
    ensures states[|labels|].g.alignment > 0
    ensures Plan(states[|labels|].g, states[|labels|].callers[id].request, states[|labels|].next).None?
  {
    var s := states[|labels|];
    CasRunInv(states, labels, |labels|);
    assert CallerOk(s, id);
    NoFitForever(s.g, s.callers[id].request, s.callers[id].current, s.next);
  }
}

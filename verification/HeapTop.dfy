/**
 * The end of the segment: how top is set up, grown by memory from the system and cut
 * when memory goes back.
 */
module HeapTop {
  import opened Arithmetic
  import opened SizeClass
  import opened TreeLinks
  import opened Bins
  import opened ChunkMemory
  import opened BinStores
  import opened Tiling
  import opened Tags
  import opened HeapState
  import opened HeapSteps
  import opened HeapMoves
  import opened HeapFree

  /** Below address e, memory m' holds what m holds. */
  ghost predicate KeptBelow(m: Memory, m': Memory, e: int) {
    && m.Keys <= m'.Keys
    && (forall a {:trigger m'[a]} :: a in m && a < e ==> m'[a] == m[a])
  }

  lemma TableFrame(m: Memory, m': Memory, smallmap: bv32, treemap: bv32, b: Bins, e: int)
    requires TableOk(m, smallmap, treemap, b) && KeptBelow(m, m', e) && HEAP_MIN <= e
    requires forall c :: c in b.binned ==> c + b.binned[c] <= e
    ensures TableOk(m', smallmap, treemap, b)
  {
    hide BinsInv, MapsOk;
    forall p | p in b.binned ensures Stored(m', b.lk, p, b.binned[p]) && HeadAt(m', p, b.binned[p]) {
      assert Stored(m, b.lk, p, b.binned[p]) && HeadAt(m, p, b.binned[p]);
    }
    forall i | 0 <= i < NBINS ensures Header(m', b.lk, i) { assert Header(m, b.lk, i); }
  }

  /** init_top on a top of size n: its head, and the head of the overhead behind it. */
  function TopSet(m: Memory, top: int, n: int): Memory {
    m[top + 4 := n + 1][top + n + 4 := TOP_FOOT_SIZE]
  }

  lemma MoveTags(m: Memory, m1: Memory, g: Row, n: int)
    requires TagsOk(m, g) && KeptBelow(m, m1, g.top + 1) && n > 0 && Worded(n)
    requires Backed(m1, g.base, g.top + n + TOP_FOOT_SIZE)
    ensures TagsOk(TopSet(m1, g.top, n), g.(topsize := n))
  {
    hide Aligned, Worded, Backed;
    var g', m' := g.(topsize := n), TopSet(m1, g.top, n);
    RowFrame(g);
    forall p | p in g.tiles ensures Seated(g', p) && Tagged(m', g', p) {
      Tag(m, g, p);
      TopApart(m, g, p);
    }
    forall p, q ensures Clear(g', p, q) { assert Clear(g, p, q); }
    BackedMore(m1, m', g.base, g.top + n + TOP_FOOT_SIZE);
  }

  /** The border of the segment moves, up or down: only top changes. */
  lemma MoveEnd(h: Heap, m1: Memory, n: int)
    requires HeapOk(h, {}) && KeptBelow(h.m, m1, h.g.top + 4) && n > 0 && Worded(n)
    requires Backed(m1, h.g.base, h.g.top + n + TOP_FOOT_SIZE)
    ensures var h' := h.(m := TopSet(m1, h.g.top, n), g := h.g.(topsize := n));
      HeapOk(h', {}) && Preserved(h.m, h'.m, h.g, h'.g, {}) && Live(h'.g) == Live(h.g)
  {
    hide TableOk, RowOk, Backed, Aligned, Tagged;
    var g', m' := h.g.(topsize := n), TopSet(m1, h.g.top, n);
    MoveTags(h.m, m1, h.g, n);
    OpenHeap(h, {});
    RowFrame(h.g);
    forall c | c in h.b.binned ensures c + h.b.binned[c] <= h.g.top {
      assert Binned(h, c);
      Seat(h.g, c);
    }
    TableFrame(h.m, m', h.smallmap, h.treemap, h.b, h.g.top);
    KeepRoles(h, {}, m', g', {});
    forall r | r in h.g.tiles && h.g.tiles[r].used ensures BlockKept(h.m, m', h.g, g', r) { Seat(h.g, r); }
  }

  /** The first segment: all of it is top. */
  function FirstRow(base: int, n: int): Row {
    Row(map[], map[], base, base, n)
  }

  lemma FirstHeap(m: Memory, b: Bins, base: int, n: int)
    requires TableOk(m, 0, 0, b) && b.binned == map[]
    requires base >= HEAP_MIN && Aligned(base) && n > 0 && Worded(n) && Backed(m, base, base + n + TOP_FOOT_SIZE)
    ensures HeapOk(Heap(TopSet(m, base, n), 0, 0, b, FirstRow(base, n), 0, 0), {})
  {
    hide TableOk, Aligned, Worded, Backed;
    var m' := TopSet(m, base, n);
    TableFrame(m, m', 0, 0, b, base);
    BackedMore(m, m', base, base + n + TOP_FOOT_SIZE);
  }

  // ---------------------------------------------------------------- sizes of what is asked of the system

  const PAGE := 4096
  const HALF_MAX_SIZE_T := 0x7FFF_FFFF
  const SYS_ALLOC_PADDING := TOP_FOOT_SIZE + 8
  const TRIM_THRESHOLD := 0x20_0000

  /** granularity_align and page_align, in 32-bit arithmetic; both units are one page. */
  function PageAlign(s: nat): nat {
    ((s + PAGE - 1) % WORD_SPAN) / PAGE * PAGE
  }

  /** align_offset */
  function AlignOffset(a: nat): nat {
    if a % 8 == 0 then 0 else (8 - a % 8) % 8
  }

  /** n is the least whole number of pages that holds `need` bytes. */
  predicate LeastPages(n: int, need: int) {
    n % PAGE == 0 && need <= n < need + PAGE
  }

  /** Rounding up to pages, when it does not wrap around. */
  lemma PageAlignLeast(s: nat)
    requires s + PAGE <= WORD_SPAN
    ensures LeastPages(PageAlign(s), s) && forall n: nat :: n % PAGE == 0 && s <= n ==> PageAlign(s) <= n
  {}

  lemma LeastOnce(a: int, b: int, need: int)
    requires LeastPages(a, need) && LeastPages(b, need)
    ensures a == b
  {
    assert a == a / PAGE * PAGE && b == b / PAGE * PAGE;
  }

  /** The padded request does not fit in 32 bits, or not when rounded up to pages. */
  predicate Wraps(nb: nat) { nb + SYS_ALLOC_PADDING + PAGE > WORD_SPAN }

  /** What rounding up the padded request gives: the comparison with the request tells whether it wraps around. */
  lemma PaddedRequest(nb: nat)
    requires nb < WORD_SPAN
    ensures var asize := PageAlign((nb + SYS_ALLOC_PADDING) % WORD_SPAN);
      && (asize <= nb <==> nb + SYS_ALLOC_PADDING + PAGE > WORD_SPAN)
      && (asize > nb ==> LeastPages(asize, nb + SYS_ALLOC_PADDING) && asize < WORD_SPAN)
  {}

  /** The bytes up to the next page border. */
  function ToPage(base: nat): nat {
    (WORD_SPAN + PageAlign(base) - base) % WORD_SPAN
  }

  lemma ToPageAligns(base: nat)
    requires base < WORD_SPAN
    ensures ToPage(base) == (PAGE - base % PAGE) % PAGE && (base + ToPage(base)) % PAGE == 0
    ensures base % PAGE == 0 ==> ToPage(base) == 0
  {
    var q, r := base / PAGE, base % PAGE;
    assert base == q * PAGE + r && q < WORD_SPAN / PAGE;
    assert PageAlign(base) == if r == 0 then q * PAGE else if q + 1 < WORD_SPAN / PAGE then (q + 1) * PAGE else 0;
  }

  /**
   * The core missing for a request that nothing at hand can serve: the least number of whole
   * pages for the request with its padding, less what top already has; for the first segment
   * from a trusted break also the bytes up to the next page border, so that it ends at one; and
   * with nothing deducted once the break is no longer trusted.
   */
  ghost predicate MissingCore(nb: nat, contiguous: bool, first: bool, brk: nat, topsize: nat, n: nat) {
    if !contiguous then LeastPages(n, nb + SYS_ALLOC_PADDING)
    else if first then LeastPages(n - (PAGE - brk % PAGE) % PAGE, nb + SYS_ALLOC_PADDING)
    else LeastPages(n, nb + SYS_ALLOC_PADDING - topsize)
  }

  /** A whole number of pages that holds `need` bytes is no less than the least one. */
  lemma LeastIsLeast(n: int, need: int, k: int)
    requires LeastPages(n, need) && k % PAGE == 0 && need <= k
    ensures n <= k
  {
    assert n == n / PAGE * PAGE && k == k / PAGE * PAGE;
  }

  lemma MissingOnce(nb: nat, contiguous: bool, first: bool, brk: nat, topsize: nat, a: nat, b: nat)
    requires MissingCore(nb, contiguous, first, brk, topsize, a) && MissingCore(nb, contiguous, first, brk, topsize, b)
    ensures a == b
  {
    var d := if contiguous && first then (PAGE - brk % PAGE) % PAGE else 0;
    LeastOnce(a - d, b - d, nb + SYS_ALLOC_PADDING - if contiguous && !first then topsize else 0);
  }

  lemma PageAligned(x: int)
    requires x % PAGE == 0
    ensures Aligned(x)
  {
    AlignedTimes(x / PAGE, PAGE);
  }

  lemma OffsetAligns(base: nat)
    ensures Aligned(base + AlignOffset(base + 8)) && 0 <= AlignOffset(base + 8) < 8
    ensures AlignOffset(base + 8) == 0 <==> Aligned(base)
    ensures Worded(AlignOffset(base + 8)) <==> Worded(base)
  {}

  /** A sum with an aligned, or a word-sized, number. */
  lemma SameRest(x: int, y: int)
    ensures Aligned(x) ==> (Aligned(y) <==> Aligned(x + y)) && (Aligned(y) <==> Aligned(x - y))
    ensures Worded(x) ==> (Worded(y) <==> Worded(x + y)) && (Worded(y) <==> Worded(x - y))
  {
    AlignedSum(x, y);
    AlignedSum(x, x + y);
    AlignedSum(x + y, x);
    AlignedSum(x, x - y);
    WordedSum(x, y);
    WordedSum(x + y, x);
    WordedSum(x, x - y);
  }

  /**
   * The first segment, from any break: its top is aligned and serves the request, thanks to
   * the padding.  The head of top holds its size next to its in-use bits, exactly if the
   * break is trusted to be contiguous or starts at a word; the size is a multiple of the
   * alignment exactly if the break is trusted or aligned.
   */
  lemma FirstTop(nb: nat, contiguous: bool, brk: nat, tsize: nat)
    requires MissingCore(nb, contiguous, true, brk, 0, tsize)
    ensures var offset := AlignOffset(brk + 8);
      var top, topsize := brk + offset, tsize - TOP_FOOT_SIZE - offset;
      && Aligned(top) && nb < topsize && nb + SYS_ALLOC_PADDING <= tsize
      && (Worded(topsize) <==> contiguous || Worded(brk))
      && (Aligned(topsize) <==> contiguous || Aligned(brk))
  {
    hide Aligned, Worded, MissingCore, AlignOffset;
    FirstEnd(nb, contiguous, brk, tsize);
    OffsetAligns(brk);
    var offset := AlignOffset(brk + 8);
    FootAligned();
    AlignedWorded(TOP_FOOT_SIZE);
    if contiguous {
      AlignedSum(brk + tsize, brk + offset);
      AlignedSum(brk + tsize - (brk + offset), TOP_FOOT_SIZE);
      AlignedWorded(tsize - TOP_FOOT_SIZE - offset);
    } else {
      AlignedWorded(tsize);
      SameRest(tsize - TOP_FOOT_SIZE, offset);
      AlignedSum(tsize, TOP_FOOT_SIZE);
      WordedSum(tsize, TOP_FOOT_SIZE);
      SameRest(brk + offset, offset);
    }
  }

  lemma FootAligned()
    ensures Aligned(TOP_FOOT_SIZE)
  {}

  lemma FirstEnd(nb: nat, contiguous: bool, brk: nat, tsize: nat)
    requires MissingCore(nb, contiguous, true, brk, 0, tsize)
    ensures nb + SYS_ALLOC_PADDING <= tsize
    ensures if contiguous then Aligned(brk + tsize) else Aligned(tsize)
  {
    hide Aligned;
    var d := (PAGE - brk % PAGE) % PAGE;
    if contiguous {
      assert (brk + d) % PAGE == 0;
      PageSum(tsize - d, brk + d);
      PageAligned(brk + tsize);
    } else {
      PageAligned(tsize);
    }
  }

  lemma PageRoom(asize: nat, d: nat)
    requires asize % PAGE == 0 && asize < WORD_SPAN && d < PAGE
    ensures asize + d < WORD_SPAN
  {
    assert asize == PAGE * (asize / PAGE);
  }

  lemma PageSum(x: int, y: int)
    requires x % PAGE == 0 && y % PAGE == 0
    ensures (x + y) % PAGE == 0
  {
    Multiple(x / PAGE + y / PAGE, PAGE);
  }

  /** How many bytes sys_trim(0) gives back from a top of this size. */
  function TrimSize(topsize: nat): nat
    requires TOP_FOOT_SIZE < topsize < WORD_SPAN
  {
    var units := ((topsize - TOP_FOOT_SIZE + (PAGE - 1)) % WORD_SPAN) / PAGE;
    var extra := ((units + WORD_SPAN - 1) % WORD_SPAN * PAGE) % WORD_SPAN;
    if extra >= HALF_MAX_SIZE_T then HALF_MAX_SIZE_T + 1 - PAGE else extra
  }

  /**
   * Of a top of size t the system takes back all whole pages but the overhead and at least one
   * byte, so that at most a page more stays; or, if that is too much for one call, as many pages
   * as fit in a positive number.
   */
  ghost predicate Trimmed(t: int, left: int) {
    if t <= TOP_FOOT_SIZE then left == t
    else
      && TOP_FOOT_SIZE < left && (t - left) % PAGE == 0 && 0 <= t - left < HALF_MAX_SIZE_T
      && (left <= TOP_FOOT_SIZE + PAGE || t - left == HALF_MAX_SIZE_T + 1 - PAGE)
  }

  lemma TrimFits(topsize: nat)
    requires TOP_FOOT_SIZE < topsize < WORD_SPAN
    ensures Trimmed(topsize, topsize - TrimSize(topsize))
  {
    var t := topsize - TOP_FOOT_SIZE + (PAGE - 1);
    if t < WORD_SPAN {
      var units := t / PAGE;
      assert units >= 1 && units * PAGE <= t < units * PAGE + PAGE;
      assert (units - 1) * PAGE < WORD_SPAN;
    } else {
      assert (t % WORD_SPAN) / PAGE == 0;
    }
  }

  lemma TrimOnce(t: int, a: int, b: int)
    requires Trimmed(t, a) && Trimmed(t, b)
    ensures a == b
  {
    assert t - a == (t - a) / PAGE * PAGE && t - b == (t - b) / PAGE * PAGE;
  }

  /** That is what sys_trim computes, and it leaves no choice. */
  lemma TrimLeaves(topsize: nat)
    requires TOP_FOOT_SIZE < topsize < WORD_SPAN
    ensures Trimmed(topsize, topsize - TrimSize(topsize))
    ensures forall left :: Trimmed(topsize, left) ==> left == topsize - TrimSize(topsize)
  {
    hide Trimmed, TrimSize;
    TrimFits(topsize);
    forall left | Trimmed(topsize, left) ensures left == topsize - TrimSize(topsize) {
      TrimOnce(topsize, left, topsize - TrimSize(topsize));
    }
  }

  lemma BackedJoin(m: Memory, m': Memory, lo: int, mid: int, hi: int)
    requires Backed(m, lo, mid) && m.Keys <= m'.Keys && Backed(m', mid, hi)
    ensures Backed(m', lo, hi)
  {}

  lemma BackedPart(m: Memory, lo: int, hi: int, hi': int)
    requires Backed(m, lo, hi) && hi' <= hi
    ensures Backed(m, lo, hi')
  {}
}

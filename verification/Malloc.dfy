/**
 * The allocator: malloc, free, realloc and memalign over one contiguous segment.
 */
module Malloc {
  import opened Arithmetic
  import opened SizeClass
  import opened TreeLinks
  import opened Bins
  import opened Bitmap
  import opened ChunkMemory
  import opened BinStores
  import opened BinTable
  import opened Tiling
  import opened Tags
  import opened HeapState
  import opened HeapSteps
  import opened HeapMoves
  import opened HeapFree
  import opened HeapTop
  import opened HeapGrow
  import opened Bytes
  import opened Alignment

  /** The segment ends where the address space ends, at the latest. */
  ghost predicate Bounded(g: Row) {
    g.top + g.topsize + TOP_FOOT_SIZE <= WORD_SPAN
  }

  /**
   * Chunk p was put to use for a request of nb bytes: it was not in use before, it is big
   * enough, with little slack, and every chunk in use before still is, word for word.
   */
  ghost predicate Served(h: Heap, h': Heap, p: int, nb: nat) {
    && HeapOk(h', {})
    && p in h'.g.tiles && h'.g.tiles[p].used && nb <= h'.g.tiles[p].size < nb + MIN_CHUNK_SIZE
    && p !in Live(h.g) && Live(h'.g) == Live(h.g) + {p}
    && Preserved(h.m, h'.m, h.g, h'.g, {})
  }

  /** Served within the segment. */
  ghost predicate Allocated(h: Heap, h': Heap, p: int, nb: nat) {
    Served(h, h', p, nb) && SameSpan(h.g, h'.g)
  }

  /** A binned chunk is marked in the bitmap. */
  lemma BinnedMarked(m: Memory, smallmap: bv32, treemap: bv32, b: Bins, c: int)
    requires TableOk(m, smallmap, treemap, b) && c in b.binned
    ensures IsSmall(b.binned[c]) ==> Bit(smallmap, b.binned[c] / 8) && b.binned[c] % 8 == 0
    ensures b.binned[c] >= MIN_LARGE_SIZE ==> treemap != 0
  {
    hide BinsInv, Rep, Heads, TreeOf, TreeInv, TreeIndex, Bit;
    var k := Locate(m, b, c);
    var s := b.binned[c];
    if s >= MIN_LARGE_SIZE {
      TreePart(b);
      RootOf(TreeOf(b), s);
      ZeroMap(treemap, TreeIndex(s));
    }
  }

  lemma HeldReady(h: Heap, held: set<int>, p: int)
    requires HeapOk(h, held) && p in held && Bounded(h.g)
    ensures p in h.g.tiles && CanBin(h.m, h.b, p, h.g.tiles[p].size) && TableOk(h.m, h.smallmap, h.treemap, h.b)
    ensures h.g.tiles[p].size < WORD_SPAN
  {
    hide TableOk, CanBin, RowOk;
    BinReady(h, held, p);
    OpenHeap(h, held);
    Seat(h.g, p);
  }

  lemma TableOf(h: Heap, held: set<int>)
    requires HeapOk(h, held)
    ensures TableOk(h.m, h.smallmap, h.treemap, h.b)
  {}

  lemma NoDv(h: Heap, held: set<int>)
    requires HeapOk(h, held) && h.dvsize == 0
    ensures h.dv == 0
  {}

  lemma PreservedSelf(m: Memory, g: Row)
    ensures Preserved(m, m, g, g, {})
  {}

  /** A padded request size. */
  ghost predicate Request(nb: nat) {
    MIN_CHUNK_SIZE <= nb && Aligned(nb)
  }

  lemma DvBound(h: Heap, held: set<int>)
    requires HeapOk(h, held) && Bounded(h.g)
    ensures 0 <= h.dvsize < WORD_SPAN
  {
    hide TableOk, RowOk;
    OpenHeap(h, held);
    assert Roles(h, held);
    if h.dvsize != 0 { DropDv(h, held); Seat(h.g, h.dv); }
  }

  lemma BinnedBound(h: Heap, p: int)
    requires HeapOk(h, {}) && Bounded(h.g) && p in h.b.binned
    ensures h.b.binned[p] < WORD_SPAN && p != 0
  {
    hide TableOk, RowOk;
    OpenHeap(h, {});
    RolesHeap(h, {});
    assert Binned(h, p);
    Seat(h.g, p);
  }

  /** Where the space freed with chunk p starts: at the free chunk that ends at p, if any. */
  ghost predicate JoinedBack(g: Row, p: int, s: int) {
    if exists q :: q in g.tiles && !g.tiles[q].used && End(g, q) == p
    then s in g.tiles && !g.tiles[s].used && End(g, s) == p
    else s == p
  }

  lemma BehindIs(h: Heap, p: int)
    requires HeapOk(h, {}) && p in h.g.tiles
    ensures PrevUsed(h.g, p) ==> JoinedBack(h.g, p, p)
    ensures forall s :: s in h.g.tiles && !h.g.tiles[s].used && End(h.g, s) == p ==> JoinedBack(h.g, p, s)
  {
    hide TableOk, RowOk, Aligned;
    OpenHeap(h, {});
    Seat(h.g, p);
    if PrevUsed(h.g, p) {
      forall q | q in h.g.tiles && !h.g.tiles[q].used ensures End(h.g, q) != p { Seat(h.g, q); }
    }
  }

  lemma DisposedLater(h: Heap, h1: Heap, h2: Heap, q: int)
    requires Preserved(h.m, h1.m, h.g, h1.g, {}) && h1.g == h.g && Disposed(h1, h2, q)
    ensures Disposed(h, h2, q)
  {
    hide HeapOk, Preserved;
    PreservedTrans(h.m, h1.m, h2.m, h.g, h1.g, h2.g, {}, {q}, {q});
  }

  lemma DisposedSame(h: Heap, h1: Heap, h2: Heap, q: int)
    requires h1.g == h.g && Disposed(h1.(m := h.m), h2, q)
    ensures Disposed(h, h2, q)
  {}

  /** Freed right after an unlinking. */
  lemma FreedLater(h: Heap, h1: Heap, h2: Heap, p: int, q: int, n: nat)
    requires Preserved(h.m, h1.m, h.g, h1.g, {}) && h1.g == h.g && FreedTo(h1, h2, p, q, n)
    ensures FreedTo(h1.(m := h.m), h2, p, q, n)
  {
    hide HeapOk, Preserved;
    PreservedTrans(h.m, h1.m, h2.m, h.g, h1.g, h2.g, {}, {q}, {q});
  }

  /** A request served right after the heap was prepared for it. */
  lemma ServedLater(h: Heap, h1: Heap, h2: Heap, p: int, nb: nat)
    requires Preserved(h.m, h1.m, h.g, h1.g, {}) && Live(h1.g) == Live(h.g) && Allocated(h1, h2, p, nb)
    ensures Served(h, h2, p, nb)
  {
    hide HeapOk, Preserved;
    PreservedTrans(h.m, h1.m, h2.m, h.g, h1.g, h2.g, {}, {}, {});
  }

  lemma ServedAligned(h: Heap, h': Heap, p: int, nb: nat)
    requires Served(h, h', p, nb)
    ensures Aligned(p + 8) && p >= HEAP_MIN
  {
    hide HeapOk;
    ChunkAligned(h', p);
  }

  lemma EvenBit(n: int)
    requires Worded(n)
    ensures WithBit(n) == n + 1
  {
    Multiple(2 * (n / 4), 2);
  }

  lemma RequestWorded(nb: nat, n: int)
    requires Request(nb)
    ensures Worded(n) <==> Worded(n - nb)
  {
    AlignedWorded(nb);
    SameRest(nb, n);
    SameRest(nb, n - nb);
  }

  lemma TopRest(g: Row, nb: nat)
    requires RowOk(g) && Request(nb)
    ensures Worded(g.topsize - nb)
  {
    RequestWorded(nb, g.topsize);
  }

  /** Growing the segment by what was asked for makes room for the request. */
  lemma GrownCore(nb: nat, contiguous: bool, brk: nat, topsize: nat, n: nat)
    requires topsize <= nb && MissingCore(nb, contiguous, false, brk, topsize, n)
    ensures nb < topsize + n && n % PAGE == 0
  {}

  lemma PagesWorded(brk: int, n: int)
    requires Worded(brk) && n % PAGE == 0
    ensures Worded(brk + n) && Worded(brk - n)
  {
    PageAligned(n);
    AlignedWorded(n);
    WordedSum(brk, n);
  }

  lemma KeptLess(m: Memory, m': Memory, e: int, e': int)
    requires KeptBelow(m, m', e) && e' <= e
    ensures KeptBelow(m, m', e') && m.Keys <= m'.Keys
  {}

  lemma EndWorded(brk: int, top: int)
    requires Aligned(top)
    ensures Worded(brk) <==> Worded(brk - top - TOP_FOOT_SIZE)
  {
    AlignedWorded(top);
    FootAligned();
    AlignedWorded(TOP_FOOT_SIZE);
    SameRest(top, brk);
    SameRest(top, brk - top);
    SameRest(TOP_FOOT_SIZE, brk - top);
    SameRest(TOP_FOOT_SIZE, brk - top - TOP_FOOT_SIZE);
  }

  lemma FirstBacked(m: Memory, base: int, top: int, n: int, brk: int)
    requires base <= top && top + n + TOP_FOOT_SIZE == brk && Aligned(top) && Worded(n)
    requires Worded(brk) ==> Backed(m, base, brk)
    ensures Backed(m, top, brk)
  {
    EndWorded(brk, top);
  }

  lemma BackedNone(m: Memory, a: int)
    ensures Backed(m, a, a) && KeptBelow(m, m, a)
  {}

  lemma UnusedGrown(m: Memory, m': Memory, smallmap: bv32, treemap: bv32, b: Bins)
    requires TableOk(m, smallmap, treemap, b) && b == EmptyBins(false) && KeptBelow(m, m', HEAP_MIN)
    requires forall a :: a in HeaderWords() ==> a in m
    ensures TableOk(m', smallmap, treemap, b) && forall a :: a in HeaderWords() ==> a in m'
  {
    hide TableOk;
    TableFrame(m, m', smallmap, treemap, b, HEAP_MIN);
  }

  lemma NothingLive(m: Memory, m': Memory, g: Row, g': Row)
    requires g.tiles == map[] && m.Keys <= m'.Keys
    ensures Preserved(m, m', g, g', {}) && Live(g) == {}
  {}

  lemma GrownBacked(h: Heap, m': Memory, e: int)
    requires HeapOk(h, {}) && h.m.Keys <= m'.Keys && Backed(m', h.g.top + h.g.topsize + TOP_FOOT_SIZE, e)
    ensures Backed(m', h.g.base, e) && h.g.topsize > 0
  {
    hide TableOk, RowOk;
    OpenHeap(h, {});
    RowFrame(h.g);
    BackedJoin(h.m, m', h.g.base, h.g.top + h.g.topsize + TOP_FOOT_SIZE, e);
  }

  lemma ShrunkBacked(h: Heap, e: int)
    requires HeapOk(h, {}) && e <= h.g.top + h.g.topsize + TOP_FOOT_SIZE
    ensures Backed(h.m, h.g.base, e)
  {
    hide TableOk, RowOk;
    OpenHeap(h, {});
    BackedPart(h.m, h.g.base, h.g.top + h.g.topsize + TOP_FOOT_SIZE, e);
  }

  lemma TopNonzero(h: Heap)
    requires HeapOk(h, {})
    ensures h.g.top >= HEAP_MIN && h.g.topsize > 0
  {
    hide TableOk, RowOk;
    OpenHeap(h, {});
    RowFrame(h.g);
  }

  lemma BlankMaps(idx: nat)
    requires idx < NBINS
    ensures forall j :: 0 <= j < NBINS ==> !Bit(0, j)
    ensures ShiftRight(0, idx) == 0
  {
    forall j | 0 <= j < NBINS ensures !Bit(0, j) { NoBit(j); }
    ShiftedZeroWord(Count(idx));
  }

  lemma ShiftedZeroWord(b: bv6)
    requires b < 32
    ensures ShiftAt(0, b) == 0
  {}

  /** What the shifted map tells: an exact bin, the first larger one, or none. */
  lemma SmallSearch(smallmap: bv32, idx: nat)
    requires 2 <= idx < NBINS
    ensures var bits := ShiftRight(smallmap, idx);
      && (bits & 1 == 1 <==> Bit(smallmap, idx))
      && (bits & 3 == 0 && idx + 1 < NBINS ==> !Bit(smallmap, idx + 1))
      && (bits & 3 != 0 && bits & 1 != 1 ==> idx + 1 < NBINS && Bit(smallmap, idx + 1))
      && (bits & 3 == 0 && bits != 0 ==>
            var i := FirstBit(Above(smallmap, idx));
            idx + 2 <= i < NBINS && Bit(smallmap, i) && forall j :: idx <= j < i ==> !Bit(smallmap, j))
      && (bits == 0 ==> forall j :: idx <= j < NBINS ==> !Bit(smallmap, j))
  {
    hide Bit, ShiftRight, Above, FirstBit;
    var bits := ShiftRight(smallmap, idx);
    ShiftedBits(smallmap, idx, idx);
    LowBits(bits);
    if idx + 1 < NBINS { ShiftedBits(smallmap, idx, idx + 1); }
    if bits & 3 == 0 && bits != 0 {
      var left := Above(smallmap, idx);
      FirstBitSpec(left);
      var i := FirstBit(left);
      ShiftedBits(smallmap, idx, i);
      forall j | idx <= j < i ensures !Bit(smallmap, j) { ShiftedBits(smallmap, idx, j); }
    }
    if bits == 0 {
      forall j | idx <= j < NBINS ensures !Bit(smallmap, j) { ShiftedBits(smallmap, idx, j); }
    }
  }

  lemma LowBits(x: bv32)
    ensures x & 1 == 1 ==> x & 3 != 0
    ensures x & 1 == 0 || x & 1 == 1
    ensures x == 0 ==> x & 3 == 0
  {}

  lemma RequestIndex(nb: nat)
    requires Request(nb) && nb < MIN_LARGE_SIZE
    ensures 2 <= SmallIndex(nb) < NBINS && nb == 8 * SmallIndex(nb)
  {}

  lemma ServedHere(h: Heap, h': Heap, p: int, nb: nat)
    requires Allocated(h, h', p, nb)
    ensures Served(h, h', p, nb) && h'.g.top != 0 && p != 0 && SameSpan(h.g, h'.g)
  {
    hide HeapOk, Preserved;
    SegmentKept(h, h', p);
  }

  lemma NoneBinned(m: Memory, smallmap: bv32, treemap: bv32, b: Bins, idx: nat, nb: nat)
    requires TableOk(m, smallmap, treemap, b) && treemap == 0 && idx == nb / 8 < NBINS
    requires forall j :: idx <= j < NBINS ==> !Bit(smallmap, j)
    ensures forall c :: c in b.binned ==> b.binned[c] < nb
  {
    hide TableOk, Bit;
    forall c | c in b.binned ensures b.binned[c] < nb { BinnedMarked(m, smallmap, treemap, b, c); }
  }

  /** p is the smallest of the chunks that hold nb bytes. */
  ghost predicate LeastFit(sizes: map<int, nat>, p: int, nb: nat) {
    p in sizes && nb <= sizes[p] && forall c :: c in sizes && nb <= sizes[c] ==> sizes[p] <= sizes[c]
  }

  /** A binned chunk of size s is taken for a request before a victim that is large enough. */
  predicate Preferred(s: nat, nb: nat, dvsize: int) {
    if nb < MIN_LARGE_SIZE then s == nb || (s == nb + 8 && s < MIN_LARGE_SIZE)
    else s < dvsize
  }

  /**
   * The chunk that serves a request: the smallest binned one that holds it, if the victim does
   * not, or if the request is small and the chunk is of its size or the next, or if it is large
   * and the chunk is smaller than the victim; else the victim; else the bottom of top.
   */
  ghost predicate Chosen(h: Heap, top: int, nb: nat, p: int) {
    var sizes := h.b.binned;
    if exists c :: c in sizes && nb <= sizes[c] && (h.dvsize < nb || Preferred(sizes[c], nb, h.dvsize)) then LeastFit(sizes, p, nb)
    else if nb <= h.dvsize then p == h.dv
    else top != 0 ==> p == top
  }

  /** No small bin from idx to i is marked: all chunks that hold 8 * idx bytes hold 8 * i. */
  lemma UnmarkedBins(m: Memory, smallmap: bv32, treemap: bv32, b: Bins, idx: nat, i: nat)
    requires TableOk(m, smallmap, treemap, b) && idx <= i <= NBINS && forall j :: idx <= j < i ==> !Bit(smallmap, j)
    ensures forall c :: c in b.binned && 8 * idx <= b.binned[c] ==> 8 * i <= b.binned[c]
  {
    hide TableOk, Bit;
    forall c | c in b.binned && 8 * idx <= b.binned[c] ensures 8 * i <= b.binned[c] { BinnedMarked(m, smallmap, treemap, b, c); }
  }

  /** A victim smaller than a small request is small. */
  lemma DvSmall(h: Heap, nb: nat)
    requires HeapOk(h, {}) && h.dvsize < nb < MIN_LARGE_SIZE
    ensures 0 <= h.dvsize && IsSmall(h.dvsize)
  {
    hide TableOk, RowOk;
    DvTile(h, {});
  }

  /** A request served within the segment leaves its borders. */
  lemma SegmentKept(h: Heap, h': Heap, p: int)
    requires HeapOk(h', {}) && SameSpan(h.g, h'.g) && p in h'.g.tiles
    ensures h'.g.top != 0 && p != 0
  {
    hide TableOk, RowOk;
    DvTile(h', {});
  }

  lemma NoTrees(m: Memory, smallmap: bv32, treemap: bv32, b: Bins, nb: nat)
    requires TableOk(m, smallmap, treemap, b) && treemap == 0 && nb >= MIN_LARGE_SIZE
    ensures forall c :: c in b.binned ==> b.binned[c] < nb
  {
    hide TableOk, Bit;
    forall c | c in b.binned ensures b.binned[c] < nb { BinnedMarked(m, smallmap, treemap, b, c); }
  }

  lemma ChunkAligned(h: Heap, p: int)
    requires HeapOk(h, {}) && p in h.g.tiles
    ensures Aligned(p + 8) && p >= HEAP_MIN
  {
    hide TableOk, RowOk;
    OpenHeap(h, {});
    Seat(h.g, p);
    RowFrame(h.g);
  }

  /** Chunk p, still in use, now fits a request of nb bytes closely. */
  ghost predicate Fitted(h: Heap, h': Heap, p: int, nb: nat) {
    && p in h'.g.tiles && nb <= h'.g.tiles[p].size < nb + MIN_CHUNK_SIZE
    && Regrown(h, h', p, h'.g.tiles[p].size)
  }

  /** What Regrown says does not depend on bins and victim. */
  lemma RegrownFrom(h: Heap, k: Heap, h': Heap, k': Heap, p: int, n: nat)
    requires Regrown(h, h', p, n) && h.m == k.m && h.g == k.g && h'.m == k'.m && h'.g == k'.g
    ensures Regrown(k, k', p, n)
  {}

  lemma SelfRegrown(h: Heap, h': Heap, p: int)
    requires Preserved(h.m, h'.m, h.g, h'.g, {}) && h'.g == h.g && p in Live(h.g)
    ensures Regrown(h, h', p, h.g.tiles[p].size)
  {
    assert BlockKept(h.m, h'.m, h.g, h'.g, p);
  }

  lemma RegrownSpan(h: Heap, h': Heap, p: int, n: nat)
    requires Regrown(h, h', p, n)
    ensures SameSpan(h.g, h'.g) && p in h'.g.tiles && h'.g.tiles[p] == Tile(n, true)
  {}

  lemma GrownIs(h: Heap, p: int, n: nat, s: nat)
    requires 0 < n < s && p + 4 in h.m && p + n + 4 in h.m && p + s + 4 in h.m
    requires p in h.g.tiles && End(h.g, p) in h.g.tiles && h.g.tiles[p].size + h.g.tiles[End(h.g, p)].size == s
    ensures GrownHeap(h, p, n, s) ==
      h.(m := InuseSet(InuseSet(InuseSet(h.m, p, s), p, n), p + n, s - n), g := Split(Merged(h.g, p, true), p, n, true, true))
  {}

  /** The words that growing over a free chunk and cutting again stores into. */
  lemma GrownWords(h: Heap, p: int, q: int, n: nat, s: nat)
    requires HeapOk(h, {q}) && p in Live(h.g) && q in h.g.tiles && End(h.g, p) == q && Aligned(n)
    requires s == h.g.tiles[p].size + h.g.tiles[q].size && h.g.tiles[p].size < n < s
    ensures p + 4 in h.m && p + n + 4 in h.m && p + s + 4 in h.m && n > 0
    ensures var m1 := InuseSet(h.m, p, n);
      var m2 := InuseSet(InuseSet(h.m, p, s), p, n);
      InuseSet(m1, p + n, s - n) == InuseSet(m2, p + n, s - n)
  {
    hide TableOk, RowOk, Aligned, Backed, Tagged, TagsOk;
    OpenHeap(h, {q});
    Seat(h.g, p);
    Seat(h.g, q);
    NewWord(h.m, h.g, p, q, n);
    EvenNext(h.m, h.g, q);
    HeadTells(h.m, h.g, p);
    EvenSize(h.g.tiles[p].size, h.g.tiles[q].size);
    var m1 := InuseSet(h.m, p, n);
    var m2 := InuseSet(InuseSet(h.m, p, s), p, n);
    assert m1[p + 4] == m2[p + 4];
  }

  /** The first n bytes at src in m are those at dst in m'. */
  ghost predicate BytesMoved(m: Memory, m': Memory, src: int, dst: int, n: int) {
    forall i {:trigger ByteMoved(m, m', src, dst, i)} :: 0 <= i < n ==> ByteMoved(m, m', src, dst, i)
  }

  ghost predicate ByteMoved(m: Memory, m': Memory, src: int, dst: int, i: int) {
    WordOf(src + i) in m && WordOf(dst + i) in m' && ByteAt(m', dst + i) == ByteAt(m, src + i)
  }

  /** The word of byte i of the block of chunk p in use. */
  lemma BlockWords(h: Heap, p: int, i: nat)
    requires HeapOk(h, {}) && p in Live(h.g) && i + CHUNK_OVERHEAD < h.g.tiles[p].size
    ensures var w := WordOf(p + 8 + i); w in h.m && p + 8 <= w <= End(h.g, p)
  {
    hide TableOk, RowOk, Backed, Tagged, Aligned, WordOf;
    OpenHeap(h, {});
    Seat(h.g, p);
    RowFrame(h.g);
    var w := WordOf(p + 8 + i);
    AlignedSum(p, h.g.tiles[p].size);
    WordIn(p + 8, p + 8 + i, End(h.g, p));
    BackedWord(h.m, h.g.base, h.g.top + h.g.topsize + TOP_FOOT_SIZE, w);
  }

  lemma WordIn(lo: int, a: int, e: int)
    requires lo <= a < e + 4 && Aligned(lo - 8) && Aligned(e)
    ensures lo <= WordOf(a) <= e && WordOf(a) % 4 == 0
  {}

  lemma BackedWord(m: Memory, lo: int, hi: int, w: int)
    requires Backed(m, lo, hi) && w % 4 == 0 && lo <= w < hi
    ensures w in m
  {}

  lemma ByteScribble(h: Heap, p: int, i: nat, v: int)
    requires HeapOk(h, {}) && p in Live(h.g) && i + CHUNK_OVERHEAD < h.g.tiles[p].size
    ensures WordOf(p + 8 + i) in h.m
    ensures var m' := SetByte(h.m, p + 8 + i, v); HeapOk(h.(m := m'), {}) && Preserved(h.m, m', h.g, h.g, {p})
  {
    hide HeapOk, Preserved, WithByte;
    BlockWords(h, p, i);
    UsedNotHeld(h, {}, p);
    var w := WordOf(p + 8 + i);
    Scribble(h, {}, p, w, WithByte(h.m[w], (p + 8 + i) % 4, v));
  }

  /** Byte i of a block that was preserved. */
  lemma SameByte(m: Memory, m': Memory, g: Row, g': Row, xs: set<int>, p: int, i: nat)
    requires Preserved(m, m', g, g', xs) && p in Live(g) && p !in xs && WordOf(p + 8 + i) in m && p + 8 <= WordOf(p + 8 + i) <= End(g, p)
    ensures WordOf(p + 8 + i) in m' && ByteAt(m', p + 8 + i) == ByteAt(m, p + 8 + i)
  {
    assert BlockKept(m, m', g, g', p);
  }

  lemma MoveOne(m: Memory, m1: Memory, src: int, dst: int, i: nat, v: int)
    requires BytesMoved(m, m1, src, dst, i) && WordOf(dst + i) in m1 && WordOf(src + i) in m && v == ByteAt(m, src + i)
    ensures BytesMoved(m, SetByte(m1, dst + i, v), src, dst, i + 1)
  {
    hide ByteAt, WordOf;
    var m2 := SetByte(m1, dst + i, v);
    forall j | 0 <= j < i + 1 ensures ByteMoved(m, m2, src, dst, j) {
      if j < i { assert ByteMoved(m, m1, src, dst, j); }
      ByteStored(m1, dst + i, v, dst + j);
    }
  }

  lemma PreservedMore(m: Memory, m': Memory, g: Row, g': Row, xs: set<int>)
    requires Preserved(m, m', g, g', {})
    ensures Preserved(m, m', g, g', xs)
  {}

  /** A chunk of fitting size, regrown within the segment. */
  lemma RegrownFits(h: Heap, h': Heap, p: int, n: nat, nb: nat)
    requires HeapOk(h', {}) && Regrown(h, h', p, n) && nb <= n < nb + MIN_CHUNK_SIZE
    ensures Fitted(h, h', p, nb) && SameSpan(h.g, h'.g) && h'.g.top != 0
  {
    hide HeapOk, Preserved;
    DvTile(h', {});
  }

  lemma FittedSpan(h: Heap, h': Heap, p: int, nb: nat)
    requires HeapOk(h', {}) && Fitted(h, h', p, nb)
    ensures SameSpan(h.g, h'.g) && h'.g.top != 0
  {
    hide HeapOk, Preserved;
    DvTile(h', {});
  }

  lemma StaysLive(m: Memory, m': Memory, g: Row, g': Row, xs: set<int>, p: int)
    requires Preserved(m, m', g, g', xs) && p in Live(g) && p !in xs
    ensures p in Live(g') && g'.tiles[p] == g.tiles[p]
  {
    assert BlockKept(m, m', g, g', p);
  }

  /** Chunk p is too small for nb, even with what follows it, unless that is in use. */
  ghost predicate Hemmed(g: Row, p: int, nb: nat) {
    && p in g.tiles && g.tiles[p].size < nb
    && var nx := End(g, p);
    if nx == g.top then g.tiles[p].size + g.topsize <= nb
    else nx in g.tiles && (g.tiles[nx].used || g.tiles[p].size + g.tiles[nx].size < nb)
  }

  /** The block at oldmem became the block at mem, of the right size, with its first bytes kept. */
  ghost predicate Reallocated(h: Heap, h': Heap, oldmem: int, mem: int, bytes: nat) {
    var p, q := oldmem - 8, mem - 8;
    && HeapOk(h', {}) && Aligned(mem) && p in Live(h.g) && (q == p || q !in Live(h.g))
    && Live(h'.g) == Live(h.g) - {p} + {q} && q in h'.g.tiles
    && RequestToSize(bytes) <= h'.g.tiles[q].size < RequestToSize(bytes) + MIN_CHUNK_SIZE
    && Preserved(h.m, h'.m, h.g, h'.g, {p})
    && BytesMoved(h.m, h'.m, oldmem, mem, Min(h.g.tiles[p].size - CHUNK_OVERHEAD, bytes))
  }

  lemma Moved(h: Heap, h1: Heap, h2: Heap, h3: Heap, oldmem: int, mem: int, bytes: nat)
    requires HeapOk(h, {}) && oldmem - 8 in Live(h.g) && bytes < MAX_REQUEST && Aligned(mem)
    requires Served(h, h1, mem - 8, RequestToSize(bytes)) && h2.g == h1.g && HeapOk(h2, {})
    requires Preserved(h1.m, h2.m, h1.g, h1.g, {mem - 8})
    requires BytesMoved(h1.m, h2.m, oldmem, mem, Min(h.g.tiles[oldmem - 8].size - CHUNK_OVERHEAD, bytes))
    requires HeapOk(h3, {}) && Live(h3.g) == Live(h1.g) - {oldmem - 8} && Preserved(h2.m, h3.m, h1.g, h3.g, {oldmem - 8})
    ensures Reallocated(h, h3, oldmem, mem, bytes)
  {
    hide HeapOk, ByteAt, RowOk, Preserved;
    var p, q := oldmem - 8, mem - 8;
    RequestFits(bytes);
    StaysLive(h2.m, h3.m, h1.g, h3.g, {p}, q);
    forall i | 0 <= i < Min(h.g.tiles[p].size - CHUNK_OVERHEAD, bytes) ensures ByteMoved(h.m, h3.m, oldmem, mem, i) {
      assert ByteMoved(h1.m, h2.m, oldmem, mem, i);
      BlockWords(h, p, i);
      SameByte(h.m, h1.m, h.g, h1.g, {}, p, i);
      BlockWords(h2, q, i);
      SameByte(h2.m, h3.m, h1.g, h3.g, {p}, q, i);
    }
    PreservedTrans(h.m, h1.m, h2.m, h.g, h1.g, h1.g, {}, {q}, {p});
    PreservedTrans(h.m, h2.m, h3.m, h.g, h1.g, h3.g, {p}, {p}, {p});
  }

  lemma InPlace(h: Heap, h': Heap, mem: int, bytes: nat)
    requires HeapOk(h, {}) && HeapOk(h', {}) && mem - 8 in Live(h.g) && bytes < MAX_REQUEST
    requires Fitted(h, h', mem - 8, RequestToSize(bytes)) && Live(h'.g) == Live(h.g)
    ensures Reallocated(h, h', mem, mem, bytes)
  {
    hide HeapOk, ByteAt, RowOk;
    var p := mem - 8;
    ChunkAligned(h, p);
    RequestFits(bytes);
    forall i | 0 <= i < Min(h.g.tiles[p].size - CHUNK_OVERHEAD, bytes) ensures ByteMoved(h.m, h'.m, mem, mem, i) {
      BlockWords(h, p, i);
      BlockWords(h', p, i);
      KeptByte(h.m, h'.m, p, Min(h.g.tiles[p].size, h'.g.tiles[p].size), i);
    }
  }

  lemma KeptByte(m: Memory, m': Memory, p: int, s: int, i: nat)
    requires SameBlock(m, m', p, s) && WordOf(p + 8 + i) in m && p + 8 <= WordOf(p + 8 + i) < p + s + 4
    ensures WordOf(p + 8 + i) in m' && ByteAt(m', p + 8 + i) == ByteAt(m, p + 8 + i)
  {}

  lemma LeadEven(h: Heap, p: int, n: nat)
    requires HeapOk(h, {}) && CanSplit(h.g, p, n)
    ensures h.g.tiles[p].size % 2 == 0 && n % 2 == 0 && (h.g.tiles[p].size - n) % 2 == 0
  {
    hide HeapOk, RowOk, Aligned;
    OpenHeap(h, {});
    Seat(h.g, p);
    AlignedEven(h.g.tiles[p].size);
    AlignedEven(n);
  }

  /** Two stores of memalign and of a cut, in either order. */
  lemma InuseEither(m: Memory, p: int, n: nat, s: nat)
    requires n >= 8 && n + 8 <= s && s % 2 == 0 && n % 2 == 0 && p + 4 in m && p + n + 4 in m && p + s + 4 in m
    ensures InuseSet(InuseSet(m, p + n, s - n), p, n) == InuseSet(InuseSet(m, p, n), p + n, s - n)
  {}

  lemma LeadSpot(h: Heap, p: int, n: nat)
    requires HeapOk(h, {}) && p in Live(h.g) && n >= 16 && n % 16 == 0 && (p + 8) % n != 0
    requires h.g.tiles[p].size >= n + 2 * MIN_CHUNK_SIZE
    ensures p >= 0 && Spot(p + 8, n) % n == 0
    ensures var lead := Spot(p + 8, n) - 8 - p; MIN_CHUNK_SIZE <= lead <= n + 8 && CanSplit(h.g, p, lead)
  {
    hide HeapOk, RowOk, Spot;
    OpenHeap(h, {});
    ChunkAligned(h, p);
    SpotFits(p + 8, n);
  }

  lemma LeadTiles(g: Row, p: int, n: nat)
    requires CanSplit(g, p, n) && g.tiles[p].used
    ensures var g' := Split(g, p, n, true, true);
      && p in Live(g') && p + n in Live(g') && g'.tiles[p].size == n && g'.tiles[p + n].size == g.tiles[p].size - n && SameSpan(g, g')
  {}

  /** Chunk p was put to use for a request of nb bytes, as by malloc, with a little more slack. */
  ghost predicate PutToUse(h: Heap, h': Heap, p: int, nb: nat) {
    && HeapOk(h', {})
    && p in h'.g.tiles && h'.g.tiles[p].used && nb <= h'.g.tiles[p].size <= nb + MIN_CHUNK_SIZE
    && p !in Live(h.g) && Live(h'.g) == Live(h.g) + {p}
    && Preserved(h.m, h'.m, h.g, h'.g, {})
  }

  class Allocator {
    const table: Table
    var dv: int
    var dvsize: int
    var top: int
    var topsize: int
    var segbase: int
    var segsize: int
    var contiguous: bool
    var trimCheck: int
    ghost var row: Row

    // The system behind MORECORE: the program break, how far it may rise and whether it may
    // fall in each round of asking for it, and what new words hold.
    var brk: int
    var round: nat
    const limits: nat -> int
    const shrinks: nat -> bool
    const junk: int -> int

    ghost function State(): Heap
      reads this, table
    {
      Heap(table.mem, table.smallmap, table.treemap, table.bins, row, dv, dvsize)
    }

    /** The fields agree with the state; `held` are free chunks an operation has in hand. */
    ghost predicate Holding(held: set<int>)
      reads this, table
    {
      && HeapOk(State(), held) && Bounded(row)
      && top == row.top && topsize == row.topsize
      && table.treebins == table.bins.roots
    }

    ghost predicate SystemOk()
      reads this
    {
      HEAP_MIN <= brk < MAX_SIZE_T
    }

    /** The system grants so many bytes more, in this round. */
    predicate Grants(increment: int)
      reads `brk, `round
    {
      brk + increment <= limits(round) && brk + increment < MAX_SIZE_T
    }

    /** The end of the segment is at a word border, or will be. */
    predicate Settled()
      reads this
    {
      top != 0 || Worded(brk)
    }

    /** Settled, or to be settled when the first segment is completed to a page. */
    predicate Steady()
      reads this
    {
      Settled() || contiguous
    }

    /** The head of top cannot hold its size next to its in-use bits. */
    predicate Spoiled()
      reads this
    {
      top != 0 && !Worded(topsize)
    }

    /** Before the first request. */
    ghost predicate Unused()
      reads this, table
    {
      && topsize == 0 && dv == 0 && dvsize == 0 && row == Row(map[], map[], 0, 0, 0)
      && table.Valid() && table.bins == EmptyBins(false) && table.smallmap == 0 && table.treemap == 0
      && (forall a :: a in HeaderWords() ==> a in table.mem)
    }

    /** The allocator between calls: unused, or with one segment that ends at the break. */
    ghost predicate Valid()
      reads this, table
    {
      && SystemOk()
      && if top == 0 then Unused() else
           && Holding({})
           && segbase + segsize == brk == top + topsize + TOP_FOOT_SIZE
    }

    constructor (brk: int, limits: nat -> int, shrinks: nat -> bool, junk: int -> int)
      requires HEAP_MIN <= brk < MAX_SIZE_T
      ensures Valid() && Steady() && fresh(table) && Live(row) == {} && top == 0 && contiguous && round == 0
      ensures this.brk == brk && this.limits == limits && this.shrinks == shrinks && this.junk == junk
    {
      table := new Table();
      dv, dvsize, top, topsize := 0, 0, 0, 0;
      segbase, segsize, contiguous, trimCheck := 0, 0, true, 0;
      row := Row(map[], map[], 0, 0, 0);
      this.brk, this.limits, this.shrinks, this.junk := brk, limits, shrinks, junk;
      round := 0;
    }

    /** set_inuse_and_pinuse on a chunk in hand. */
    method UseHeld(p: int, s: nat)
      requires Holding({p}) && p in row.tiles && row.tiles[p].size == s
      modifies table`mem, `row
      ensures Holding({})
      ensures row == Marked(old(row), p, true) && Preserved(old(table.mem), table.mem, old(row), row, {})
    {
      hide HeapOk, Preserved;
      UseWhole(State(), {p}, p);
      assert {p} - {p} == {};
      table.mem := table.mem[p + 4 := s + 3];
      table.mem := table.mem[p + s + 4 := WithBit(table.mem[p + s + 4])];
      row := Marked(row, p, true);
    }

    /** A chunk in hand split: n bytes put to use, the rest left in hand as a free chunk. */
    method SplitHeld(p: int, s: nat, n: nat)
      requires Holding({p}) && p in row.tiles && row.tiles[p].size == s && CanSplit(row, p, n)
      modifies table`mem, `row
      ensures Holding({p + n}) && p + n !in old(row).tiles
      ensures row == Split(old(row), p, n, true, false) && Preserved(old(table.mem), table.mem, old(row), row, {})
    {
      hide HeapOk, Preserved, RowOk, Aligned;
      UseSplit(State(), {p}, p, n);
      assert {p} - {p} + {p + n} == {p + n};
      table.mem := table.mem[p + 4 := n + 3];
      var r := p + n;
      table.mem := table.mem[r + 4 := s - n + 1];
      table.mem := table.mem[r + (s - n) := s - n];
      row := Split(row, p, n, true, false);
    }

    /** insert_chunk on a chunk in hand. */
    method BinHeld(p: int, s: nat)
      requires Holding({p}) && p in row.tiles && row.tiles[p].size == s
      modifies table`mem, table`smallmap, table`treemap, table`treebins, table`bins
      ensures Holding({}) && Preserved(old(table.mem), table.mem, row, row, {})
    {
      hide HeapOk, Preserved, CanBin, TableOk, LinksOnly;
      ghost var h := State();
      HeldReady(h, {p}, p);
      table.InsertChunk(p, s);
      PutIn(h, {p}, p, State());
      assert {p} - {p} == {};
    }

    /** unlink_chunk: the chunk is now in hand. */
    method UnbinChunk(p: int, s: nat)
      requires Holding({}) && p in table.bins.binned && table.bins.binned[p] == s
      modifies table`mem, table`smallmap, table`treemap, table`treebins, table`bins
      ensures Holding({p}) && Preserved(old(table.mem), table.mem, row, row, {})
      ensures p in row.tiles && !row.tiles[p].used && row.tiles[p].size == s && p != dv
    {
      hide HeapOk, Preserved, TableOk, LinksOnly;
      ghost var h := State();
      TableOf(h, {});
      table.UnlinkChunk(p, s);
      TakeOut(h, {}, p, State());
      assert {} + {p} == {p};
    }

    /** replace_dv, used when the victim, if any, is small. */
    method ReplaceDv(p: int, s: nat)
      requires Holding({p}) && p in row.tiles && row.tiles[p].size == s && IsSmall(dvsize)
      modifies table`mem, table`smallmap, table`bins, `dv, `dvsize
      ensures Holding({}) && Preserved(old(table.mem), table.mem, row, row, {}) && dv == p && dvsize == s
    {
      hide HeapOk, Preserved, CanBin, TableOk, LinksOnly;
      ghost var h := State();
      if dvsize != 0 {
        DropDv(h, {p});
        ghost var h1 := h.(dv := 0, dvsize := 0);
        HeldReady(h1, {p} + {dv}, dv);
        table.InsertSmallChunk(dv, dvsize);
        ghost var h2 := Heap(table.mem, table.smallmap, table.treemap, table.bins, row, 0, 0);
        PutIn(h1, {p} + {dv}, dv, h2);
        assert {p} + {dv} - {dv} == {p};
        SetDv(h2, {p}, p);
      } else {
        PreservedSelf(table.mem, row);
        SetDv(h.(dv := 0, dvsize := 0), {p}, p) by { NoDv(h, {p}); }
      }
      assert {p} - {p} == {};
      dvsize := s;
      dv := p;
    }

    /** dlmalloc: a remainderless fit in small bin idx. */
    method AllocExactSmall(nb: nat, idx: nat) returns (p: int)
      requires Holding({}) && 2 <= idx < NBINS && Bit(table.smallmap, idx) && nb <= 8 * idx < nb + MIN_CHUNK_SIZE
      modifies table, `row
      ensures Holding({}) && Allocated(old(State()), State(), p, nb)
      ensures p in old(table.bins.binned) && old(table.bins.binned)[p] == 8 * idx
    {
      hide HeapOk, Preserved, TableOk, LinksOnly, Bit;
      ghost var h := State();
      TableOf(h, {});
      p := table.UnlinkFirstSmallChunk(idx);
      ghost var h1 := State();
      TakeOut(h, {}, p, h1);
      assert {} + {p} == {p};
      UseHeld(p, 8 * idx);
      PreservedTrans(h.m, h1.m, table.mem, h.g, h.g, row, {}, {}, {});
    }

    /** dlmalloc: the first chunk of a larger small bin, split; the rest becomes the victim. */
    method AllocSplitSmall(nb: nat, i: nat) returns (p: int)
      requires Holding({}) && 2 <= i < NBINS && Bit(table.smallmap, i) && Request(nb) && nb + MIN_CHUNK_SIZE <= 8 * i && IsSmall(dvsize)
      modifies table, `row, `dv, `dvsize
      ensures Holding({}) && Allocated(old(State()), State(), p, nb)
      ensures p in old(table.bins.binned) && old(table.bins.binned)[p] == 8 * i
    {
      hide HeapOk, Preserved, TableOk, LinksOnly, Bit, RowOk, Aligned;
      ghost var h := State();
      TableOf(h, {});
      p := table.UnlinkFirstSmallChunk(i);
      ghost var h1 := State();
      TakeOut(h, {}, p, h1);
      assert {} + {p} == {p};
      OpenHeap(h1, {p});
      var rsize := 8 * i - nb;
      SplitHeld(p, 8 * i, nb);
      ghost var h2 := State();
      ReplaceDv(p + nb, rsize);
      PreservedTrans(h.m, h1.m, h2.m, h.g, h.g, h2.g, {}, {}, {});
      PreservedTrans(h.m, h2.m, table.mem, h.g, h2.g, row, {}, {}, {});
    }

    /** A tree chunk v of size s unlinked and used whole, for a request it fits closely. */
    method UseTreeChunk(v: int, s: nat)
      requires Holding({}) && v in table.bins.binned && table.bins.binned[v] == s && s >= MIN_LARGE_SIZE
      modifies table, `row
      ensures Holding({}) && v in old(row).tiles && !old(row).tiles[v].used && old(row).tiles[v].size == s
      ensures row == Marked(old(row), v, true) && Preserved(old(table.mem), table.mem, old(row), row, {})
    {
      hide HeapOk, Preserved, TableOk, LinksOnly;
      ghost var h := State();
      TableOf(h, {});
      table.UnlinkLargeChunk(v);
      ghost var h1 := State();
      TakeOut(h, {}, v, h1);
      assert {} + {v} == {v};
      UseHeld(v, s);
      PreservedTrans(h.m, h1.m, table.mem, h.g, h.g, row, {}, {}, {});
    }

    /** A tree chunk v of size s unlinked and split; the rest is left in hand. */
    method SplitTreeChunk(v: int, s: nat, nb: nat)
      requires Holding({}) && v in table.bins.binned && table.bins.binned[v] == s && s >= MIN_LARGE_SIZE
      requires Request(nb) && nb + MIN_CHUNK_SIZE <= s
      modifies table, `row
      ensures v in old(row).tiles && !old(row).tiles[v].used && old(row).tiles[v].size == s
      ensures v + nb !in old(row).tiles
      ensures Holding({v + nb}) && row == Split(old(row), v, nb, true, false) && Preserved(old(table.mem), table.mem, old(row), row, {})
    {
      hide HeapOk, Preserved, TableOk, LinksOnly, RowOk, Aligned;
      ghost var h := State();
      TableOf(h, {});
      table.UnlinkLargeChunk(v);
      ghost var h1 := State();
      TakeOut(h, {}, v, h1);
      assert {} + {v} == {v};
      OpenHeap(h1, {v});
      SplitHeld(v, s, nb);
      PreservedTrans(h.m, h1.m, table.mem, h.g, h.g, row, {}, {}, {});
    }

    /** tmalloc_small: the smallest of all tree chunks is used. */
    method TmallocSmall(nb: nat) returns (p: int)
      requires Holding({}) && Request(nb) && nb < MIN_LARGE_SIZE && table.treemap != 0 && IsSmall(dvsize)
      modifies table, `row, `dv, `dvsize
      ensures Holding({}) && Allocated(old(State()), State(), p, nb)
      ensures p in old(table.bins.binned) && old(table.bins.binned)[p] >= MIN_LARGE_SIZE
      ensures forall c :: c in old(table.bins.binned) && old(table.bins.binned)[c] >= MIN_LARGE_SIZE ==>
        old(table.bins.binned)[p] <= old(table.bins.binned)[c]
    {
      hide HeapOk, Preserved, TableOk;
      ghost var h := State();
      TableOf(h, {});
      var rsize;
      p, rsize := table.FindSmallest(nb);
      if rsize < MIN_CHUNK_SIZE {
        UseTreeChunk(p, rsize + nb);
      } else {
        SplitTreeChunk(p, rsize + nb, nb);
        ghost var h1 := State();
        ReplaceDv(p + nb, rsize);
        PreservedTrans(h.m, h1.m, table.mem, h.g, h1.g, row, {}, {}, {});
      }
    }

    /**
     * tmalloc_large: the best fitting tree chunk is used, unless none fits or the victim
     * fits at least as well.
     */
    method TmallocLarge(nb: nat) returns (p: int)
      requires Holding({}) && Request(nb) && TreeSize(nb)
      modifies table, `row
      ensures Holding({})
      ensures p != 0 ==> Allocated(old(State()), State(), p, nb)
      ensures p != 0 ==>
        && p in old(table.bins.binned) && nb <= old(table.bins.binned)[p]
        && (forall c :: c in old(table.bins.binned) && old(table.bins.binned)[c] >= nb ==> old(table.bins.binned)[p] <= old(table.bins.binned)[c])
        && (nb <= dvsize ==> old(table.bins.binned)[p] < dvsize)
      ensures p == 0 ==> State() == old(State()) && table.treebins == old(table.treebins)
      ensures p == 0 ==> forall c :: c in table.bins.binned && table.bins.binned[c] >= nb ==> nb <= dvsize <= table.bins.binned[c]
    {
      hide HeapOk, Preserved, TableOk;
      ghost var h := State();
      TableOf(h, {});
      DvBound(h, {});
      var v, rsize := table.FindBestFit(nb);
      if v != 0 && rsize < (dvsize + WORD_SPAN - nb) % WORD_SPAN {
        p := v;
        BinnedBound(h, p);
        if rsize < MIN_CHUNK_SIZE {
          UseTreeChunk(p, rsize + nb);
        } else {
          SplitTreeChunk(p, rsize + nb, nb);
          ghost var h1 := State();
          BinHeld(p + nb, rsize);
          PreservedTrans(h.m, h1.m, table.mem, h.g, h1.g, row, {}, {}, {});
        }
      } else {
        p := 0;
        if v != 0 { BinnedBound(h, v); }
      }
    }

    /** dlmalloc: from the designated victim, split or used up. */
    method AllocFromDv(nb: nat) returns (p: int)
      requires Holding({}) && Request(nb) && nb <= dvsize
      modifies table`mem, `row, `dv, `dvsize
      ensures Holding({}) && Allocated(old(State()), State(), p, nb) && p == old(dv)
    {
      hide HeapOk, Preserved, RowOk, Aligned;
      ghost var h := State();
      DropDv(h, {});
      ghost var h1 := h.(dv := 0, dvsize := 0);
      assert {} + {dv} == {dv};
      OpenHeap(h1, {dv});
      var rsize := dvsize - nb;
      p := dv;
      if rsize >= MIN_CHUNK_SIZE {
        UseSplit(h1, {p}, p, nb);
        ghost var s := dvsize;
        var r := p + nb;
        dv := r;
        dvsize := rsize;
        table.mem := table.mem[p + 4 := nb + 3];
        table.mem := table.mem[r + 4 := rsize + 1];
        table.mem := table.mem[r + rsize := rsize];
        row := Split(row, p, nb, true, false);
        assert {p} - {p} + {r} == {r};
        SetDv(h1.(m := table.mem, g := row), {r}, r);
        assert {r} - {r} == {};
      } else {
        var dvs := dvsize;
        UseWhole(h1, {p}, p);
        assert {p} - {p} == {};
        dvsize := 0;
        dv := 0;
        table.mem := table.mem[p + 4 := dvs + 3];
        table.mem := table.mem[p + dvs + 4 := WithBit(table.mem[p + dvs + 4])];
        row := Marked(row, p, true);
      }
    }

    /** dlmalloc and sys_alloc: from the bottom of top, which sys_alloc may have left unsound. */
    method AllocFromTop(nb: nat, ghost sound: bool) returns (p: int)
      requires sound ==> Holding({}) && Request(nb) && nb < topsize
      modifies table`mem, `row, `top, `topsize
      ensures p == old(top) && top == p + nb && topsize == old(topsize) - nb
      ensures sound ==> Holding({}) && Allocated(old(State()), State(), p, nb)
    {
      hide HeapOk, Preserved, RowOk, Aligned, Worded;
      if sound {
        ghost var h := State();
        OpenHeap(h, {});
        TakeTop(h, {}, nb);
        TopRest(row, nb);
      }
      p := CutTop(nb);
      row := TopTaken(row, nb);
    }

    /** A spoiled heap is not sound, so a call from an unsteady state that succeeds leaves none. */
    lemma SpoiledUnsound()
      requires Spoiled()
      ensures !Valid()
    {
      if Valid() {
        OpenHeap(State(), {});
        RowFrame(row);
      }
    }

    /** The code that takes nb bytes off the bottom of top. */
    method CutTop(nb: nat) returns (p: int)
      modifies table`mem, `top, `topsize
      ensures p == old(top) && top == p + nb && topsize == old(topsize) - nb
      ensures Worded(topsize) && Aligned(nb) ==> table.mem == TopCut(old(table.mem), p, old(topsize), nb)
    {
      hide Worded, Aligned, WithBit, Bounded;
      topsize := topsize - nb;
      if Worded(topsize) { EvenBit(topsize); }
      var rsize := topsize;
      p := top;
      var r := p + nb;
      top := r;
      table.mem := table.mem[r + 4 := WithBit(rsize)];
      table.mem := table.mem[p + 4 := nb + 3];
    }

    // -------------------------------------------------------------- giving back

    /** Chunk q is being freed, together with the free chunk p before it unless p == q. */
    ghost predicate Returning(h: Heap, p: int, q: int)
      reads this, table
    {
      && Freeing(h, if p == q then {} else {p}, p, q) && Bounded(row) && top == row.top && topsize == row.topsize
      && table.treebins == table.bins.roots
      && h == (if p == dv then State().(dv := 0, dvsize := 0) else State())
    }

    /** The freed chunk borders top. */
    method CoalesceTop(p: int, psize: nat, ghost q: int, ghost h: Heap)
      requires Returning(h, p, q) && p + psize == End(h.g, q) == top
      modifies table`mem, `row, `dv, `dvsize, `top, `topsize
      ensures Holding({}) && Disposed(h, State(), q) && top == p
    {
      hide HeapOk, Preserved;
      FreeNextTop(h, p, q);
      var tsize := topsize + psize;
      topsize := tsize;
      top := p;
      table.mem := table.mem[p + 4 := tsize + 1];
      if p == dv {
        dv := 0;
        dvsize := 0;
      }
      row := if p == q then TopGiven(row, q) else TopGiven(Merged(row, p, true), p);
    }

    /** The freed chunk borders the victim. */
    method CoalesceDv(p: int, psize: nat, ghost q: int, ghost h: Heap)
      requires Returning(h, p, q) && p != dv && p + psize == End(h.g, q) == dv && dv in row.tiles
      modifies table`mem, `row, `dv, `dvsize
      ensures Holding({}) && Disposed(h, State(), q)
    {
      hide HeapOk, Preserved;
      ghost var held := if p == q then {} else {p};
      Ahead(h, held, p, q);
      DvTile(h, held);
      DropDv(h, held);
      ghost var h1 := h.(dv := 0, dvsize := 0);
      assert held + {dv} == if p == q then {dv} else {p, dv};
      FreeNextFree(h1, p, q, dv);
      row := if p == q then Merged(row, q, false) else Merged(Merged(row, p, true), p, false);
      var dsize := dvsize + psize;
      dvsize := dsize;
      dv := p;
      table.mem := table.mem[p + 4 := dsize + 1];
      table.mem := table.mem[p + dsize := dsize];
      SetDv(h1.(m := table.mem, g := row), {p}, p);
      assert {p} - {p} == {};
    }

    /** The freed chunk borders a binned chunk. */
    method CoalesceBinned(p: int, psize0: nat, nsize: nat, ghost q: int, ghost h: Heap)
      requires Returning(h, p, q) && var nx := End(h.g, q); p + psize0 == nx && nx != dv && nx in table.bins.binned && table.bins.binned[nx] == nsize
      modifies table, `row, `dvsize
      ensures Holding({}) && Disposed(h, State(), q)
    {
      hide HeapOk, Preserved, TableOk, LinksOnly, RowOk, Aligned, Live, Disposed;
      ghost var held := if p == q then {} else {p};
      Ahead(h, held, p, q);
      TableOf(h, held);
      var psize := psize0 + nsize;
      ghost var nx := p + psize0;
      table.UnlinkChunk(p + psize0, nsize);
      ghost var h1 := Heap(table.mem, table.smallmap, table.treemap, table.bins, row, h.dv, h.dvsize);
      TakeOut(h, held, nx, h1);
      assert held + {nx} == if p == q then {nx} else {p, nx};
      FreeNextFree(h1, p, q, nx);
      row := if p == q then Merged(row, q, false) else Merged(Merged(row, p, true), p, false);
      table.mem := table.mem[p + 4 := psize + 1];
      table.mem := table.mem[p + psize := psize];
      ghost var h2 := h1.(m := table.mem, g := row);
      FreedLater(h, h1, h2, p, q, psize);
      KeepFreed(p, psize, q, h1.(m := h.m));
      DisposedSame(h, h1, State(), q);
    }

    /** The freed chunk in hand stays the victim, or is binned. */
    method KeepFreed(p: int, psize: nat, ghost q: int, ghost h: Heap)
      requires FreedTo(h, if p == dv then State().(dv := 0, dvsize := 0) else State(), p, q, psize)
      requires Bounded(row) && top == row.top && topsize == row.topsize && table.treebins == table.bins.roots
      modifies table`mem, table`smallmap, table`treemap, table`treebins, table`bins, `dvsize
      ensures Holding({}) && Disposed(h, State(), q)
    {
      hide HeapOk, Preserved, RowOk, Live;
      ghost var h2 := if p == dv then State().(dv := 0, dvsize := 0) else State();
      if p == dv {
        dvsize := psize;
        SetDv(h2, {p}, p);
        assert {p} - {p} == {};
      } else {
        BinHeld(p, psize);
        PreservedTrans(h.m, h2.m, table.mem, h.g, h2.g, row, {q}, {}, {q});
      }
    }

    /** What follows the freed chunk is in use. */
    method CoalesceNone(p: int, psize: nat, ghost q: int, ghost h: Heap)
      requires Returning(h, p, q) && p != dv && p + psize == End(h.g, q) && p + psize in row.tiles && row.tiles[p + psize].used
      modifies table, `row
      ensures Holding({}) && Disposed(h, State(), q)
    {
      hide HeapOk, Preserved;
      FreeNextUsed(h, p, q);
      var next := p + psize;
      row := if p == q then Marked(row, q, false) else Merged(row, p, false);
      table.mem := table.mem[next + 4 := WithoutBit(table.mem[next + 4])];
      table.mem := table.mem[p + 4 := psize + 1];
      table.mem := table.mem[p + psize := psize];
      ghost var h1 := State();
      BinHeld(p, psize);
      PreservedTrans(h.m, h1.m, table.mem, h.g, h1.g, row, {q}, {}, {q});
    }

    /** What precedes and what follows chunk q, as dispose_chunk and dlfree tell it from the tags. */
    method Coalesce(p: int, psize: nat, ghost q: int, ghost h: Heap) returns (toTop: bool)
      requires Returning(h, p, q) && p + psize == End(h.g, q)
      requires p == dv ==> p + psize !in Live(row)
      modifies table, `row, `dv, `dvsize, `top, `topsize
      ensures Holding({}) && Disposed(h, State(), q)
      ensures toTop <==> p + psize == old(top)
      ensures if toTop then top == p else top == old(top) && topsize == old(topsize)
    {
      hide HeapOk, Preserved;
      ghost var held := if p == q then {} else {p};
      Ahead(h, held, p, q);
      NextRead(h, held, q);
      DvTile(h, held);
      var next := p + psize;
      toTop := false;
      if table.mem[next + 4] / 2 % 2 == 0 {
        if next == top {
          CoalesceTop(p, psize, q, h);
          toTop := true;
        } else if next == dv {
          CoalesceDv(p, psize, q, h);
        } else {
          CoalesceBinned(p, psize, HeadSize(table.mem[next + 4]), q, h);
        }
      } else {
        CoalesceNone(p, psize, q, h);
      }
    }

    /** The chunk behind the victim is freed into it, with a chunk in use behind that. */
    method GrowVictim(ghost q: int, psize: nat)
      requires Holding({}) && q in Live(row) && dv in row.tiles && !row.tiles[dv].used && End(row, dv) == q
      requires End(row, q) in row.tiles && row.tiles[End(row, q)].used && psize == row.tiles[dv].size + row.tiles[q].size
      modifies table`mem, `row, `dvsize
      ensures Holding({}) && Disposed(old(State()), State(), q)
    {
      hide HeapOk, Preserved, RowOk;
      ghost var h := State();
      DvTile(h, {});
      DropDv(h, {});
      assert {} + {dv} == {dv};
      ghost var h1 := h.(dv := 0, dvsize := 0);
      FreeNextUsed(h1, dv, q);
      var p := dv;
      var next := p + psize;
      dvsize := psize;
      row := Merged(row, p, false);
      table.mem := table.mem[next + 4 := WithoutBit(table.mem[next + 4])];
      table.mem := table.mem[p + 4 := psize + 1];
      table.mem := table.mem[p + psize := psize];
      SetDv(h1.(m := table.mem, g := row), {p}, p);
      assert {p} - {p} == {};
    }

    /**
     * dispose_chunk, and what dlfree does with a chunk in use: it stops being in use, its
     * space joins its free neighbours, and no other chunk in use changes.
     */
    method DisposeChunk(p0: int, psize0: nat) returns (toTop: bool)
      requires Holding({}) && p0 in Live(row) && row.tiles[p0].size == psize0
      modifies table, `row, `dv, `dvsize, `top, `topsize
      ensures Holding({}) && Disposed(old(State()), State(), p0)
      ensures toTop <==> End(old(row), p0) == old(top)
      ensures if toTop then JoinedBack(old(row), p0, top) else top == old(top) && topsize == old(topsize)
    {
      hide HeapOk, Preserved, Disposed, RowOk, Aligned, HeadSize, SameSpan, JoinedBack;
      ghost var h := State();
      PrevRead(h, p0);
      BehindIs(h, p0);
      NextRead(h, {}, p0);
      PreservedSelf(table.mem, row);
      var p, psize := p0, psize0;
      if table.mem[p + 4] % 2 == 0 {
        var next := p + psize;
        var prevsize := table.mem[p];
        psize := psize + prevsize;
        p := p - prevsize;
        if p != dv {
          UnbinChunk(p, prevsize);
          ghost var h1 := State();
          toTop := Coalesce(p, psize, p0, h1);
          DisposedLater(h, h1, State(), p0);
        } else if table.mem[next + 4] % 4 == 3 {
          GrowVictim(p0, psize);
          toTop := false;
        } else {
          DvTile(h, {});
          DropDv(h, {});
          assert {} + {dv} == {dv};
          ghost var h1 := h.(dv := 0, dvsize := 0);
          toTop := Coalesce(p, psize, p0, h1);
          DisposedSame(h, h1, State(), p0);
        }
      } else {
        DvTile(h, {});
        toTop := Coalesce(p, psize, p0, h);
      }
    }

    /** Between calls no two free chunks touch, and none touches top: all were joined. */
    lemma AllJoined(p: int)
      requires Valid() && top != 0 && p in row.tiles && !row.tiles[p].used
      ensures End(row, p) != top && End(row, p) in row.tiles && row.tiles[End(row, p)].used
      ensures forall q :: q in row.tiles && End(row, q) == p ==> row.tiles[q].used
    {
      hide TableOk, RowOk, Aligned, Tagged;
      OpenHeap(State(), {});
      RowFrame(row);
      NextUsed(table.mem, row, p);
      forall q | q in row.tiles && End(row, q) == p ensures row.tiles[q].used {
        if !row.tiles[q].used { NextUsed(table.mem, row, q); }
      }
    }

    // -------------------------------------------------------------- the system

    /**
     * MORECORE, as its contract has it: zero asks for the break; a positive increment
     * appends memory or fails; a negative one may be refused.  Nobody else moves the break.
     */
    method Morecore(increment: int) returns (r: int)
      requires SystemOk() && HEAP_MIN <= brk + increment
      modifies table`mem, `brk
      ensures SystemOk()
      ensures r == (if (increment > 0 && !old(Grants(increment))) || (increment < 0 && !shrinks(round)) then MAX_SIZE_T else old(brk))
      ensures brk == (if r == MAX_SIZE_T then old(brk) else old(brk) + increment)
      ensures increment <= 0 || r == MAX_SIZE_T ==> table.mem == old(table.mem)
      ensures KeptBelow(old(table.mem), table.mem, old(brk)) && (Worded(brk) ==> Backed(table.mem, old(brk), brk))
      ensures old(brk) != MAX_SIZE_T
    {
      if (increment > 0 && !Grants(increment)) || (increment < 0 && !shrinks(round)) {
        r := MAX_SIZE_T;
      } else {
        r := brk;
        if increment > 0 {
          table.mem := table.mem + map a | brk <= a && a + 4 <= brk + increment && a % 4 == 0 :: junk(a);
        }
        brk := brk + increment;
      }
    }

    /**
     * init_top at p0: top is the next aligned place, its size is less by the bytes skipped.
     * Only a size in whole words leaves stores that this memory of words shows.
     */
    method InitTop(p0: nat, psize0: int)
      modifies table`mem, `top, `topsize, `trimCheck
      ensures Aligned(top) && p0 <= top < p0 + 8 && top + topsize == p0 + psize0 && (Aligned(p0) ==> top == p0)
      ensures top == p0 + AlignOffset(p0 + 8)
      ensures Worded(topsize) ==> table.mem == TopSet(old(table.mem), top, topsize)
      ensures trimCheck == TRIM_THRESHOLD
    {
      hide Worded, Aligned, WithBit, AlignOffset;
      OffsetAligns(p0);
      if Worded(psize0 - AlignOffset(p0 + 8)) { EvenBit(psize0 - AlignOffset(p0 + 8)); }
      var offset := AlignOffset(p0 + 8);
      var p := p0 + offset;
      var psize := psize0 - offset;
      top := p;
      topsize := psize;
      table.mem := table.mem[p + 4 := WithBit(psize)];
      table.mem := table.mem[p + psize + 4 := TOP_FOOT_SIZE];
      trimCheck := TRIM_THRESHOLD;
    }

    /** The first segment, of tsize bytes at tbase. */
    method FirstSegment(tbase: nat, tsize: nat)
      requires top == 0 && Unused() && SystemOk() && HEAP_MIN <= tbase && tbase + tsize == brk
      requires tsize > TOP_FOOT_SIZE + 7 && (Worded(brk) ==> Backed(table.mem, tbase, brk))
      modifies table, `row, `top, `topsize, `segbase, `segsize, `trimCheck
      ensures top == tbase + AlignOffset(tbase + 8) && top + topsize + TOP_FOOT_SIZE == brk && top != 0
      ensures Worded(topsize) ==> Valid() && Live(row) == {} && old(table.mem).Keys <= table.mem.Keys
    {
      hide HeapOk, TableOk, Backed, Aligned, Worded, AlignOffset;
      segbase := tbase;
      segsize := tsize;
      table.InitBins();
      if Worded(brk) { BackedMore(old(table.mem), table.mem, tbase, brk); }
      ghost var m := table.mem;
      InitTop(tbase, tsize - TOP_FOOT_SIZE);
      if Worded(topsize) {
        FirstBacked(m, tbase, top, topsize, brk);
        FirstHeap(m, table.bins, top, topsize);
      }
      row := FirstRow(top, topsize);
    }

    /** The segment now ends at the break; h is the heap as it was. */
    method MoveBreak(n: int, ghost h: Heap)
      requires top != 0 && SystemOk() && h == State().(m := h.m) && HeapOk(h, {}) && Bounded(row)
      requires top == row.top && topsize == row.topsize && table.treebins == table.bins.roots
      requires segbase + segsize == top + topsize + TOP_FOOT_SIZE && Worded(brk)
      requires KeptBelow(h.m, table.mem, top + 4) && Backed(table.mem, row.base, brk)
      requires n == brk - (segbase + segsize) && topsize + n > 0
      modifies table`mem, `row, `top, `topsize, `segsize, `trimCheck
      ensures Valid() && top == old(top) && topsize == old(topsize) + n && trimCheck == TRIM_THRESHOLD && Live(row) == Live(h.g) && Preserved(h.m, table.mem, h.g, row, {})
    {
      hide HeapOk, TableOk, Backed, Preserved, RowOk, Aligned, Worded;
      segsize := segsize + n;
      OpenHeap(h, {});
      RowFrame(row);
      EndWorded(brk, top);
      MoveEnd(h, table.mem, topsize + n);
      InitTop(top, topsize + n);
      row := row.(topsize := topsize);
    }

    lemma SegmentFacts()
      requires Valid()
      ensures SystemOk() && (top != 0 ==> topsize > 0 && segbase + segsize == brk && Worded(brk)) && (top == 0 ==> topsize == 0)
    {
      hide HeapOk, RowOk;
      if top != 0 {
        TopNonzero(State());
        OpenHeap(State(), {});
        RowFrame(row);
        EndWorded(brk, top);
      }
    }

    /** What asking the system for core came to: nothing, or tsize bytes appended at tbase. */
    twostate predicate Obtained(tbase: int, tsize: int)
      reads this, table
    {
      && SystemOk() && KeptBelow(old(table.mem), table.mem, old(brk)) && (Worded(brk) ==> Backed(table.mem, old(brk), brk))
      && if tbase == MAX_SIZE_T then brk == old(brk) && table.mem == old(table.mem)
         else tbase == old(brk) && brk == tbase + tsize
    }

    /** The core to be asked of the system for nb is n bytes. */
    ghost predicate Missing(nb: nat, n: nat)
      reads `contiguous, `top, `topsize, `brk
    {
      0 <= topsize && 0 <= brk && MissingCore(nb, contiguous, top == 0, brk, topsize, n)
    }

    /** sys_alloc gets no core for nb: the padded request wraps around, too much is missing, or the system refuses just that. */
    ghost predicate Denied(nb: nat)
      reads `contiguous, `top, `topsize, `brk, `round
    {
      || nb + SYS_ALLOC_PADDING + PAGE > WORD_SPAN
      || exists n: nat {:trigger Missing(nb, n)} :: Missing(nb, n) && (n >= HALF_MAX_SIZE_T || !Grants(n))
    }

    lemma DeniedIs(nb: nat)
      requires !Wraps(nb)
      ensures forall n: nat {:trigger Missing(nb, n)} :: Missing(nb, n) ==> (Denied(nb) <==> n >= HALF_MAX_SIZE_T || !Grants(n))
    {
      hide MissingCore;
      forall n: nat | Missing(nb, n) ensures Denied(nb) <==> n >= HALF_MAX_SIZE_T || !Grants(n) {
        if Denied(nb) {
          var k: nat :| Missing(nb, k) && (k >= HALF_MAX_SIZE_T || !Grants(k));
          MissingOnce(nb, contiguous, top == 0, brk, topsize, n, k);
        }
      }
    }

    /**
     * The missing core is the least that would do: of all whole numbers of pages for an extension
     * of top, and for a distrusted break; for the first segment from a trusted break, of all
     * numbers that reach a page border and leave room for the request behind the next one.
     */
    lemma MissingLeast(nb: nat, n: nat)
      requires Missing(nb, n)
      ensures contiguous && top != 0 ==>
        && n % 4096 == 0 && nb + SYS_ALLOC_PADDING <= topsize + n
        && forall k: nat :: k % 4096 == 0 && nb + SYS_ALLOC_PADDING <= topsize + k ==> n <= k
      ensures contiguous && top == 0 ==>
        var d := (4096 - brk % 4096) % 4096;
        && (brk + d) % 4096 == 0 && 0 <= d < 4096
        && (brk + n) % 4096 == 0 && nb + SYS_ALLOC_PADDING + d <= n
        && forall e: nat :: e % 4096 == 0 && brk + d + nb + SYS_ALLOC_PADDING <= e ==> brk + n <= e
      ensures !contiguous ==>
        && n % 4096 == 0 && nb + SYS_ALLOC_PADDING <= n
        && forall k: nat :: k % 4096 == 0 && nb + SYS_ALLOC_PADDING <= k ==> n <= k
    {
      if contiguous && top == 0 {
        var d := (4096 - brk % 4096) % 4096;
        PageSum(brk + d, n - d);
        forall e: nat | e % 4096 == 0 && brk + d + nb + SYS_ALLOC_PADDING <= e ensures brk + n <= e {
          LeastIsLeast(brk + n, brk + d + nb + SYS_ALLOC_PADDING, e);
        }
      } else {
        var need := nb + SYS_ALLOC_PADDING - if contiguous then topsize else 0;
        forall k: nat | k % 4096 == 0 && need <= k ensures n <= k { LeastIsLeast(n, need, k); }
      }
    }

    /**
     * An extension of top fails exactly if the system grants no whole number of pages, below half
     * the address space, that would leave room for the request.
     */
    lemma DeniedMeans(nb: nat)
      requires Valid() && contiguous && top != 0 && topsize <= nb && nb + SYS_ALLOC_PADDING + 4096 <= WORD_SPAN
      ensures Denied(nb) <==>
        forall n: nat :: n % 4096 == 0 && nb + SYS_ALLOC_PADDING <= topsize + n && n < HALF_MAX_SIZE_T ==> !Grants(n)
    {
      hide Valid, Missing, Denied;
      SegmentFacts();
      var n := PageAlign(nb + SYS_ALLOC_PADDING - topsize);
      PageAlignLeast(nb + SYS_ALLOC_PADDING - topsize);
      MissingIs(nb, n);
      DeniedIs(nb);
      MissingLeast(nb, n);
      forall k: nat | n <= k && Grants(k) ensures Grants(n) {}
    }

    lemma TooMuch(nb: nat)
      requires Wraps(nb)
      ensures Denied(nb)
    {}

    lemma MissingIs(nb: nat, n: nat)
      requires 0 <= topsize && 0 <= brk
      ensures !contiguous && LeastPages(n, nb + SYS_ALLOC_PADDING) ==> Missing(nb, n)
      ensures contiguous && top == 0 && LeastPages(n - (PAGE - brk % PAGE) % PAGE, nb + SYS_ALLOC_PADDING) ==> Missing(nb, n)
      ensures contiguous && top != 0 && LeastPages(n, nb + SYS_ALLOC_PADDING - topsize) ==> Missing(nb, n)
    {}

    /** sys_alloc, first way: extend the segment, or start one at the break. */
    method ContiguousCore(nb: nat, asize0: nat) returns (tbase: int, asize: nat)
      requires Valid() && contiguous && topsize <= nb < WORD_SPAN && !Wraps(nb) && asize0 == PageAlign((nb + SYS_ALLOC_PADDING) % WORD_SPAN)
      modifies table`mem, `brk
      ensures Obtained(tbase, asize) && old(Missing(nb, asize))
      ensures tbase == MAX_SIZE_T <==> asize >= HALF_MAX_SIZE_T || !old(Grants(asize))
    {
      hide Backed, KeptBelow, PageAlign, ToPage, Aligned, Worded, Valid, LeastPages, Missing;
      SegmentFacts();
      BackedNone(table.mem, brk);
      tbase, asize := MAX_SIZE_T, asize0;
      PaddedRequest(nb);
      if top == 0 {
        var base := Morecore(0);
        ToPageAligns(base);
        PageRoom(asize, ToPage(base));
        if base % PAGE != 0 {
          asize := (asize + ToPage(base)) % WORD_SPAN;
        }
        MissingIs(nb, asize);
        if asize > nb && asize < HALF_MAX_SIZE_T {
          var br := Morecore(asize);
          if br == base {
            tbase := base;
          }
        }
      } else {
        PageAlignLeast(nb - topsize + SYS_ALLOC_PADDING);
        asize := PageAlign((nb - topsize + SYS_ALLOC_PADDING) % WORD_SPAN);
        MissingIs(nb, asize);
        if asize < HALF_MAX_SIZE_T {
          var br := Morecore(asize);
          if br == segbase + segsize {
            tbase := br;
          }
        }
      }
    }

    /**
     * The part of sys_alloc that asks the system: contiguously first, then, if that failed
     * now or before, once more.
     */
    method ObtainCore(nb: nat) returns (tbase: int, tsize: nat)
      requires Valid() && topsize <= nb < WORD_SPAN
      modifies table`mem, `contiguous, `brk
      ensures Obtained(tbase, tsize) && (tbase != MAX_SIZE_T ==> old(Missing(nb, tsize)))
      ensures tbase == MAX_SIZE_T <==> old(Denied(nb))
      ensures contiguous == (old(contiguous) && (tbase != MAX_SIZE_T || nb + SYS_ALLOC_PADDING + PAGE > WORD_SPAN))
    {
      hide Backed, KeptBelow, PageAlign, Aligned, Worded, Valid, LeastPages, Missing, Denied;
      SegmentFacts();
      PaddedRequest(nb);
      BackedNone(table.mem, brk);
      var asize := PageAlign((nb + SYS_ALLOC_PADDING) % WORD_SPAN);
      tbase, tsize := MAX_SIZE_T, 0;
      if asize <= nb {
        TooMuch(nb);
        return;
      }
      DeniedIs(nb);
      MissingIs(nb, asize);
      if contiguous {
        tbase, asize := ContiguousCore(nb, asize);
        tsize := asize;
        if tbase == MAX_SIZE_T {
          contiguous := false;
        }
      }
      if tbase == MAX_SIZE_T && asize < HALF_MAX_SIZE_T {
        var br := Morecore(asize);
        var end := Morecore(0);
        if br != MAX_SIZE_T && end != MAX_SIZE_T && br < end {
          var ssize := end - br;
          if ssize > nb + TOP_FOOT_SIZE {
            tbase, tsize := br, ssize;
          }
        }
      }
    }

    /**
     * sys_alloc: it fails exactly if the system gives no core, and then nothing changes; a
     * successful extension always serves the request, whatever the break.  The allocator
     * stays sound exactly if it was steady.
     */
    method SysAlloc(nb: nat) returns (p: int)
      requires Valid() && topsize <= nb < WORD_SPAN && (Request(nb) || nb == MAX_SIZE_T)
      modifies this, table
      ensures p == 0 <==> old(Denied(nb))
      ensures p == 0 ==> Valid() && State() == old(State()) && brk == old(brk) && top == old(top) && topsize == old(topsize)
      ensures contiguous == (old(contiguous) && (p != 0 || nb + SYS_ALLOC_PADDING + PAGE > WORD_SPAN)) && round == old(round) + 1
      ensures p != 0 ==> brk >= old(brk) && var n := brk - old(brk); old(Missing(nb, n))
      ensures p != 0 && old(top) != 0 ==> p == old(top)
      ensures p != 0 && old(Steady()) ==> Valid() && top != 0 && Served(old(State()), State(), p, nb) && nb != MAX_SIZE_T
      ensures p != 0 && !old(Steady()) ==> Spoiled() && p >= 0 && Aligned(p)
    {
      hide HeapOk, TableOk, Backed, Preserved, EmptyBins, HeaderWords, Live, RowOk, Aligned, Worded, PageAlign, MissingCore, LeastPages, Denied, KeptBelow, Served, Allocated, SameSpan, Bounded;
      ghost var h := State();
      SegmentFacts();
      TooMuch(MAX_SIZE_T);
      var tbase, tsize := ObtainCore(nb);
      if tbase == MAX_SIZE_T {
        round := round + 1;
        p := 0;
        return;
      }
      ghost var sound := old(Steady());
      if top == 0 {
        KeptLess(h.m, table.mem, tbase, HEAP_MIN);
        UnusedGrown(h.m, table.mem, table.smallmap, table.treemap, table.bins);
      }
      AddCore(tbase, tsize, nb, sound, h);
      ghost var h1, n := State(), topsize;
      p := AllocFromTop(nb, sound);
      if sound {
        ServedLater(h, h1, State(), p, nb);
      } else {
        RequestWorded(nb, n);
      }
      round := round + 1;
    }

    /** sys_alloc: the core becomes the first segment, or top grows by it; h is the heap as it was. */
    method AddCore(tbase: nat, tsize: nat, nb: nat, ghost sound: bool, ghost h: Heap)
      requires SystemOk() && HEAP_MIN <= tbase && tbase + tsize == brk && nb < WORD_SPAN && 0 <= topsize <= nb
      requires MissingCore(nb, contiguous, top == 0, tbase, topsize, tsize) && (sound <==> top != 0 || Worded(tbase) || contiguous)
      requires h == State().(m := h.m) && KeptBelow(h.m, table.mem, tbase) && (Worded(brk) ==> Backed(table.mem, tbase, brk))
      requires top == 0 ==> Unused()
      requires top != 0 ==>
        && HeapOk(h, {}) && Bounded(row) && top == row.top && topsize == row.topsize && table.treebins == table.bins.roots
        && segbase + segsize == tbase == top + topsize + TOP_FOOT_SIZE && Worded(tbase)
      modifies table, `row, `top, `topsize, `segbase, `segsize, `trimCheck
      ensures top >= HEAP_MIN && Aligned(top) && nb < topsize && (old(top) != 0 ==> top == old(top))
      ensures sound ==> Valid() && Live(row) == Live(h.g) && Preserved(h.m, table.mem, h.g, row, {})
      ensures !sound ==> !Worded(topsize)
    {
      hide HeapOk, TableOk, Backed, Preserved, EmptyBins, HeaderWords, Live, RowOk, Aligned, Worded, PageAlign, MissingCore, KeptBelow;
      KeptLess(h.m, table.mem, tbase, if top == 0 then HEAP_MIN else top + 4);
      if top == 0 {
        FirstTop(nb, contiguous, tbase, tsize);
        FirstSegment(tbase, tsize);
        if sound { NothingLive(h.m, table.mem, h.g, row); }
      } else {
        GrownCore(nb, contiguous, tbase, topsize, tsize);
        PagesWorded(tbase, tsize);
        GrownBacked(h, table.mem, brk);
        TopNonzero(h);
        OpenHeap(h, {});
        RowFrame(row);
        MoveBreak(tsize, h);
      }
    }

    /** sys_trim(0): whole pages of top go back to the system, if it takes them. */
    method SysTrim()
      requires Valid() && top != 0
      modifies table`mem, `row, `top, `topsize, `segsize, `trimCheck, `brk, `round
      ensures Valid() && Live(row) == old(Live(row)) && Preserved(old(table.mem), table.mem, old(row), row, {})
      ensures top == old(top) != 0 && brk == old(brk) - (old(topsize) - topsize) && round == old(round) + 1
      ensures !shrinks(old(round)) || old(topsize) <= TOP_FOOT_SIZE ==> topsize == old(topsize)
      ensures shrinks(old(round)) && old(topsize) > TOP_FOOT_SIZE ==>
        var given := old(topsize) - topsize;
        && given % 4096 == 0 && 0 <= given < HALF_MAX_SIZE_T && TOP_FOOT_SIZE < topsize
        && (topsize <= TOP_FOOT_SIZE + 4096 || given == HALF_MAX_SIZE_T + 1 - 4096)
      ensures trimCheck ==
        if topsize < old(topsize) then TRIM_THRESHOLD else if old(topsize) > old(trimCheck) then MAX_SIZE_T else old(trimCheck)
    {
      hide HeapOk, TableOk, Backed, Preserved, RowOk, TrimSize, Worded, KeptBelow, Aligned, Live;
      ghost var h := State();
      PreservedSelf(h.m, h.g);
      SegmentFacts();
      var released := 0;
      if topsize > TOP_FOOT_SIZE {
        TopNonzero(h);
        TrimLeaves(topsize);
        var extra: int := TrimSize(topsize);
        var oldBr := Morecore(0);
        if oldBr == segbase + segsize {
          var relBr := Morecore(-extra);
          var newBr := Morecore(0);
          if relBr != MAX_SIZE_T && newBr < oldBr {
            released := oldBr - newBr;
          }
        }
        if released != 0 {
          PagesWorded(oldBr, extra);
          ShrunkBacked(h, brk);
          BackedNone(h.m, top + 4);
          MoveBreak(-released, h);
        }
      }
      if released == 0 && topsize > trimCheck {
        trimCheck := MAX_SIZE_T;
      }
      round := round + 1;
    }

    /**
     * dlfree.  Chunks that do not border top leave it alone; one that does joins it, with the
     * free chunk before it, and if top is then larger than the threshold its end is offered to
     * the system.
     */
    method Free(mem: int)
      requires Valid() && (mem == 0 || mem - 8 in Live(row))
      modifies this, table
      ensures Valid() && (top == 0 <==> old(top) == 0) && contiguous == old(contiguous)
      ensures mem == 0 ==> State() == old(State()) && brk == old(brk) && top == old(top) && round == old(round)
      ensures mem != 0 ==>
        && Live(row) == old(Live(row)) - {mem - 8}
        && Preserved(old(table.mem), table.mem, old(row), row, {mem - 8})
      ensures mem != 0 && End(old(row), mem - 8) != old(top) ==>
        brk == old(brk) && top == old(top) && topsize == old(topsize) && trimCheck == old(trimCheck) && round == old(round)
      ensures mem != 0 && End(old(row), mem - 8) == old(top) ==>
        && JoinedBack(old(row), mem - 8, top)
        && var grown := old(top) + old(topsize) - top;
        && brk == old(brk) - (grown - topsize)
        && (grown <= old(trimCheck) || !shrinks(old(round)) || grown <= TOP_FOOT_SIZE ==> topsize == grown)
        && (grown > old(trimCheck) && shrinks(old(round)) && grown > TOP_FOOT_SIZE ==>
          && (grown - topsize) % 4096 == 0 && 0 <= grown - topsize < HALF_MAX_SIZE_T && TOP_FOOT_SIZE < topsize
          && (topsize <= TOP_FOOT_SIZE + 4096 || grown - topsize == HALF_MAX_SIZE_T + 1 - 4096))
        && trimCheck == if topsize < grown then TRIM_THRESHOLD else if grown > old(trimCheck) then MAX_SIZE_T else old(trimCheck)
    {
      hide HeapOk, TableOk, Preserved;
      if mem != 0 {
        ghost var h := State();
        var p := mem - 8;
        PrevRead(h, p);
        var psize := HeadSize(table.mem[p + 4]);
        var toTop := DisposeChunk(p, psize);
        ghost var h1 := State();
        TopNonzero(h1);
        if toTop && topsize > trimCheck {
          SysTrim();
          PreservedTrans(h.m, h1.m, table.mem, h.g, h1.g, row, {p}, {}, {p});
        }
      }
    }

    // -------------------------------------------------------------- malloc

    /** No free chunk is as large as nb, top being needed larger still. */
    ghost predicate NoRoom(nb: nat)
      reads this, table
    {
      && dvsize < nb && topsize <= nb
      && forall c :: c in table.bins.binned ==> table.bins.binned[c] < nb
    }

    /** No free chunk serves nb, and the system gives no core for it. */
    ghost predicate Refused(nb: nat)
      reads this, table
    {
      NoRoom(nb) && Denied(nb)
    }

    /** The small bins of dlmalloc: p != 0 if a small bin or, failing that, a tree chunk serves nb. */
    method MallocSmall(nb: nat) returns (p: int)
      requires Valid() && Request(nb) && nb < MIN_LARGE_SIZE
      modifies table, `row, `dv, `dvsize
      ensures Valid()
      ensures p != 0 ==>
        && Served(old(State()), State(), p, nb) && LeastFit(old(table.bins.binned), p, nb)
        && (old(dvsize) < nb || Preferred(old(table.bins.binned)[p], nb, old(dvsize)))
      ensures p == 0 ==> State() == old(State()) && table.treebins == old(table.treebins)
      ensures p == 0 ==> forall c :: c in table.bins.binned && nb <= table.bins.binned[c] ==>
        nb <= dvsize && !Preferred(table.bins.binned[c], nb, dvsize)
    {
      hide HeapOk, Preserved, TableOk, Bit, ShiftRight, Above, FirstBit, RowOk, EmptyBins, HeaderWords, BitIndex, LeastBit, Served, Allocated;
      ghost var h := State();
      var idx := SmallIndex(nb);
      RequestIndex(nb);
      p := 0;
      var smallbits := ShiftRight(table.smallmap, idx);
      SmallSearch(table.smallmap, idx);
      if top == 0 { BlankMaps(idx); }
      if smallbits & 3 != 0 {
        TableOf(h, {});
        if smallbits & 1 != 1 {
          UnmarkedBins(table.mem, table.smallmap, table.treemap, table.bins, idx, idx + 1);
          idx := idx + 1;
        }
        p := AllocExactSmall(nb, idx);
        ServedHere(h, State(), p, nb);
      } else if nb > dvsize {
        if smallbits != 0 {
          var leftbits := Above(table.smallmap, idx);
          var i := FirstBit(leftbits);
          TableOf(h, {});
          UnmarkedBins(table.mem, table.smallmap, table.treemap, table.bins, idx, i);
          DvSmall(h, nb);
          p := AllocSplitSmall(nb, i);
          ServedHere(h, State(), p, nb);
        } else if table.treemap != 0 {
          TableOf(h, {});
          UnmarkedBins(table.mem, table.smallmap, table.treemap, table.bins, idx, NBINS);
          DvSmall(h, nb);
          p := TmallocSmall(nb);
          ServedHere(h, State(), p, nb);
        } else {
          if top != 0 { TableOf(h, {}); }
          NoneBinned(table.mem, table.smallmap, table.treemap, table.bins, idx, nb);
        }
      } else {
        TableOf(h, {});
        UnmarkedBins(table.mem, table.smallmap, table.treemap, table.bins, idx, if idx + 1 < NBINS then idx + 2 else idx + 1);
      }
    }

    /** dlmalloc for a request above the small sizes, and not too large. */
    method MallocLarge(nb: nat) returns (p: int)
      requires Valid() && Request(nb) && TreeSize(nb)
      modifies table, `row
      ensures Valid()
      ensures p != 0 ==>
        && Served(old(State()), State(), p, nb) && LeastFit(old(table.bins.binned), p, nb)
        && (old(dvsize) < nb || Preferred(old(table.bins.binned)[p], nb, old(dvsize)))
      ensures p == 0 ==> State() == old(State()) && table.treebins == old(table.treebins)
      ensures p == 0 ==> forall c :: c in table.bins.binned && nb <= table.bins.binned[c] ==>
        nb <= dvsize && !Preferred(table.bins.binned[c], nb, dvsize)
    {
      hide HeapOk, Preserved, TableOk, Bit, RowOk, EmptyBins, HeaderWords;
      p := 0;
      if top != 0 { TableOf(State(), {}); }
      if table.treemap != 0 {
        p := TmallocLarge(nb);
        if p != 0 { SegmentKept(old(State()), State(), p); }
      } else {
        NoTrees(table.mem, table.smallmap, table.treemap, table.bins, nb);
      }
    }

    /**
     * dlmalloc.  A block served is new, aligned and just large enough, and no block in use
     * is touched; a request fails only if no free chunk is large enough for it and the
     * system refuses more, and then nothing changes.
     */
    method Malloc(bytes: nat) returns (mem: int)
      requires Valid() && bytes < WORD_SPAN
      modifies this, table
      ensures mem == 0 ==> Valid() && State() == old(State()) && brk == old(brk) && top == old(top) && round == old(round) + 1
      ensures contiguous == (old(contiguous) && (mem != 0 || bytes >= MAX_REQUEST || RequestToSize(bytes) + SYS_ALLOC_PADDING + PAGE > WORD_SPAN))
      ensures mem == 0 <==> bytes >= MAX_REQUEST || old(Refused(RequestToSize(bytes)))
      ensures if mem != 0 && old(NoRoom(RequestToSize(bytes))) then brk >= old(brk) && var n := brk - old(brk); old(Missing(RequestToSize(bytes), n))
        else brk == old(brk)
      ensures mem != 0 ==> Chosen(old(State()), old(top), RequestToSize(bytes), mem - 8)
      ensures mem != 0 && old(Steady()) ==>
        Valid() && top != 0 && Aligned(mem) && Served(old(State()), State(), mem - 8, RequestToSize(bytes))
      ensures mem != 0 && !old(Steady()) ==> Spoiled()
    {
      hide HeapOk, Preserved, TableOk, RowOk, Unused, Denied, Missing, RequestToSize, Served;
      var p, nb := AllocBinned(bytes);
      if p == 0 {
        p := AllocElsewhere(nb);
      }
      if p == 0 {
        mem := 0;
      } else {
        mem := p + 8;
        if old(Steady()) { ServedAligned(old(State()), State(), p, nb); }
      }
    }

    /** dlmalloc: the padded size, and a chunk from the bins if they serve it. */
    method AllocBinned(bytes: nat) returns (p: int, nb: nat)
      requires Valid() && bytes < WORD_SPAN
      modifies table, `row, `dv, `dvsize
      ensures Valid() && nb < WORD_SPAN
      ensures bytes < MAX_REQUEST ==> nb == RequestToSize(bytes) && Request(nb)
      ensures bytes >= MAX_REQUEST ==> nb == MAX_SIZE_T && p == 0
      ensures bytes >= MAX_REQUEST ==> old(dvsize < MAX_SIZE_T && topsize <= MAX_SIZE_T && Denied(MAX_SIZE_T))
      ensures p != 0 ==>
        && top != 0 && Served(old(State()), State(), p, nb) && !old(NoRoom(nb)) && LeastFit(old(table.bins.binned), p, nb)
        && (old(dvsize) < nb || Preferred(old(table.bins.binned)[p], nb, old(dvsize)))
      ensures p == 0 ==> State() == old(State())
      ensures p == 0 && bytes < MAX_REQUEST ==> forall c :: c in table.bins.binned && nb <= table.bins.binned[c] ==>
        nb <= dvsize && !Preferred(table.bins.binned[c], nb, dvsize)
    {
      hide HeapOk, Preserved, TableOk, RowOk, Unused, Denied;
      if top == 0 { NothingBinned(); }
      p := 0;
      if bytes <= MAX_SMALL_REQUEST {
        RequestFits(bytes);
        nb := RequestToSize(bytes);
        p := MallocSmall(nb);
      } else if bytes >= MAX_REQUEST {
        TooLargeDenied();
        nb := MAX_SIZE_T;
      } else {
        RequestFits(bytes);
        nb := PadRequest(bytes);
        p := MallocLarge(nb);
      }
      if p != 0 { LiveHolds(p); }
    }

    /** dlmalloc when no bin serves: the victim, top, or more core. */
    method AllocElsewhere(nb: nat) returns (p: int)
      requires Valid() && nb < WORD_SPAN && (Request(nb) || nb == MAX_SIZE_T)
      modifies this, table
      ensures p == 0 <==> old(dvsize < nb && topsize <= nb && Denied(nb))
      ensures p != 0 ==> if nb <= old(dvsize) then p == old(dv) else old(top) != 0 ==> p == old(top)
      ensures p == 0 ==> Valid() && State() == old(State()) && brk == old(brk) && top == old(top)
      ensures contiguous == (old(contiguous) && (p != 0 || nb + SYS_ALLOC_PADDING + PAGE > WORD_SPAN))
      ensures round == old(round) + (if old(dvsize < nb && topsize <= nb) then 1 else 0)
      ensures if old(dvsize < nb && topsize <= nb) && p != 0 then brk >= old(brk) && var n := brk - old(brk); old(Missing(nb, n)) else brk == old(brk)
      ensures p != 0 && old(Steady()) ==> Valid() && top != 0 && Served(old(State()), State(), p, nb) && nb != MAX_SIZE_T
      ensures p != 0 && !old(Steady()) ==> Spoiled() && p >= 0 && Aligned(p)
    {
      hide HeapOk, Preserved, TableOk, RowOk, Unused, Denied, Missing;
      SizesBelow();
      if nb <= dvsize {
        p := AllocFromDv(nb);
        SegmentKept(old(State()), State(), p);
        LiveHolds(p);
      } else if nb < topsize {
        p := AllocFromTop(nb, true);
        SegmentKept(old(State()), State(), p);
        LiveHolds(p);
      } else {
        p := SysAlloc(nb);
      }
    }

    lemma TooLargeDenied()
      requires Valid()
      ensures dvsize < MAX_SIZE_T && topsize <= MAX_SIZE_T && Denied(MAX_SIZE_T)
    {
      SizesBelow();
      TooMuch(MAX_SIZE_T);
    }

    lemma NothingBinned()
      requires Valid() && top == 0
      ensures table.bins.binned == map[]
    {}

    lemma SizesBelow()
      requires Valid()
      ensures 0 <= dvsize < MAX_SIZE_T && 0 <= topsize < MAX_SIZE_T
      ensures dvsize > 0 || topsize > 0 ==> top != 0
    {
      hide HeapOk, RowOk;
      if top != 0 {
        DvTile(State(), {});
        TopNonzero(State());
        if dv != 0 { OpenHeap(State(), {}); Seat(row, dv); }
      }
    }

    // -------------------------------------------------------------- realloc

    /** set_inuse */
    method SetInuse(p: int, s: int)
      requires p + 4 in table.mem && p + s + 4 in table.mem && s != 0
      modifies table`mem
      ensures table.mem == InuseSet(old(table.mem), p, s)
    {
      table.mem := table.mem[p + 4 := table.mem[p + 4] % 2 + s + 2];
      table.mem := table.mem[p + s + 4 := WithBit(table.mem[p + s + 4])];
    }

    /** Chunk p in use cut at n, the rest given back. */
    method GiveBackRest(p: int, s: nat, n: nat)
      requires Holding({}) && p in Live(row) && row.tiles[p].size == s && CanSplit(row, p, n)
      modifies table, `row, `dv, `dvsize, `top, `topsize
      ensures Holding({}) && Live(row) == old(Live(row)) && Regrown(old(State()), State(), p, n)
    {
      hide HeapOk, Preserved, RowOk, Aligned, Regrown;
      ghost var h := State();
      CutInTwo(h, {}, p, n);
      var r := p + n;
      SetInuse(p, n);
      SetInuse(r, s - n);
      row := Split(row, p, n, true, true);
      ghost var h1 := State();
      var toTop := DisposeChunk(r, s - n);
      assert p != r by { assert n >= MIN_CHUNK_SIZE; }
      RegrownAside(h, h1, State(), p, n, r);
    }

    /** try_realloc_chunk: growing into top. */
    method GrowIntoTop(p: int, oldsize: nat, nb: nat)
      requires Holding({}) && p in Live(row) && row.tiles[p].size == oldsize && p + oldsize == top
      requires Request(nb) && oldsize < nb < oldsize + topsize
      modifies table`mem, `row, `top, `topsize
      ensures Holding({}) && Live(row) == old(Live(row)) && Regrown(old(State()), State(), p, nb)
    {
      hide HeapOk, Preserved, RowOk, Aligned, Regrown;
      ghost var h := State();
      OpenHeap(h, {});
      ReachTop(h, p, nb);
      var newsize := oldsize + topsize;
      var newtopsize := newsize - nb;
      var newtop := p + nb;
      SetInuse(p, nb);
      table.mem := table.mem[newtop + 4 := newtopsize + 1];
      top := newtop;
      topsize := newtopsize;
      row := TopReached(row, p, nb);
    }

    /** The stores of growing into a part of the victim. */
    method SetPart(p: int, nb: nat, dsize: nat)
      requires nb >= MIN_CHUNK_SIZE && dsize >= MIN_CHUNK_SIZE && p + 4 in table.mem && p + nb + 4 in table.mem
      requires p + nb + dsize + 4 in table.mem && table.mem[p + nb + dsize + 4] % 2 == 0
      modifies table`mem
      ensures table.mem == FreeTags(InuseSet(old(table.mem), p, nb), p + nb, dsize)
    {
      var r := p + nb;
      var n := r + dsize;
      SetInuse(p, nb);
      table.mem := table.mem[r + 4 := dsize + 1];
      table.mem := table.mem[r + dsize := dsize];
      table.mem := table.mem[n + 4 := WithoutBit(table.mem[n + 4])];
    }

    /** try_realloc_chunk: growing into the victim, which keeps dsize bytes. */
    method GrowSplitDv(p: int, oldsize: nat, nb: nat, dsize: nat)
      requires Holding({}) && p in Live(row) && row.tiles[p].size == oldsize && p + oldsize == dv && dv in row.tiles
      requires Request(nb) && oldsize < nb && dsize >= MIN_CHUNK_SIZE && nb + dsize == oldsize + dvsize
      modifies table`mem, `row, `dv, `dvsize
      ensures Holding({}) && Live(row) == old(Live(row)) && Regrown(old(State()), State(), p, nb)
    {
      hide HeapOk, Preserved, RowOk, Aligned, Regrown;
      ghost var h := State();
      OpenHeap(h, {});
      DvTile(h, {});
      DropDv(h, {});
      assert {} + {dv} == {dv};
      ghost var h1 := h.(dv := 0, dvsize := 0);
      TakePart(h1, p, dv, nb);
      var r := p + nb;
      SetPart(p, nb, dsize);
      row := Marked(Split(Merged(row, p, true), p, nb, true, true), r, false);
      dvsize := dsize;
      dv := r;
      SetDv(h1.(m := table.mem, g := row), {r}, r);
      assert {r} - {r} == {};
      RegrownFrom(h1, h, h1.(m := table.mem, g := row), State(), p, nb);
    }

    /** try_realloc_chunk: growing into the victim. */
    method GrowIntoDv(p: int, oldsize: nat, nb: nat)
      requires Holding({}) && p in Live(row) && row.tiles[p].size == oldsize && p + oldsize == dv && dv in row.tiles
      requires Request(nb) && oldsize < nb <= oldsize + dvsize
      modifies table`mem, `row, `dv, `dvsize
      ensures Holding({}) && Live(row) == old(Live(row)) && Fitted(old(State()), State(), p, nb)
    {
      hide HeapOk, Preserved, RowOk, Aligned, Regrown, Fitted;
      ghost var h := State();
      var dvs := dvsize;
      var dsize := oldsize + dvs - nb;
      if dsize >= MIN_CHUNK_SIZE {
        GrowSplitDv(p, oldsize, nb, dsize);
        RegrownFits(h, State(), p, nb, nb);
      } else {
        OpenHeap(h, {});
        DvTile(h, {});
        DropDv(h, {});
        assert {} + {dv} == {dv};
        ghost var h1 := h.(dv := 0, dvsize := 0);
        Absorb(h1, {dv}, p, dv);
        assert {dv} - {dv} == {};
        var newsize := oldsize + dvs;
        SetInuse(p, newsize);
        row := Merged(row, p, true);
        dvsize := 0;
        dv := 0;
        RegrownFrom(h1, h, State(), State(), p, newsize);
        RegrownFits(h, State(), p, newsize, nb);
      }
    }

    /** try_realloc_chunk: growing into the binned chunk after p. */
    method GrowIntoBinned(p: int, oldsize: nat, nextsize: nat, nb: nat)
      requires Holding({}) && p in Live(row) && row.tiles[p].size == oldsize
      requires p + oldsize in table.bins.binned && table.bins.binned[p + oldsize] == nextsize
      requires Request(nb) && oldsize < nb <= oldsize + nextsize
      modifies table, `row, `dv, `dvsize, `top, `topsize
      ensures Holding({}) && Live(row) == old(Live(row)) && Fitted(old(State()), State(), p, nb)
    {
      hide HeapOk, Preserved, RowOk, Aligned, Regrown, Fitted, Live;
      ghost var h := State();
      var next := p + oldsize;
      var newsize := oldsize + nextsize;
      var rsize := newsize - nb;
      UnbinChunk(next, nextsize);
      ghost var h1 := State();
      SelfRegrown(h, h1, p);
      if rsize < MIN_CHUNK_SIZE {
        GrowOver(p, next, newsize);
        RegrownTrans(h, h1, State(), p, oldsize, newsize);
        RegrownFits(h, State(), p, newsize, nb);
      } else {
        GrowOverRest(p, next, nb, newsize);
        RegrownTrans(h, h1, State(), p, oldsize, nb);
        RegrownFits(h, State(), p, nb, nb);
      }
    }

    /** Chunk p takes in all of the chunk in hand behind it. */
    method GrowOver(p: int, next: int, newsize: nat)
      requires Holding({next}) && p in Live(row) && next in row.tiles && End(row, p) == next && newsize == row.tiles[p].size + row.tiles[next].size
      modifies table`mem, `row
      ensures Holding({}) && Live(row) == old(Live(row)) && Regrown(old(State()), State(), p, newsize)
    {
      hide HeapOk, RowOk, Regrown;
      Absorb(State(), {next}, p, next);
      assert {next} - {next} == {};
      SetInuse(p, newsize);
      row := Merged(row, p, true);
      RegrownSpan(old(State()), State(), p, newsize);
    }

    /** Chunk p takes in the chunk in hand behind it, up to nb bytes; the rest is given back. */
    method GrowOverRest(p: int, next: int, nb: nat, newsize: nat)
      requires Holding({next}) && p in Live(row) && next in row.tiles && End(row, p) == next && newsize == row.tiles[p].size + row.tiles[next].size
      requires row.tiles[p].size < nb && nb + MIN_CHUNK_SIZE <= newsize && Request(nb)
      modifies table, `row, `dv, `dvsize, `top, `topsize
      ensures Holding({}) && Live(row) == old(Live(row)) && Regrown(old(State()), State(), p, nb)
    {
      hide HeapOk, RowOk, Regrown, Preserved, Aligned, PrevUsed, InuseSet, GrownHeap;
      ghost var h := State();
      GrowCut(h, p, next, nb);
      ghost var h2 := GrownHeap(h, p, nb, newsize);
      GrownWords(h, p, next, nb, newsize);
      var r := p + nb;
      CutInuse(p, nb, newsize);
      row := Split(Merged(row, p, true), p, nb, true, true);
      GrownIs(h, p, nb, newsize);
      RegrownSpan(h, h2, p, nb);
      var toTop := DisposeChunk(r, newsize - nb);
      RegrownAside(h, h2, State(), p, nb, r);
    }

    /** set_inuse on both parts of a cut chunk. */
    method CutInuse(p: int, n: nat, s: nat)
      requires 0 < n < s && p + 4 in table.mem && p + n + 4 in table.mem && p + s + 4 in table.mem
      modifies table`mem
      ensures table.mem == InuseSet(InuseSet(old(table.mem), p, n), p + n, s - n)
    {
      SetInuse(p, n);
      SetInuse(p + n, s - n);
    }

    /**
     * try_realloc_chunk: chunk p made to fit nb where it is, its words kept; or nothing done,
     * the chunk being too small and what follows it not large enough or in use.
     */
    method TryRealloc(p: int, nb: nat) returns (newp: int)
      requires Valid() && p in Live(row) && Request(nb)
      modifies table, `row, `dv, `dvsize, `top, `topsize
      ensures Valid() && Live(row) == old(Live(row)) && p != 0
      ensures newp == 0 <==> old(Hemmed(row, p, nb))
      ensures newp == 0 ==> State() == old(State()) && top == old(top) && topsize == old(topsize)
      ensures newp != 0 ==> newp == p && Fitted(old(State()), State(), p, nb)
    {
      hide HeapOk, Preserved, RowOk, Aligned, TableOk, EmptyBins, HeaderWords, Regrown, Fitted;
      ghost var h := State();
      PrevRead(h, p);
      NextRead(h, {}, p);
      ChunkAligned(h, p);
      newp := 0;
      var oldsize := HeadSize(table.mem[p + 4]);
      var next := p + oldsize;
      if oldsize >= nb {
        var rsize := oldsize - nb;
        if rsize >= MIN_CHUNK_SIZE {
          OpenHeap(h, {});
          GiveBackRest(p, oldsize, nb);
          RegrownFits(h, State(), p, nb, nb);
        } else {
          PreservedSelf(table.mem, row);
          SelfRegrown(h, h, p);
          RegrownFits(h, h, p, oldsize, nb);
        }
        newp := p;
      } else if next == top {
        if oldsize + topsize > nb {
          GrowIntoTop(p, oldsize, nb);
          RegrownFits(h, State(), p, nb, nb);
          newp := p;
        }
      } else if next == dv {
        if oldsize + dvsize >= nb {
          GrowIntoDv(p, oldsize, nb);
          FittedSpan(h, State(), p, nb);
          newp := p;
        }
      } else if table.mem[next + 4] / 2 % 2 == 0 {
        var nextsize := HeadSize(table.mem[next + 4]);
        if oldsize + nextsize >= nb {
          GrowIntoBinned(p, oldsize, nextsize, nb);
          FittedSpan(h, State(), p, nb);
          newp := p;
        }
      }
    }

    /** memcpy from one block in use to another. */
    method CopyBytes(dst: int, src: int, n: nat)
      requires Holding({}) && dst - 8 in Live(row) && src - 8 in Live(row) && dst != src
      requires n + CHUNK_OVERHEAD <= row.tiles[dst - 8].size && n + CHUNK_OVERHEAD <= row.tiles[src - 8].size
      modifies table`mem
      ensures Holding({}) && Preserved(old(table.mem), table.mem, row, row, {dst - 8})
      ensures BytesMoved(old(table.mem), table.mem, src, dst, n)
    {
      hide HeapOk, Preserved, ByteAt, SetByte;
      ghost var m0 := table.mem;
      PreservedSelf(m0, row);
      PreservedMore(m0, m0, row, row, {dst - 8});
      for i := 0 to n
        invariant Holding({}) && Preserved(m0, table.mem, row, row, {dst - 8})
        invariant BytesMoved(m0, table.mem, src, dst, i) && HeapOk(State().(m := m0), {})
      {
        ghost var m1 := table.mem;
        BlockWords(State(), dst - 8, i);
        BlockWords(State().(m := m0), src - 8, i);
        SameByte(m0, m1, row, row, {dst - 8}, src - 8, i);
        var v := ByteAt(table.mem, src + i);
        ByteScribble(State(), dst - 8, i, v);
        table.mem := SetByte(table.mem, dst + i, v);
        PreservedTrans(m0, m1, table.mem, row, row, row, {dst - 8}, {dst - 8}, {dst - 8});
        MoveOne(m0, m1, src, dst, i, v);
      }
    }

    /** dlrealloc when the block cannot be made to fit where it is. */
    method MoveBlock(oldmem: int, bytes: nat) returns (mem: int)
      requires Valid() && bytes < MAX_REQUEST && oldmem - 8 in Live(row)
      modifies this, table
      ensures Valid() && top != 0
      ensures mem == 0 <==> old(Refused(RequestToSize(bytes)))
      ensures mem == 0 ==> State() == old(State()) && brk == old(brk)
      ensures mem != 0 ==> Reallocated(old(State()), State(), oldmem, mem, bytes) && mem != oldmem
    {
      hide HeapOk, Preserved, RowOk, ByteAt, SetByte, TableOk, EmptyBins, HeaderWords;
      ghost var h := State();
      RequestFits(bytes);
      mem := Malloc(bytes);
      if mem != 0 {
        ghost var h1 := State();
        ghost var p := oldmem - 8;
        StaysLive(h.m, h1.m, h.g, h1.g, {}, p);
        PrevRead(h1, p);
        var oc := HeadSize(table.mem[oldmem - 4]) - CHUNK_OVERHEAD;
        var n := if oc < bytes then oc else bytes;
        CopyBytes(mem, oldmem, n);
        ghost var h2 := State();
        ChunkAligned(h2, p);
        Free(oldmem);
        LiveHolds(mem - 8);
        Moved(h, h1, h2, State(), oldmem, mem, bytes);
      }
    }

    /**
     * dlrealloc: the block keeps its first bytes, in place or moved, and every other block
     * is left alone; on failure nothing changes.
     */
    method Realloc(oldmem: int, bytes: nat) returns (mem: int)
      requires Valid() && bytes < WORD_SPAN && (oldmem == 0 || oldmem - 8 in Live(row))
      modifies this, table
      ensures mem == 0 ==> Valid() && State() == old(State()) && brk == old(brk) && top == old(top)
      ensures mem == 0 <==> bytes >= MAX_REQUEST || old(
        Refused(RequestToSize(bytes)) && (oldmem != 0 ==> Hemmed(row, oldmem - 8, RequestToSize(bytes))))
      ensures mem != 0 && old(Steady()) && oldmem == 0 ==>
        Valid() && top != 0 && Aligned(mem) && Served(old(State()), State(), mem - 8, RequestToSize(bytes))
      ensures mem != 0 && oldmem != 0 ==> Valid() && top != 0 && Reallocated(old(State()), State(), oldmem, mem, bytes)
      ensures mem != 0 && oldmem != 0 ==> (mem == oldmem <==> !old(Hemmed(row, oldmem - 8, RequestToSize(bytes))))
      ensures mem != 0 && !old(Steady()) ==> oldmem == 0 && Spoiled()
    {
      hide HeapOk, Preserved, RowOk, TableOk, EmptyBins, HeaderWords, Unused;
      mem := 0;
      if oldmem == 0 {
        mem := Malloc(bytes);
      } else if bytes < MAX_REQUEST {
        RequestFits(bytes);
        ghost var h := State();
        var nb := RequestToSize(bytes);
        LiveHolds(oldmem - 8);
        var newp := TryRealloc(oldmem - 8, nb);
        LiveHolds(oldmem - 8);
        if newp != 0 {
          mem := newp + 8;
          InPlace(h, State(), mem, bytes);
        } else {
          mem := MoveBlock(oldmem, bytes);
        }
      }
    }

    lemma LiveHolds(p: int)
      requires Valid() && p in Live(row)
      ensures Holding({}) && top != 0
    {}

    // -------------------------------------------------------------- memalign

    method SetLead(p: int, leadsize: nat, newsize: nat)
      requires leadsize >= 8 && newsize >= 8 && leadsize % 2 == 0 && newsize % 2 == 0
      requires p + 4 in table.mem && p + leadsize + 4 in table.mem && p + leadsize + newsize + 4 in table.mem
      modifies table`mem
      ensures table.mem == InuseSet(InuseSet(old(table.mem), p, leadsize), p + leadsize, newsize)
    {
      InuseEither(table.mem, p, leadsize, leadsize + newsize);
      SetInuse(p + leadsize, newsize);
      SetInuse(p, leadsize);
    }

    /** internal_memalign: a chunk moved up to an aligned spot, its lead given back. */
    method GiveBackLead(p: int, n: nat) returns (newp: int)
      requires Holding({}) && p in Live(row) && n >= 16 && n % 16 == 0 && (p + 8) % n != 0
      requires row.tiles[p].size >= n + 2 * MIN_CHUNK_SIZE
      modifies table, `row, `dv, `dvsize, `top, `topsize
      ensures Holding({}) && SameSpan(old(row), row) && (newp + 8) % n == 0 && p < newp <= p + n + 8
      ensures Live(row) == old(Live(row)) - {p} + {newp} && newp !in old(Live(row))
      ensures row.tiles[newp].size == old(row.tiles[p].size) - (newp - p)
      ensures Preserved(old(table.mem), table.mem, old(row), row, {p})
    {
      hide HeapOk, Preserved, RowOk, Aligned, Spot, Regrown;
      ghost var h := State();
      PrevRead(h, p);
      LeadSpot(h, p, n);
      newp := Spot(p + 8, n) - 8;
      var leadsize := newp - p;
      var newsize := HeadSize(table.mem[p + 4]) - leadsize;
      LeadEven(h, p, leadsize);
      CutInTwo(h, {}, p, leadsize);
      SetLead(p, leadsize, newsize);
      row := Split(row, p, leadsize, true, true);
      ghost var h1 := State();
      LeadTiles(h.g, p, leadsize);
      var toTop := DisposeChunk(p, leadsize);
      StaysLive(h1.m, table.mem, h1.g, row, {p}, newp);
      PreservedTrans(h.m, h1.m, table.mem, h.g, h1.g, row, {p}, {p}, {p});
    }

    /** internal_memalign: lead and tail of a fresh block given back. */
    method TrimToSpot(p0: int, n: nat, nb: nat) returns (p: int)
      requires Holding({}) && p0 in Live(row) && n >= 16 && n % 16 == 0 && Request(nb) && row.tiles[p0].size >= nb + n + MIN_CHUNK_SIZE
      modifies table, `row, `dv, `dvsize, `top, `topsize
      ensures Holding({}) && SameSpan(old(row), row) && (p + 8) % n == 0 && (p == p0 || p !in old(Live(row)))
      ensures Live(row) == old(Live(row)) - {p0} + {p} && nb <= row.tiles[p].size <= nb + MIN_CHUNK_SIZE
      ensures Preserved(old(table.mem), table.mem, old(row), row, {p0})
    {
      hide HeapOk, Preserved, RowOk, Aligned;
      ghost var h1 := State();
      p := p0;
      if (p + 8) % n != 0 {
        p := GiveBackLead(p, n);
      } else {
        PreservedSelf(table.mem, row);
        PreservedMore(table.mem, table.mem, row, row, {p});
      }
      ghost var h2 := State();
      PrevRead(h2, p);
      var size := HeadSize(table.mem[p + 4]);
      if size > nb + MIN_CHUNK_SIZE {
        OpenHeap(h2, {});
        GiveBackRest(p, size, nb);
        PreservedTrans(h1.m, h2.m, table.mem, h1.g, h2.g, row, {p0}, {p}, {p0});
      }
    }

    /** internal_memalign for a power of two n: there is always room in the chunk malloc returns. */
    method AlignedBlock(n: nat, bytes: nat) returns (mem: int)
      requires Valid() && Steady() && n >= 16 && n % 16 == 0 && bytes + n < MAX_REQUEST
      modifies this, table
      ensures Valid() && (mem != 0 ==> top != 0)
      ensures mem == 0 ==> State() == old(State()) && brk == old(brk) && top == old(top)
      ensures mem == 0 <==> RequestToSize(bytes) + n + 12 >= MAX_REQUEST || old(Refused(RequestToSize(RequestToSize(bytes) + n + 12)))
      ensures mem != 0 ==> mem % 8 == 0 && mem % n == 0 && PutToUse(old(State()), State(), mem - 8, RequestToSize(bytes))
    {
      hide HeapOk, Preserved, RowOk, TableOk, Unused;
      RequestFits(bytes);
      ghost var h := State();
      var nb := RequestToSize(bytes);
      var req := nb + n + MIN_CHUNK_SIZE - CHUNK_OVERHEAD;
      mem := Malloc(req);
      if mem != 0 {
        RequestFits(req);
        ghost var h1 := State();
        LiveHolds(mem - 8);
        var p := TrimToSpot(mem - 8, n, nb);
        DvTile(State(), {});
        PreservedTrans(h.m, h1.m, table.mem, h.g, h1.g, row, {}, {mem - 8}, {});
        ChunkAligned(State(), p);
        mem := p + 8;
      }
    }

    /** dlmemalign: a block at a multiple of the alignment, which is rounded up to a power of two. */
    method Memalign(alignment: bv32, bytes: nat) returns (mem: int)
      requires Valid() && Steady() && bytes < WORD_SPAN && alignment <= 0x8000_0000
      modifies this, table
      ensures Valid() && (mem != 0 ==> top != 0)
      ensures mem == 0 ==> State() == old(State()) && brk == old(brk) && top == old(top)
      ensures alignment <= 8 ==> (mem == 0 <==> bytes >= MAX_REQUEST || old(Refused(RequestToSize(bytes))))
      ensures alignment > 8 ==>
        var n := Used(alignment) as nat;
        mem == 0 <==> bytes + n >= MAX_REQUEST || RequestToSize(bytes) + n + 12 >= MAX_REQUEST || old(Refused(RequestToSize(RequestToSize(bytes) + n + 12)))
      ensures mem != 0 ==> bytes < MAX_REQUEST && mem % 8 == 0 && PutToUse(old(State()), State(), mem - 8, RequestToSize(bytes))
      ensures mem != 0 ==> Meets(mem, alignment)
    {
      hide HeapOk, Preserved, Valid, Used, IsPower, RequestToSize, Chosen, Missing, Refused, NoRoom, Steady, Denied;
      if alignment <= 8 {
        mem := Malloc(bytes);
        return;
      }
      var a := RoundAlignment(alignment);
      UsedNumber(alignment);
      var n := a as int;
      if bytes >= MAX_REQUEST - n {
        mem := 0;
      } else {
        mem := AlignedBlock(n, bytes);
      }
    }
  }

  /**
   * How a heap is spoiled: the break lies off a word, the first request is refused, so that
   * the break is no longer trusted, and the next one is granted whole pages.
   */
  method SpoilHeap() returns (heap: Allocator)
    ensures fresh(heap) && heap.Spoiled() && !heap.Valid()
  {
    hide HeapOk, TableOk, RowOk, Wraps, MissingCore, RequestToSize, EmptyBins, HeaderWords, Served;
    heap := new Allocator(4097, n => if n == 0 then 0 else 0x10_0000, n => true, a => 0);
    heap.SizesBelow();
    heap.NothingBinned();
    PageAndByte();
    var mem := heap.Malloc(1);
    heap.NothingBinned();
    mem := heap.Malloc(1);
    heap.SpoiledUnsound();
  }

  lemma PageAndByte()
    ensures RequestToSize(1) == 16
    ensures MissingCore(16, true, true, 4097, 0, 8191)
    ensures forall n: nat {:trigger MissingCore(16, false, true, 4097, 0, n)} :: MissingCore(16, false, true, 4097, 0, n) ==> n == 4096
  {}
}

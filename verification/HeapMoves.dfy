/**
 * Moves made of several steps, stated with the words the allocator really stores: a free
 * chunk split for use, a used chunk freed together with its free neighbours, a used chunk
 * grown over the next one.
 */
module HeapMoves {
  import opened Arithmetic
  import opened ChunkMemory
  import opened BinStores
  import opened Tiling
  import opened Tags
  import opened HeapState
  import opened HeapSteps

  // ---------------------------------------------------------------- words that carry no tag

  /** A store into the body of an unbinned chunk: what a client does, or what is left behind. */
  lemma Scribble(h: Heap, held: set<int>, t: int, a: int, v: int)
    requires HeapOk(h, held) && t in h.g.tiles && t !in h.b.binned
    requires t + 8 <= a < End(h.g, t) || (a == End(h.g, t) && h.g.tiles[t].used)
    requires a in h.m
    ensures HeapOk(h.(m := h.m[a := v]), held) && Preserved(h.m, h.m[a := v], h.g, h.g, {t})
  {
    hide TableOk, RowOk, Backed, Aligned, Tagged;
    var m' := h.m[a := v];
    InsideHead(h.m, h.g, t);
    TagsRow(h.m, h.g);
    StoreBlocks(h.m, h.g, t, a, v);
    StoreUnwatched(h, held, t, a);
    TableStore(h.m, h.smallmap, h.treemap, h.b, a, v);
    forall r | r in h.g.tiles ensures KeptTag(h.m, m', h.g, h.g, r) { ScribbleTag(h.m, h.g, t, a, v, r); }
    TopApart(h.m, h.g, t);
    Retag(h.m, m', h.g, h.g, {});
    KeepRoles(h, held, m', h.g, held);
  }

  lemma ScribbleTag(m: Memory, g: Row, t: int, a: int, v: int, r: int)
    requires TagsOk(m, g) && t in g.tiles && r in g.tiles
    requires t + 8 <= a < End(g, t) || (a == End(g, t) && g.tiles[t].used)
    ensures KeptTag(m, m[a := v], g, g, r)
  {
    hide RowOk, Backed, Aligned;
    Tag(m, g, r);
    Tag(m, g, t);
    NextOf(m, g, r);
    if r != t { Order(g, r, t); }
  }

  /** A store into the body of top. */
  lemma ScribbleTop(h: Heap, held: set<int>, a: int, v: int)
    requires HeapOk(h, held) && h.g.top + 8 <= a && a != h.g.top + h.g.topsize + 4 && a in h.m
    ensures HeapOk(h.(m := h.m[a := v]), held) && Preserved(h.m, h.m[a := v], h.g, h.g, {})
  {
    hide TableOk, RowOk, Backed, Aligned;
    var m' := h.m[a := v];
    TagsRow(h.m, h.g);
    StoreTop(h, held, a, v);
    TableStore(h.m, h.smallmap, h.treemap, h.b, a, v);
    forall r | r in h.g.tiles ensures KeptTag(h.m, m', h.g, h.g, r) { Tag(h.m, h.g, r); NextOf(h.m, h.g, r); }
    Retag(h.m, m', h.g, h.g, {});
    KeepRoles(h, held, m', h.g, held);
  }

  // ---------------------------------------------------------------- splitting a held free chunk for use

  function SplitForUse(m: Memory, p: int, n: nat, s: nat): Memory
    requires n <= s
  {
    m[p + 4 := n + 3][p + n + 4 := s - n + 1][p + s := s - n]
  }

  lemma UseSplit(h: Heap, held: set<int>, p: int, n: nat)
    requires HeapOk(h, held) && p in held && CanSplit(h.g, p, n)
    ensures var h' := h.(m := SplitForUse(h.m, p, n, h.g.tiles[p].size), g := Split(h.g, p, n, true, false));
      && HeapOk(h', held - {p} + {p + n}) && Preserved(h.m, h'.m, h.g, h'.g, {})
      && p + n !in h.g.tiles
  {
    hide HeapOk, RowOk, Backed, Aligned, Tagged, Preserved, TagsOk;
    var s := h.g.tiles[p].size;
    OpenHeap(h, held);
    UseWhole(h, held, p);
    var h1 := h.(m := WholeUsed(h.m, p, s), g := Marked(h.g, p, true));
    MarkOk(h.g, p, true);
    SplitUsed(h1, held - {p}, p, n);
    var h2 := h1.(m := UsedSplit(h1.m, p, n, s), g := Split(h1.g, p, n, true, true));
    var r := p + n;
    SplitTail(h.m, h.g, p, n);
    assert h2.g == Split(h.g, p, n, true, true);
    FreeAlone(h2, held - {p}, r);
    var h3 := h2.(m := AloneFreed(h2.m, r, s - n), g := Marked(h2.g, r, false));
    SplitMemory(h, held, p, n);
    assert h3.m == SplitForUse(h.m, p, n, s);
    assert h3.g == Split(h.g, p, n, true, false);
    PreservedTrans(h.m, h1.m, h2.m, h.g, h1.g, h2.g, {}, {p}, {});
    PreservedTrans(h.m, h2.m, h3.m, h.g, h2.g, h3.g, {}, {r}, {});
  }

  lemma OpenHeap(h: Heap, held: set<int>)
    requires HeapOk(h, held)
    ensures TagsOk(h.m, h.g) && RowOk(h.g)
    ensures forall p :: p in held ==> p in h.g.tiles && !h.g.tiles[p].used
  {
    hide TableOk, RowOk, Tagged, Backed;
  }

  lemma SplitTail(m: Memory, g: Row, p: int, n: nat)
    requires TagsOk(m, g) && CanSplit(g, p, n) && !g.tiles[p].used
    ensures var g' := Split(g, p, n, true, true);
      && p + n in g'.tiles && g'.tiles[p + n].used && PrevUsed(g', p + n) && End(g', p + n) in g'.tiles && g'.tiles[End(g', p + n)].used
      && p + n !in g.tiles
  {
    hide RowOk, Backed, Aligned;
    TagsRow(m, g);
    SplitNew(g, p, n, true, true);
    Seat(g, p);
    NextUsed(m, g, p);
    Order(g, p, End(g, p));
  }

  lemma SplitMemory(h: Heap, held: set<int>, p: int, n: nat)
    requires HeapOk(h, held) && p in held && CanSplit(h.g, p, n) && p in h.g.tiles
    requires p + h.g.tiles[p].size + 4 in h.m
    ensures var s := h.g.tiles[p].size;
      var m1 := WholeUsed(h.m, p, s);
      var m2 := UsedSplit(m1, p, n, s);
      && p + n + (s - n) + 4 in m2 && AloneFreed(m2, p + n, s - n) == SplitForUse(h.m, p, n, s)
  {
    hide TableOk, RowOk, Backed, Aligned, TagsOk;
    var s := h.g.tiles[p].size;
    EvenNext(h.m, h.g, p);
    var m1 := WholeUsed(h.m, p, s);
    var m2 := UsedSplit(m1, p, n, s);
    var a := AloneFreed(m2, p + n, s - n);
    var b := SplitForUse(h.m, p, n, s);
    assert a.Keys == b.Keys;
    assert forall k :: k in a ==> a[k] == b[k];
  }

  lemma EvenNext(m: Memory, g: Row, p: int)
    requires TagsOk(m, g) && p in g.tiles && !g.tiles[p].used
    ensures End(g, p) + 4 in m && m[End(g, p) + 4] % 2 == 0
  {
    hide RowOk, Backed, Aligned;
    NextOf(m, g, p);
    TagsRow(m, g);
    Tag(m, g, End(g, p));
    HeadParity(g, End(g, p));
  }

  // ---------------------------------------------------------------- joining with free neighbours

  /** Chunk p joined with the held free chunk lo before it, both taken as one used chunk. */
  function BackJoined(h: Heap, lo: int, p: int): Heap
    requires lo in h.g.tiles && p in h.g.tiles && End(h.g, lo) == p && p + 4 in h.m
  {
    h.(m := h.m[p + 4 := WithBit(h.m[p + 4])][lo + 4 := h.g.tiles[lo].size + h.g.tiles[p].size + 3], g := Merged(h.g, lo, true))
  }

  lemma JoinBack(h: Heap, held: set<int>, lo: int, p: int)
    requires HeapOk(h, held) && lo in held && lo in h.g.tiles && p in h.g.tiles && End(h.g, lo) == p && h.g.tiles[p].used
    ensures p + 4 in h.m
    ensures var h' := BackJoined(h, lo, p);
      && HeapOk(h', held - {lo}) && Preserved(h.m, h'.m, h.g, h'.g, {p})
      && lo in h'.g.tiles && h'.g.tiles[lo].used && PrevUsed(h'.g, lo)
  {
    hide HeapOk, RowOk, Backed, Aligned, Tagged, Preserved, TagsOk;
    OpenHeap(h, held);
    var s := h.g.tiles[lo].size;
    BackPrev(h.m, h.g, lo, p);
    UseWhole(h, held, lo);
    var h1 := h.(m := WholeUsed(h.m, lo, s), g := Marked(h.g, lo, true));
    MergeUsed(h1, held - {lo}, lo);
    var h2 := h1.(m := UsedMerged(h1.m, lo, h.g.tiles[p].size), g := Merged(h1.g, lo, true));
    assert h2.g == Merged(h.g, lo, true);
    assert h2.m == BackJoined(h, lo, p).m;
    PreservedTrans(h.m, h1.m, h2.m, h.g, h1.g, h2.g, {}, {lo, p}, {p});
  }

  lemma BackPrev(m: Memory, g: Row, lo: int, p: int)
    requires TagsOk(m, g) && lo in g.tiles && !g.tiles[lo].used && p in g.tiles && End(g, lo) == p
    ensures PrevUsed(Merged(g, lo, true), lo) && p != lo
  {
    hide RowOk, Backed, Aligned;
    Tag(m, g, lo);
    Tag(m, g, p);
    if lo != g.base { Tag(m, g, g.prev[lo]); }
  }

  /** Used chunk p joined with the held free chunk q after it. */
  function ForwardJoined(h: Heap, p: int, q: int): Heap
    requires p in h.g.tiles && q in h.g.tiles && End(h.g, p) == q && End(h.g, q) + 4 in h.m && p + 4 in h.m
  {
    var e := End(h.g, q);
    h.(m := h.m[q + 4 := h.g.tiles[q].size + 3][e + 4 := WithBit(h.m[e + 4])][p + 4 := h.m[p + 4] + h.g.tiles[q].size],
       g := Merged(h.g, p, true))
  }

  lemma JoinForward(h: Heap, held: set<int>, p: int, q: int)
    requires HeapOk(h, held) && q in held && p in h.g.tiles && q in h.g.tiles && End(h.g, p) == q && h.g.tiles[p].used
    ensures p + 4 in h.m && End(h.g, q) + 4 in h.m
    ensures var h' := ForwardJoined(h, p, q);
      && HeapOk(h', held - {q}) && Preserved(h.m, h'.m, h.g, h'.g, {p})
      && p in h'.g.tiles && h'.g.tiles[p].used && (PrevUsed(h.g, p) ==> PrevUsed(h'.g, p))
      && End(h'.g, p) in h'.g.tiles && h'.g.tiles[End(h'.g, p)].used
      && (PrevUsed(h'.g, p) ==> PrevUsed(h.g, p))
  {
    hide HeapOk, RowOk, Backed, Aligned, Tagged, Preserved, TagsOk;
    OpenHeap(h, held);
    var s := h.g.tiles[q].size;
    ForwardPrev(h.m, h.g, p, q);
    UseWhole(h, held, q);
    var h1 := h.(m := WholeUsed(h.m, q, s), g := Marked(h.g, q, true));
    MergeUsed(h1, held - {q}, p);
    var h2 := h1.(m := UsedMerged(h1.m, p, s), g := Merged(h1.g, p, true));
    assert h2.g == Merged(h.g, p, true);
    assert h2.m == ForwardJoined(h, p, q).m;
    PreservedTrans(h.m, h1.m, h2.m, h.g, h1.g, h2.g, {}, {p, q}, {p});
  }

  lemma ForwardPrev(m: Memory, g: Row, p: int, q: int)
    requires TagsOk(m, g) && p in g.tiles && g.tiles[p].used && q in g.tiles && !g.tiles[q].used && End(g, p) == q
    ensures var g' := Merged(g, p, true);
      && p in g'.tiles && (PrevUsed(g, p) <==> PrevUsed(g', p)) && End(g', p) in g'.tiles && g'.tiles[End(g', p)].used
      && p != q && End(g, q) != q && End(g, q) != p && p + 4 in m && End(g, q) + 4 in m
  {
    hide RowOk, Backed, Aligned;
    Tag(m, g, p);
    Tag(m, g, q);
    NextUsed(m, g, q);
    Tag(m, g, End(g, q));
    if p != g.base { Tag(m, g, g.prev[p]); }
  }

  // ---------------------------------------------------------------- freeing

  /** set_size_and_pinuse_of_free_chunk(p, n) */
  function FreeTags(m: Memory, p: int, n: nat): Memory {
    m[p + 4 := n + 1][p + n := n]
  }

  /** Freed alone: set_free_with_pinuse. */
  lemma FreePlain(h: Heap, held: set<int>, p: int)
    requires HeapOk(h, held) && p in h.g.tiles && h.g.tiles[p].used && PrevUsed(h.g, p)
    requires End(h.g, p) in h.g.tiles && h.g.tiles[End(h.g, p)].used
    ensures End(h.g, p) + 4 in h.m
    ensures var n, q := h.g.tiles[p].size, End(h.g, p);
      var h' := h.(m := FreeTags(h.m[q + 4 := WithoutBit(h.m[q + 4])], p, n), g := Marked(h.g, p, false));
      HeapOk(h', held + {p}) && Preserved(h.m, h'.m, h.g, h'.g, {p})
  {
    hide HeapOk, Preserved;
    FreeAlone(h, held, p);
  }

  /** Freed together with the free chunk lo before it. */
  lemma FreeBack(h: Heap, held: set<int>, lo: int, p: int)
    requires HeapOk(h, held) && lo in held && lo in h.g.tiles && p in h.g.tiles && End(h.g, lo) == p && h.g.tiles[p].used
    requires End(h.g, p) in h.g.tiles && h.g.tiles[End(h.g, p)].used
    ensures End(h.g, p) + 4 in h.m
    ensures var n, q := h.g.tiles[lo].size + h.g.tiles[p].size, End(h.g, p);
      var h' := h.(m := FreeTags(h.m[q + 4 := WithoutBit(h.m[q + 4])], lo, n), g := Merged(h.g, lo, false));
      HeapOk(h', held) && Preserved(h.m, h'.m, h.g, h'.g, {p})
  {
    hide HeapOk, RowOk, Backed, Aligned, Tagged, Preserved, TagsOk, FreeTags, AloneFreed;
    OpenHeap(h, held);
    Seat(h.g, lo);
    Seat(h.g, p);
    JoinBack(h, held, lo, p);
    var h1 := BackJoined(h, lo, p);
    var n, q := h.g.tiles[lo].size + h.g.tiles[p].size, End(h.g, p);
    BackNext(h.m, h.g, lo, p);
    FreeAlone(h1, held - {lo}, lo);
    var h2 := h1.(m := AloneFreed(h1.m, lo, n), g := Marked(h1.g, lo, false));
    assert held - {lo} + {lo} == held;
    assert h2.g == Merged(h.g, lo, false);
    HeldUnbinned(h2, held, lo);
    BackStores(h.m, lo, h.g.tiles[lo].size, n);
    Scribble(h2, held, lo, p + 4, h.m[p + 4]);
    var h3 := h2.(m := h2.m[p + 4 := h.m[p + 4]]);
    PreservedTrans(h.m, h1.m, h2.m, h.g, h1.g, h2.g, {p}, {lo}, {p});
    PreservedTrans(h.m, h2.m, h3.m, h.g, h2.g, h3.g, {p}, {lo}, {p});
  }

  lemma HeldUnbinned(h: Heap, held: set<int>, p: int)
    requires HeapOk(h, held) && p in held
    ensures p in h.g.tiles && !h.g.tiles[p].used && p !in h.b.binned
  {
    hide TableOk, TagsOk;
    NotBinned(h, held, p);
  }

  lemma BackNext(m: Memory, g: Row, lo: int, p: int)
    requires TagsOk(m, g) && lo in g.tiles && !g.tiles[lo].used && p in g.tiles && End(g, lo) == p && End(g, p) in g.tiles && g.tiles[End(g, p)].used
    ensures var g' := Merged(g, lo, true); End(g', lo) in g'.tiles && g'.tiles[End(g', lo)].used && End(g', lo) == End(g, p)
    ensures End(g, p) != p && End(g, p) + 4 in m && p + 4 in m && End(g, p) != lo && lo + 8 <= p + 4 < End(g, p)
  {
    hide RowOk, Backed, Aligned;
    Tag(m, g, lo);
    Tag(m, g, p);
    Tag(m, g, End(g, p));
  }

  /** Freed together with the free chunk q after it. */
  lemma FreeForward(h: Heap, held: set<int>, p: int, q: int)
    requires HeapOk(h, held) && q in held && p in h.g.tiles && q in h.g.tiles && End(h.g, p) == q && h.g.tiles[p].used && PrevUsed(h.g, p)
    ensures var n := h.g.tiles[p].size + h.g.tiles[q].size;
      var h' := h.(m := FreeTags(h.m, p, n), g := Merged(h.g, p, false));
      HeapOk(h', held - {q} + {p}) && Preserved(h.m, h'.m, h.g, h'.g, {p})
  {
    hide HeapOk, RowOk, Backed, Aligned, Tagged, Preserved, TagsOk, FreeTags, AloneFreed;
    OpenHeap(h, held);
    Seat(h.g, p);
    Seat(h.g, q);
    JoinForward(h, held, p, q);
    var h1 := ForwardJoined(h, p, q);
    var n := h.g.tiles[p].size + h.g.tiles[q].size;
    FreeAlone(h1, held - {q}, p);
    var h2 := h1.(m := AloneFreed(h1.m, p, n), g := Marked(h1.g, p, false));
    assert h2.g == Merged(h.g, p, false);
    HeldUnbinned(h2, held - {q} + {p}, p);
    ForwardWords(h.m, h.g, p, q);
    ForwardStores(h.m, p, h.g.tiles[p].size, h.g.tiles[q].size);
    Scribble(h2, held - {q} + {p}, p, q + 4, h.m[q + 4]);
    var h3 := h2.(m := h2.m[q + 4 := h.m[q + 4]]);
    PreservedTrans(h.m, h1.m, h2.m, h.g, h1.g, h2.g, {p}, {p}, {p});
    PreservedTrans(h.m, h2.m, h3.m, h.g, h2.g, h3.g, {p}, {p}, {p});
  }

  /** The stores of FreeForward, the head in the middle put back as it was. */
  lemma ForwardStores(m: Memory, p: int, s: nat, t: nat)
    requires s >= 8 && t >= 8 && p + 4 in m && p + s + 4 in m && p + s + t + 4 in m && m[p + s + t + 4] % 2 == 0
    ensures var q, e := p + s, p + s + t;
      var m1 := m[q + 4 := t + 3][e + 4 := WithBit(m[e + 4])][p + 4 := m[p + 4] + t];
      q + 4 in AloneFreed(m1, p, s + t) && AloneFreed(m1, p, s + t)[q + 4 := m[q + 4]] == FreeTags(m, p, s + t)
  {}

  lemma BackStores(m: Memory, lo: int, s: nat, n: nat)
    requires 8 <= s && s + 8 <= n && lo + s + 4 in m && lo + n + 4 in m
    ensures var p, q := lo + s, lo + n;
      var m1 := m[p + 4 := WithBit(m[p + 4])][lo + 4 := n + 3];
      p + 4 in AloneFreed(m1, lo, n) && AloneFreed(m1, lo, n)[p + 4 := m[p + 4]] == FreeTags(m[q + 4 := WithoutBit(m[q + 4])], lo, n)
  {}

  lemma BothStores(m: Memory, lo: int, s: nat, t: nat, n: nat)
    requires 8 <= s && s + t + 8 <= n && lo + s + 4 in m
    ensures var p := lo + s;
      var m1 := m[p + 4 := WithBit(m[p + 4])][lo + 4 := s + t + 3];
      p + 4 in FreeTags(m1, lo, n) && FreeTags(m1, lo, n)[p + 4 := m[p + 4]] == FreeTags(m, lo, n)
  {}

  lemma ForwardWords(m: Memory, g: Row, p: int, q: int)
    requires TagsOk(m, g) && p in g.tiles && q in g.tiles && !g.tiles[q].used && End(g, p) == q
    ensures q + 4 in m && p + 8 <= q + 4 < End(g, q) && End(g, q) + 4 in m && m[End(g, q) + 4] % 2 == 0
    ensures q != p && End(g, q) != p && End(g, q) != q && p + 4 in m
  {
    hide RowOk, Backed, Aligned;
    Tag(m, g, p);
    Tag(m, g, q);
    EvenNext(m, g, q);
  }

  /** Freed together with the free chunks lo before it and q after it. */
  lemma FreeBoth(h: Heap, held: set<int>, lo: int, p: int, q: int)
    requires HeapOk(h, held) && lo in held && q in held && lo != q && lo in h.g.tiles && p in h.g.tiles && q in h.g.tiles
    requires End(h.g, lo) == p && End(h.g, p) == q && h.g.tiles[p].used
    ensures q in Merged(h.g, lo, true).tiles
    ensures var n := h.g.tiles[lo].size + h.g.tiles[p].size + h.g.tiles[q].size;
      var h' := h.(m := FreeTags(h.m, lo, n), g := Merged(Merged(h.g, lo, true), lo, false));
      HeapOk(h', held - {q}) && Preserved(h.m, h'.m, h.g, h'.g, {p})
  {
    hide HeapOk, RowOk, Backed, Aligned, Tagged, Preserved, TagsOk, FreeTags;
    OpenHeap(h, held);
    Seat(h.g, lo);
    Seat(h.g, q);
    ForwardWords(h.m, h.g, p, q);
    BothWords(h.m, h.g, lo, p, q);
    JoinBack(h, held, lo, p);
    var h1 := BackJoined(h, lo, p);
    var n := h.g.tiles[lo].size + h.g.tiles[p].size + h.g.tiles[q].size;
    FreeForward(h1, held - {lo}, lo, q);
    var h2 := h1.(m := FreeTags(h1.m, lo, n), g := Merged(h1.g, lo, false));
    assert held - {lo} - {q} + {lo} == held - {q};
    HeldUnbinned(h2, held - {q}, lo);
    BothStores(h.m, lo, h.g.tiles[lo].size, h.g.tiles[p].size, n);
    Scribble(h2, held - {q}, lo, p + 4, h.m[p + 4]);
    var h3 := h2.(m := h2.m[p + 4 := h.m[p + 4]]);
    PreservedTrans(h.m, h1.m, h2.m, h.g, h1.g, h2.g, {p}, {lo}, {p});
    PreservedTrans(h.m, h2.m, h3.m, h.g, h2.g, h3.g, {p}, {lo}, {p});
  }

  lemma BothWords(m: Memory, g: Row, lo: int, p: int, q: int)
    requires TagsOk(m, g) && lo in g.tiles && p in g.tiles && q in g.tiles && End(g, lo) == p && End(g, p) == q && !g.tiles[q].used
    ensures p + 4 in m && lo + 8 <= p + 4 < q && p != lo && lo != q && lo + g.tiles[lo].size + g.tiles[p].size + g.tiles[q].size == End(g, q)
    ensures End(g, q) != p + 4 && p + 4 < End(g, q)
  {
    hide RowOk, Backed, Aligned;
    Tag(m, g, lo);
    Tag(m, g, p);
    Tag(m, g, q);
  }

  /** Freed into top, together with the free chunk lo before it. */
  lemma FreeBackTop(h: Heap, held: set<int>, lo: int, p: int)
    requires HeapOk(h, held) && lo in held && lo in h.g.tiles && p in h.g.tiles && End(h.g, lo) == p && h.g.tiles[p].used
    requires End(h.g, p) == h.g.top
    ensures var n := h.g.topsize + h.g.tiles[lo].size + h.g.tiles[p].size;
      var h' := h.(m := TopFed(h.m, lo, n), g := TopGiven(Merged(h.g, lo, true), lo));
      HeapOk(h', held - {lo}) && Preserved(h.m, h'.m, h.g, h'.g, {p})
  {
    hide HeapOk, RowOk, Backed, Aligned, Tagged, Preserved, TagsOk;
    OpenHeap(h, held);
    JoinBack(h, held, lo, p);
    var h1 := BackJoined(h, lo, p);
    var n := h.g.topsize + h.g.tiles[lo].size + h.g.tiles[p].size;
    GiveTop(h1, held - {lo}, lo);
    var h2 := h1.(m := TopFed(h1.m, lo, n), g := TopGiven(h1.g, lo));
    TopWords(h.m, h.g, lo, p);
    ScribbleTop(h2, held - {lo}, p + 4, h.m[p + 4]);
    var h3 := h2.(m := h2.m[p + 4 := h.m[p + 4]]);
    assert h3.m == TopFed(h.m, lo, n);
    PreservedTrans(h.m, h1.m, h2.m, h.g, h1.g, h2.g, {p}, {lo}, {p});
    PreservedTrans(h.m, h2.m, h3.m, h.g, h2.g, h3.g, {p}, {}, {p});
  }

  lemma TopWords(m: Memory, g: Row, lo: int, p: int)
    requires TagsOk(m, g) && lo in g.tiles && p in g.tiles && End(g, lo) == p && End(g, p) == g.top
    ensures p + 4 in m && lo + 8 <= p + 4 && p + 4 < g.top + g.topsize + 4 && p != lo
  {
    hide RowOk, Backed, Aligned;
    Tag(m, g, lo);
    Tag(m, g, p);
    RowFrame(g);
  }
}

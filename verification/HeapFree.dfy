/**
 * Giving a chunk back: the chunk in use, the free chunk before it and what follows it
 * become one free chunk, or part of top.  Which chunks are in use is tracked exactly.
 */
module HeapFree {
  import opened Arithmetic
  import opened SizeClass
  import opened ChunkMemory
  import opened BinStores
  import opened Tiling
  import opened Tags
  import opened HeapState
  import opened HeapSteps
  import opened HeapMoves

  /** The chunks in use. */
  ghost function Live(g: Row): set<int> {
    set p | p in g.tiles && g.tiles[p].used
  }

  /** Same segment: the row starts and ends where it did. */
  ghost predicate SameSpan(g: Row, g': Row) {
    g'.base == g.base && g'.top + g'.topsize == g.top + g.topsize
  }

  /** Chunk q, in use, is being freed; lo is q itself or the free chunk before it, in hand. */
  ghost predicate Freeing(h: Heap, held: set<int>, lo: int, q: int) {
    && HeapOk(h, held)
    && q in h.g.tiles && h.g.tiles[q].used && lo in h.g.tiles
    && (if lo == q then PrevUsed(h.g, q) else lo in held && End(h.g, lo) == q)
  }

  /** h' is h with q no longer in use and free chunk lo of size n in hand. */
  ghost predicate FreedTo(h: Heap, h': Heap, lo: int, q: int, n: nat) {
    && HeapOk(h', {lo}) && Preserved(h.m, h'.m, h.g, h'.g, {q})
    && SameSpan(h.g, h'.g) && Live(h'.g) == Live(h.g) - {q}
    && lo in h'.g.tiles && h'.g.tiles[lo] == Tile(n, false)
    && h'.b == h.b && h'.dv == h.dv && h'.dvsize == h.dvsize && h'.g.top == h.g.top
  }

  /** h' is h with q freed and nothing in hand. */
  ghost predicate Disposed(h: Heap, h': Heap, q: int) {
    && HeapOk(h', {}) && Preserved(h.m, h'.m, h.g, h'.g, {q})
    && SameSpan(h.g, h'.g) && Live(h'.g) == Live(h.g) - {q}
  }

  lemma FreeNextUsed(h: Heap, lo: int, q: int)
    requires Freeing(h, if lo == q then {} else {lo}, lo, q)
    requires End(h.g, q) in h.g.tiles && h.g.tiles[End(h.g, q)].used
    ensures End(h.g, q) + 4 in h.m && lo + MIN_CHUNK_SIZE <= End(h.g, q)
    ensures var nx := End(h.g, q);
      var h' := h.(m := FreeTags(h.m[nx + 4 := WithoutBit(h.m[nx + 4])], lo, nx - lo),
                   g := if lo == q then Marked(h.g, q, false) else Merged(h.g, lo, false));
      FreedTo(h, h', lo, q, nx - lo)
  {
    hide HeapOk, RowOk, Preserved;
    OpenHeap(h, if lo == q then {} else {lo});
    Seat(h.g, lo);
    Seat(h.g, q);
    if lo == q {
      FreePlain(h, {}, q);
      assert {} + {q} == {q};
    } else {
      FreeBack(h, {lo}, lo, q);
      assert lo + h.g.tiles[lo].size + h.g.tiles[q].size == End(h.g, q);
    }
  }

  lemma FreeNextFree(h: Heap, lo: int, q: int, nx: int)
    requires Freeing(h, if lo == q then {nx} else {lo, nx}, lo, q) && End(h.g, q) == nx && nx in h.g.tiles && lo != nx
    ensures lo + MIN_CHUNK_SIZE <= End(h.g, nx)
    ensures lo != q ==> nx in Merged(h.g, lo, true).tiles
    ensures var n := End(h.g, nx) - lo;
      var h' := h.(m := FreeTags(h.m, lo, n),
                   g := if lo == q then Merged(h.g, q, false) else Merged(Merged(h.g, lo, true), lo, false));
      FreedTo(h, h', lo, q, n)
  {
    hide HeapOk, RowOk, Preserved;
    OpenHeap(h, if lo == q then {nx} else {lo, nx});
    Seat(h.g, lo);
    Seat(h.g, q);
    Seat(h.g, nx);
    if lo == q {
      FreeForward(h, {nx}, q, nx);
      assert {nx} - {nx} + {q} == {q};
    } else {
      FreeBoth(h, {lo, nx}, lo, q, nx);
      assert {lo, nx} - {nx} == {lo};
    }
  }

  /** Freed into top. */
  lemma FreeNextTop(h: Heap, lo: int, q: int)
    requires Freeing(h, if lo == q then {} else {lo}, lo, q) && End(h.g, q) == h.g.top
    ensures lo < h.g.top
    ensures var n := h.g.topsize + h.g.top - lo;
      var h' := h.(m := TopFed(h.m, lo, n), g := if lo == q then TopGiven(h.g, q) else TopGiven(Merged(h.g, lo, true), lo));
      && HeapOk(h', {}) && Preserved(h.m, h'.m, h.g, h'.g, {q})
      && SameSpan(h.g, h'.g) && Live(h'.g) == Live(h.g) - {q} && h'.g.top == lo && h'.g.topsize == n
  {
    hide HeapOk, RowOk, Preserved;
    OpenHeap(h, if lo == q then {} else {lo});
    Seat(h.g, lo);
    Seat(h.g, q);
    if lo == q {
      GiveTop(h, {}, q);
    } else {
      FreeBackTop(h, {lo}, lo, q);
      assert {lo} - {lo} == {};
    }
  }

  // ---------------------------------------------------------------- what the neighbours' tags tell

  /** The chunk before p is free: its foot gives its size. */
  lemma PrevRead(h: Heap, p: int)
    requires HeapOk(h, {}) && p in h.g.tiles && h.g.tiles[p].used
    ensures p + 4 in h.m && (h.m[p + 4] % 2 == 1 <==> PrevUsed(h.g, p))
    ensures HeadSize(h.m[p + 4]) == h.g.tiles[p].size >= MIN_CHUNK_SIZE
    ensures !PrevUsed(h.g, p) ==>
      && p in h.m && h.m[p] >= MIN_CHUNK_SIZE
      && var lo := p - h.m[p];
      && lo in h.g.tiles && h.g.tiles[lo] == Tile(h.m[p], false) && End(h.g, lo) == p && lo != p
      && (if lo == h.dv then h.dvsize == h.m[p] else lo in h.b.binned && h.b.binned[lo] == h.m[p])
  {
    hide RowOk, Backed, Aligned, TableOk;
    Tag(h.m, h.g, p);
    HeadParity(h.g, p);
    if !PrevUsed(h.g, p) {
      var lo := h.g.prev[p];
      Tag(h.m, h.g, lo);
      FreeRole(h, {}, lo);
    }
  }

  /** A free chunk is the victim or in the bin of its size. */
  lemma FreeRole(h: Heap, held: set<int>, p: int)
    requires HeapOk(h, held) && p in h.g.tiles && !h.g.tiles[p].used && p !in held
    ensures if p == h.dv then h.dvsize == h.g.tiles[p].size else p in h.b.binned && h.b.binned[p] == h.g.tiles[p].size
  {
    hide TableOk, TagsOk;
    RolesHeap(h, held);
    assert p in h.g.tiles;
    if p in h.b.binned { assert Binned(h, p); }
  }

  /** What follows chunk p: top, or a chunk in use, or the victim, or a binned chunk. */
  lemma NextRead(h: Heap, held: set<int>, p: int)
    requires HeapOk(h, held) && p in h.g.tiles && h.g.tiles[p].used && End(h.g, p) !in held
    ensures var nx := End(h.g, p);
      && nx + 4 in h.m && h.m[nx + 4] % 2 == 1
      && (nx == h.g.top ==> nx !in h.g.tiles && h.m[nx + 4] / 2 % 2 == 0 && nx != h.dv)
      && (nx != h.g.top ==>
            && nx in h.g.tiles && (h.m[nx + 4] / 2 % 2 == 1 <==> h.g.tiles[nx].used)
            && HeadSize(h.m[nx + 4]) == h.g.tiles[nx].size
            && (!h.g.tiles[nx].used ==> if nx == h.dv then h.dvsize == h.g.tiles[nx].size
                                        else nx in h.b.binned && h.b.binned[nx] == h.g.tiles[nx].size)
            && (nx == h.dv ==> !h.g.tiles[nx].used && h.dvsize == h.g.tiles[nx].size))
  {
    hide RowOk, Backed, TableOk, TagsOk, Tagged, HeapOk, Seated, HeadSize;
    OpenHeap(h, held);
    NextOf(h.m, h.g, p);
    DvTile(h, held);
    var nx := End(h.g, p);
    if nx == h.g.top {
      TopRead(h.m, h.g);
    } else {
      HeadRead(h.m, h.g, nx);
      if !h.g.tiles[nx].used { FreeRole(h, held, nx); }
    }
  }

  lemma TopRead(m: Memory, g: Row)
    requires TagsOk(m, g)
    ensures g.top !in g.tiles && g.top + 4 in m && m[g.top + 4] % 2 == 1 && m[g.top + 4] / 2 % 2 == 0
  {
    hide Backed, Tagged, Seated;
    RowFrame(g);
    TopWord(g.topsize);
  }

  lemma TopWord(t: int)
    requires Worded(t)
    ensures (t + 1) % 2 == 1 && (t + 1) / 2 % 2 == 0
  {
    assert t + 1 == (2 * (t / 4)) * 2 + 1;
    DivUnique(t + 1, 2 * (t / 4), 2, 1);
    Multiple(t / 4, 2);
  }

  lemma HeadRead(m: Memory, g: Row, p: int)
    requires TagsOk(m, g) && p in g.tiles
    ensures p + 4 in m && m[p + 4] % 2 == (if PrevUsed(g, p) then 1 else 0)
    ensures HeadSize(m[p + 4]) == g.tiles[p].size && m[p + 4] / 2 % 2 == (if g.tiles[p].used then 1 else 0)
  {
    hide RowOk, Backed, HeadSize, Seated, Aligned;
    Tag(m, g, p);
    HeadParity(g, p);
  }

  lemma DvTile(h: Heap, held: set<int>)
    requires HeapOk(h, held)
    ensures if h.dv == 0 then h.dvsize == 0 else h.dv in h.g.tiles && h.g.tiles[h.dv] == Tile(h.dvsize, false) && h.dvsize > 0
    ensures 0 !in h.g.tiles && h.g.top != 0
  {
    hide TableOk, Tagged, Backed;
    RolesHeap(h, held);
    RowFrame(h.g);
  }

  /** The end of a chunk lies past it, and past a chunk before it. */
  lemma Ahead(h: Heap, held: set<int>, lo: int, q: int)
    requires Freeing(h, held, lo, q)
    ensures lo <= q < End(h.g, q) && lo != 0
  {
    hide TableOk, RowOk;
    OpenHeap(h, held);
    RolesHeap(h, held);
    Seat(h.g, lo);
    Seat(h.g, q);
  }
}

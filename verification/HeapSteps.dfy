/**
 * The elementary steps that the heap operations are made of, each with its effect on
 * tags, bins and clients' words: using a held free chunk, freeing a used one, joining
 * and cutting used chunks, and moving the border of top.
 */
module HeapSteps {
  import opened Arithmetic
  import opened SizeClass
  import opened ChunkMemory
  import opened BinStores
  import opened Tiling
  import opened Tags
  import opened HeapState

  /** Two words stored between head and foot of unbinned chunks t and u. */
  lemma TwoStores(h: Heap, held: set<int>, t: int, a: int, v: int, u: int, c: int, w: int)
    requires HeapOk(h, held) && Inside(h.g, t, a) && Inside(h.g, u, c) && t !in h.b.binned && u !in h.b.binned
    ensures TableOk(h.m[a := v], h.smallmap, h.treemap, h.b)
    ensures TableOk(h.m[a := v][c := w], h.smallmap, h.treemap, h.b)
    ensures !Watched(h.b.binned, a) && !Watched(h.b.binned, c)
  {
    hide TableOk, TagsOk, Roles, Watched;
    StoreUnwatched(h, held, t, a);
    StoreUnwatched(h, held, u, c);
    TableStore(h.m, h.smallmap, h.treemap, h.b, a, v);
    TableStore(h.m[a := v], h.smallmap, h.treemap, h.b, c, w);
  }

  /** A chunk that is used, held or the victim is not binned. */
  lemma NotBinned(h: Heap, held: set<int>, p: int)
    requires HeapOk(h, held) && p in h.g.tiles
    requires h.g.tiles[p].used || p in held || p == h.dv
    ensures p !in h.b.binned
  {
    hide TableOk, TagsOk;
    forall c | c in h.b.binned ensures c != p { assert Binned(h, c); }
  }

  /** Only the row changes around chunks that keep their tiles: roles carry over. */
  lemma KeepRoles(h: Heap, held: set<int>, m': Memory, g': Row, held': set<int>)
    requires Roles(h, held)
    requires forall p :: p in h.g.tiles && !h.g.tiles[p].used && p !in held ==> p in g'.tiles && g'.tiles[p] == h.g.tiles[p]
    requires forall p :: p in g'.tiles && !g'.tiles[p].used && p !in held' ==> p in h.g.tiles && !h.g.tiles[p].used && p !in held
    requires forall p :: p in held' ==> p in g'.tiles && !g'.tiles[p].used && (p in held || p !in h.g.tiles || h.g.tiles[p].used)
    ensures Roles(h.(m := m', g := g'), held')
  {
    var h' := h.(m := m', g := g');
    forall c | c in h.b.binned ensures Binned(h', c) && c != h.dv && c !in held' { assert Binned(h, c); }
  }

  // ---------------------------------------------------------------- using a held chunk

  lemma UseWhole(h: Heap, held: set<int>, p: int)
    requires HeapOk(h, held) && p in held && p in h.g.tiles
    ensures p + h.g.tiles[p].size + 4 in h.m && h.g.tiles[p].size >= MIN_CHUNK_SIZE
    ensures var h' := h.(m := WholeUsed(h.m, p, h.g.tiles[p].size), g := Marked(h.g, p, true));
      HeapOk(h', held - {p}) && Preserved(h.m, h'.m, h.g, h'.g, {})
  {
    hide TableOk, RowOk, Backed, Aligned, Tagged;
    var s, q := h.g.tiles[p].size, End(h.g, p);
    NextOf(h.m, h.g, p);
    TagsRow(h.m, h.g);
    Seat(h.g, p);
    UseWholeTags(h.m, h.g, p);
    NextUsed(h.m, h.g, p);
    NotBinned(h, held, p);
    NotBinned(h, held, q);
    InsideHead(h.m, h.g, p);
    InsideHead(h.m, h.g, q);
    TwoStores(h, held, p, p + 4, s + 3, q, q + 4, WithBit(h.m[q + 4]));
    var m', g' := WholeUsed(h.m, p, s), Marked(h.g, p, true);
    KeepRoles(h, held, m', g', held - {p});
    forall r | r in h.g.tiles && h.g.tiles[r].used ensures BlockKept(h.m, m', h.g, g', r) {
      TagsRow(h.m, h.g);
      StoreApart(h.g, p, p + 4, r);
      if r != q { StoreApart(h.g, q, q + 4, r); }
    }
  }

  lemma TagsRow(m: Memory, g: Row)
    requires TagsOk(m, g)
    ensures RowOk(g)
  {}

  lemma InsideHead(m: Memory, g: Row, p: int)
    requires TagsOk(m, g) && p in g.tiles
    ensures Inside(g, p, p + 4) && Inside(g, p, End(g, p))
  {
    hide RowOk;
    TagsRow(m, g);
    Seat(g, p);
  }

  lemma NextUsed(m: Memory, g: Row, p: int)
    requires TagsOk(m, g) && p in g.tiles && !g.tiles[p].used
    ensures End(g, p) in g.tiles && g.tiles[End(g, p)].used && p != End(g, p)
  {
    hide RowOk, Backed;
    NextOf(m, g, p);
  }

  // ---------------------------------------------------------------- freeing a used chunk between used chunks

  lemma FreeAlone(h: Heap, held: set<int>, p: int)
    requires HeapOk(h, held) && p in h.g.tiles && h.g.tiles[p].used && PrevUsed(h.g, p)
    requires End(h.g, p) in h.g.tiles && h.g.tiles[End(h.g, p)].used
    ensures p + h.g.tiles[p].size + 4 in h.m
    ensures var h' := h.(m := AloneFreed(h.m, p, h.g.tiles[p].size), g := Marked(h.g, p, false));
      HeapOk(h', held + {p}) && Preserved(h.m, h'.m, h.g, h'.g, {p})
  {
    hide TableOk, RowOk, Backed, Aligned, Tagged;
    var s, q := h.g.tiles[p].size, End(h.g, p);
    TopNot(h.m, h.g, q);
    FreeAloneTags(h.m, h.g, p);
    NotBinned(h, held, p);
    NotBinned(h, held, q);
    InsideHead(h.m, h.g, p);
    InsideHead(h.m, h.g, q);
    TwoStores(h, held, q, q + 4, WithoutBit(h.m[q + 4]), p, p + 4, s + 1);
    StoreUnwatched(h, held, p, q);
    TableStore(h.m[q + 4 := WithoutBit(h.m[q + 4])][p + 4 := s + 1], h.smallmap, h.treemap, h.b, q, s);
    UsedNotHeld(h, held, p);
    var m', g' := AloneFreed(h.m, p, s), Marked(h.g, p, false);
    KeepRoles(h, held, m', g', held + {p});
    forall r | r in h.g.tiles && h.g.tiles[r].used && r != p ensures BlockKept(h.m, m', h.g, g', r) {
      TagsRow(h.m, h.g);
      StoreApart(h.g, p, p + 4, r);
      StoreApart(h.g, p, q, r);
      if r != q { StoreApart(h.g, q, q + 4, r); }
    }
  }

  lemma TopNot(m: Memory, g: Row, q: int)
    requires TagsOk(m, g) && q in g.tiles
    ensures q != g.top
  {
    hide Tagged, Backed;
    RowFrame(g);
  }

  lemma UsedNotHeld(h: Heap, held: set<int>, p: int)
    requires HeapOk(h, held) && p in h.g.tiles && h.g.tiles[p].used
    ensures p !in held && p != h.dv && p !in h.b.binned
  {
    hide TableOk, TagsOk;
    RolesHeap(h, held);
    forall c | c in h.b.binned ensures c != p { assert Binned(h, c); }
  }

  // ---------------------------------------------------------------- joining and cutting used chunks

  lemma MergeUsed(h: Heap, held: set<int>, p: int)
    requires HeapOk(h, held) && p in h.g.tiles && h.g.tiles[p].used
    requires End(h.g, p) in h.g.tiles && h.g.tiles[End(h.g, p)].used
    ensures p + 4 in h.m
    ensures var h' := h.(m := UsedMerged(h.m, p, h.g.tiles[End(h.g, p)].size), g := Merged(h.g, p, true));
      HeapOk(h', held) && Preserved(h.m, h'.m, h.g, h'.g, {p, End(h.g, p)})
  {
    hide TableOk, RowOk, Backed, Aligned, Tagged;
    var q := End(h.g, p);
    MergeUsedTags(h.m, h.g, p);
    NotBinned(h, held, p);
    InsideHead(h.m, h.g, p);
    StoreUnwatched(h, held, p, p + 4);
    TableStore(h.m, h.smallmap, h.treemap, h.b, p + 4, h.m[p + 4] + h.g.tiles[q].size);
    UsedNotHeld(h, held, p);
    UsedNotHeld(h, held, q);
    var m', g' := UsedMerged(h.m, p, h.g.tiles[q].size), Merged(h.g, p, true);
    KeepRoles(h, held, m', g', held);
    forall r | r in h.g.tiles && h.g.tiles[r].used && r != p && r != q ensures BlockKept(h.m, m', h.g, g', r) {
      TagsRow(h.m, h.g);
      StoreApart(h.g, p, p + 4, r);
    }
  }

  lemma SplitUsed(h: Heap, held: set<int>, p: int, n: nat)
    requires HeapOk(h, held) && CanSplit(h.g, p, n) && h.g.tiles[p].used
    ensures p + 4 in h.m
    ensures var h' := h.(m := UsedSplit(h.m, p, n, h.g.tiles[p].size), g := Split(h.g, p, n, true, true));
      HeapOk(h', held) && Preserved(h.m, h'.m, h.g, h'.g, {p})
    ensures p + n !in h.g.tiles
  {
    hide TableOk, RowOk, Backed, Aligned, Tagged;
    var s := h.g.tiles[p].size;
    SplitUsedTags(h.m, h.g, p, n);
    SplitNew(h.g, p, n, true, true);
    NotBinned(h, held, p);
    InsideHead(h.m, h.g, p);
    TwoStores(h, held, p, p + 4, h.m[p + 4] - (s - n), p, p + n + 4, s - n + 3);
    UsedNotHeld(h, held, p);
    var m', g' := UsedSplit(h.m, p, n, s), Split(h.g, p, n, true, true);
    KeepRoles(h, held, m', g', held);
    forall r | r in h.g.tiles && h.g.tiles[r].used && r != p ensures BlockKept(h.m, m', h.g, g', r) {
      TagsRow(h.m, h.g);
      StoreApart(h.g, p, p + 4, r);
      StoreApart(h.g, p, p + n + 4, r);
    }
  }

  // ---------------------------------------------------------------- top

  lemma TakeTop(h: Heap, held: set<int>, n: nat)
    requires HeapOk(h, held) && CanTake(h.g, n)
    ensures var h' := h.(m := TopCut(h.m, h.g.top, h.g.topsize, n), g := TopTaken(h.g, n));
      HeapOk(h', held) && Preserved(h.m, h'.m, h.g, h'.g, {})
    ensures h.g.top !in h.g.tiles
  {
    hide TableOk, RowOk, Backed, Aligned, Tagged;
    var top, topsize := h.g.top, h.g.topsize;
    TakeTopTags(h.m, h.g, n);
    RowFrame(h.g);
    StoreTop(h, held, top + n + 4, topsize - n + 1);
    StoreTop(h, held, top + 4, n + 3);
    TableStore(h.m, h.smallmap, h.treemap, h.b, top + n + 4, topsize - n + 1);
    TableStore(h.m[top + n + 4 := topsize - n + 1], h.smallmap, h.treemap, h.b, top + 4, n + 3);
    var m', g' := TopCut(h.m, top, topsize, n), TopTaken(h.g, n);
    KeepRoles(h, held, m', g', held);
    forall r | r in h.g.tiles && h.g.tiles[r].used ensures BlockKept(h.m, m', h.g, g', r) {
      TagsRow(h.m, h.g);
      Seat(h.g, r);
    }
  }

  lemma GiveTop(h: Heap, held: set<int>, p: int)
    requires HeapOk(h, held) && p in h.g.tiles && h.g.tiles[p].used && PrevUsed(h.g, p) && End(h.g, p) == h.g.top
    ensures var h' := h.(m := TopFed(h.m, p, h.g.topsize + h.g.tiles[p].size), g := TopGiven(h.g, p));
      HeapOk(h', held) && Preserved(h.m, h'.m, h.g, h'.g, {p})
  {
    hide TableOk, RowOk, Backed, Aligned, Tagged;
    GiveTopTags(h.m, h.g, p);
    NotBinned(h, held, p);
    InsideHead(h.m, h.g, p);
    StoreUnwatched(h, held, p, p + 4);
    TableStore(h.m, h.smallmap, h.treemap, h.b, p + 4, h.g.topsize + h.g.tiles[p].size + 1);
    UsedNotHeld(h, held, p);
    var m', g' := TopFed(h.m, p, h.g.topsize + h.g.tiles[p].size), TopGiven(h.g, p);
    KeepRoles(h, held, m', g', held);
    forall r | r in h.g.tiles && h.g.tiles[r].used && r != p ensures BlockKept(h.m, m', h.g, g', r) {
      TagsRow(h.m, h.g);
      StoreApart(h.g, p, p + 4, r);
    }
  }
}

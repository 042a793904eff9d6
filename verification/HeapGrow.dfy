/**
 * Growing a chunk in use: over the free chunk after it, or into top.
 */
module HeapGrow {
  import opened Arithmetic
  import opened SizeClass
  import opened ChunkMemory
  import opened BinStores
  import opened Tiling
  import opened Tags
  import opened HeapState
  import opened HeapSteps
  import opened HeapMoves
  import opened HeapFree

  /** set_inuse(p, s) */
  function InuseSet(m: Memory, p: int, s: int): Memory
    requires p + 4 in m && p + s + 4 in m && s != 0
  {
    var m1 := m[p + 4 := m[p + 4] % 2 + s + 2];
    m1[p + s + 4 := WithBit(m1[p + s + 4])]
  }

  /** h' is h with chunk p, in use before and after, now of size n and its words kept. */
  ghost predicate Regrown(h: Heap, h': Heap, p: int, n: nat) {
    && Preserved(h.m, h'.m, h.g, h'.g, {p}) && SameSpan(h.g, h'.g)
    && p in h.g.tiles && p in h'.g.tiles && h'.g.tiles[p] == Tile(n, true)
    && SameBlock(h.m, h'.m, p, if n < h.g.tiles[p].size then n else h.g.tiles[p].size)
  }

  lemma RegrownTrans(h: Heap, h1: Heap, h2: Heap, p: int, n: nat, k: nat)
    requires Regrown(h, h1, p, n) && Regrown(h1, h2, p, k) && (h.g.tiles[p].size <= n || k <= n)
    ensures Regrown(h, h2, p, k)
  {
    hide BlockKept;
    PreservedTrans(h.m, h1.m, h2.m, h.g, h1.g, h2.g, {p}, {p}, {p});
  }

  // ---------------------------------------------------------------- over the next free chunk

  ghost predicate Absorbs(h: Heap, held: set<int>, p: int, q: int) {
    && p in h.g.tiles && q in h.g.tiles && End(h.g, p) == q
    && var n := h.g.tiles[p].size + h.g.tiles[q].size;
    && n > 0 && p + 4 in h.m && p + n + 4 in h.m
    && var h' := h.(m := InuseSet(h.m, p, n), g := Merged(h.g, p, true));
    && HeapOk(h', held - {q}) && Regrown(h, h', p, n) && Live(h'.g) == Live(h.g)
    && p + n in h'.g.tiles && h'.g.tiles[p + n].used
  }

  /** set_inuse(p, s + t): chunk p of size s takes in the chunk of size t in hand after it. */
  lemma Absorb(h: Heap, held: set<int>, p: int, q: int)
    requires HeapOk(h, held) && q in held && p in h.g.tiles && q in h.g.tiles && End(h.g, p) == q && h.g.tiles[p].used
    ensures Absorbs(h, held, p, q)
  {
    hide HeapOk, RowOk, Backed, Aligned, Tagged, Preserved, TagsOk;
    OpenHeap(h, held);
    Seat(h.g, p);
    Seat(h.g, q);
    var n := h.g.tiles[p].size + h.g.tiles[q].size;
    JoinForward(h, held, p, q);
    var h1 := ForwardJoined(h, p, q);
    ForwardWords(h.m, h.g, p, q);
    UsedNotHeld(h1, held - {q}, p);
    Scribble(h1, held - {q}, p, q + 4, h.m[q + 4]);
    var h2 := h1.(m := h1.m[q + 4 := h.m[q + 4]]);
    HeadTells(h.m, h.g, p);
    assert h2.m == InuseSet(h.m, p, n);
    PreservedTrans(h.m, h1.m, h2.m, h.g, h1.g, h2.g, {p}, {p}, {p});
    assert SameBlock(h.m, h2.m, p, h.g.tiles[p].size);
  }

  lemma HeadTells(m: Memory, g: Row, p: int)
    requires TagsOk(m, g) && p in g.tiles
    ensures p + 4 in m && m[p + 4] == m[p + 4] % 2 + g.tiles[p].size + (if g.tiles[p].used then 2 else 0)
    ensures m[p + 4] % 2 == (if PrevUsed(g, p) then 1 else 0)
  {
    hide RowOk, Backed, Aligned;
    Tag(m, g, p);
    HeadParity(g, p);
  }

  ghost predicate Cuts(h: Heap, held: set<int>, p: int, n: nat) {
    && p in h.g.tiles && 0 < n < h.g.tiles[p].size
    && var s := h.g.tiles[p].size;
    && p + 4 in h.m && p + n + 4 in h.m && p + s + 4 in h.m
    && var h' := h.(m := InuseSet(InuseSet(h.m, p, n), p + n, s - n), g := Split(h.g, p, n, true, true));
    && HeapOk(h', held) && Regrown(h, h', p, n) && Live(h'.g) == Live(h.g) + {p + n} && p + n !in h.g.tiles
    && Preserved(h.m, h'.m, h.g, h'.g, {p})
  }

  /** set_inuse(p, n), set_inuse(p + n, s - n): chunk p of size s cut in two. */
  lemma CutInTwo(h: Heap, held: set<int>, p: int, n: nat)
    requires HeapOk(h, held) && CanSplit(h.g, p, n) && h.g.tiles[p].used
    ensures Cuts(h, held, p, n)
  {
    hide HeapOk, RowOk, Backed, Aligned, Tagged, Preserved, TagsOk;
    OpenHeap(h, held);
    var s := h.g.tiles[p].size;
    SplitUsed(h, held, p, n);
    HeadTells(h.m, h.g, p);
    NextBit(h.m, h.g, p);
    CutWord(h.m, h.g, p, n);
    var m1 := InuseSet(h.m, p, n);
    var m2 := InuseSet(m1, p + n, s - n);
    assert m2 == UsedSplit(h.m, p, n, s);
  }

  lemma NextBit(m: Memory, g: Row, p: int)
    requires TagsOk(m, g) && p in g.tiles && g.tiles[p].used
    ensures End(g, p) + 4 in m && m[End(g, p) + 4] % 2 == 1
  {
    hide RowOk, Backed, Aligned, Tagged, PrevUsed, TagsOk;
    NextOf(m, g, p);
    if End(g, p) == g.top { TopBit(m, g); } else { HeadTells(m, g, End(g, p)); }
  }

  lemma TopBit(m: Memory, g: Row)
    requires TagsOk(m, g)
    ensures g.top + 4 in m && m[g.top + 4] == g.topsize + 1 && m[g.top + 4] % 2 == 1
  {
    hide Seated, Backed, Tagged, RowOk;
    TagsRow(m, g);
    RowFrame(g);
    TopWord(g.topsize);
  }

  lemma CutWord(m: Memory, g: Row, p: int, n: nat)
    requires TagsOk(m, g) && CanSplit(g, p, n)
    ensures p + n + 4 in m
  {
    hide RowOk, Tagged, Backed, Aligned;
    Seat(g, p);
    RowFrame(g);
    AlignedSum(p, n);
    BackedAt(m, g.base, g.top + g.topsize + TOP_FOOT_SIZE, p + n, 4);
  }

  // ---------------------------------------------------------------- into the victim

  ghost predicate TakesPart(h: Heap, p: int, q: int, n: nat) {
    && p in h.g.tiles && q in h.g.tiles && End(h.g, p) == q && 0 < n < h.g.tiles[p].size + h.g.tiles[q].size
    && var t := h.g.tiles[p].size + h.g.tiles[q].size - n;
    && p + 4 in h.m && p + n + 4 in h.m && p + n + t + 4 in h.m && h.m[p + n + t + 4] % 2 == 0
    && var h' := h.(m := FreeTags(InuseSet(h.m, p, n), p + n, t), g := Marked(Split(Merged(h.g, p, true), p, n, true, true), p + n, false));
    && HeapOk(h', {p + n}) && Regrown(h, h', p, n) && Live(h'.g) == Live(h.g)
    && p + n in h'.g.tiles && h'.g.tiles[p + n] == Tile(t, false)
  }

  /** Chunk p of size s takes n - s bytes of the free chunk q in hand; the rest r stays free, in hand. */
  lemma TakePart(h: Heap, p: int, q: int, n: nat)
    requires HeapOk(h, {q}) && p in h.g.tiles && q in h.g.tiles && End(h.g, p) == q && h.g.tiles[p].used
    requires h.g.tiles[p].size < n && n + MIN_CHUNK_SIZE <= h.g.tiles[p].size + h.g.tiles[q].size && Aligned(n)
    ensures TakesPart(h, p, q, n)
  {
    hide HeapOk, RowOk, Backed, Aligned, Tagged, Preserved, TagsOk, Regrown, FreeTags, AloneFreed, PrevUsed, Live;
    OpenHeap(h, {q});
    Seat(h.g, p);
    Seat(h.g, q);
    var s := h.g.tiles[p].size + h.g.tiles[q].size;
    var t := s - n;
    GrowCut(h, p, q, n);
    var h2 := GrownHeap(h, p, n, s);
    FreeAlone(h2, {}, p + n);
    var h3 := h2.(m := AloneFreed(h2.m, p + n, t), g := Marked(h2.g, p + n, false));
    assert {} + {p + n} == {p + n};
    EvenNext(h.m, h.g, q);
    EvenSize(h.g.tiles[p].size, h.g.tiles[q].size);
    PartStores(h.m, p, n, s);
    RegrownAside(h, h2, h3, p, n, p + n);
    LessLive(h2.g, p + n);
  }

  lemma LessLive(g: Row, r: int)
    requires r in g.tiles
    ensures Live(Marked(g, r, false)) == Live(g) - {r}
  {}

  /** Chunk p over what follows it, s bytes in all, cut again at n. */
  function GrownHeap(h: Heap, p: int, n: nat, s: nat): Heap
    requires 0 < n < s && p + 4 in h.m && p + n + 4 in h.m && p + s + 4 in h.m
    requires p in h.g.tiles && End(h.g, p) in h.g.tiles && h.g.tiles[p].size + h.g.tiles[End(h.g, p)].size == s
  {
    h.(m := InuseSet(InuseSet(InuseSet(h.m, p, s), p, n), p + n, s - n), g := Split(Merged(h.g, p, true), p, n, true, true))
  }

  ghost predicate GrowsCut(h: Heap, p: int, q: int, n: nat) {
    && p in h.g.tiles && q in h.g.tiles && End(h.g, p) == q && 0 < n < h.g.tiles[p].size + h.g.tiles[q].size
    && var s := h.g.tiles[p].size + h.g.tiles[q].size;
    && p + 4 in h.m && p + n + 4 in h.m && p + s + 4 in h.m
    && var h2 := GrownHeap(h, p, n, s);
    && HeapOk(h2, {}) && Regrown(h, h2, p, n) && Live(h2.g) == Live(h.g) + {p + n} && p + n !in Live(h.g)
    && RestUsed(h2.g, p + n, s - n)
  }

  /** Chunk r of size t is in use, and so are its neighbours. */
  ghost predicate RestUsed(g: Row, r: int, t: int) {
    r in g.tiles && g.tiles[r].size == t && g.tiles[r].used && PrevUsed(g, r) && End(g, r) in g.tiles && g.tiles[End(g, r)].used
  }

  /** The free chunk q in hand taken in, and the rest beyond n bytes cut off, in use. */
  lemma GrowCut(h: Heap, p: int, q: int, n: nat)
    requires HeapOk(h, {q}) && p in h.g.tiles && q in h.g.tiles && End(h.g, p) == q && h.g.tiles[p].used
    requires h.g.tiles[p].size < n && n + MIN_CHUNK_SIZE <= h.g.tiles[p].size + h.g.tiles[q].size && Aligned(n)
    ensures GrowsCut(h, p, q, n)
  {
    hide HeapOk, RowOk, Backed, Aligned, Tagged, Preserved, TagsOk, Regrown, PrevUsed;
    OpenHeap(h, {q});
    Seat(h.g, p);
    Seat(h.g, q);
    var s := h.g.tiles[p].size + h.g.tiles[q].size;
    Absorb(h, {q}, p, q);
    assert {q} - {q} == {};
    var h1 := h.(m := InuseSet(h.m, p, s), g := Merged(h.g, p, true));
    OpenHeap(h1, {});
    CutInTwo(h1, {}, p, n);
    NewWord(h.m, h.g, p, q, n);
    RestPlace(h1.g, p, n);
    RegrownTrans(h, h1, GrownHeap(h, p, n, s), p, s, n);
  }

  lemma PartStores(m: Memory, p: int, n: nat, s: nat)
    requires 0 < n && n + MIN_CHUNK_SIZE <= s && s % 2 == 0
    requires p + 4 in m && p + n + 4 in m && p + s + 4 in m && m[p + s + 4] % 2 == 0
    ensures AloneFreed(InuseSet(InuseSet(InuseSet(m, p, s), p, n), p + n, s - n), p + n, s - n) == FreeTags(InuseSet(m, p, n), p + n, s - n)
  {
    assert (m[p + 4] % 2 + s + 2) % 2 == m[p + 4] % 2;
  }

  lemma EvenSize(s: int, t: int)
    requires Aligned(s) && Aligned(t)
    ensures (s + t) % 2 == 0
  {}

  lemma RestPlace(g: Row, p: int, n: nat)
    requires CanSplit(g, p, n) && g.tiles[p].used && End(g, p) in g.tiles && g.tiles[End(g, p)].used
    ensures var g' := Split(g, p, n, true, true);
      p + n in g'.tiles && PrevUsed(g', p + n) && g'.tiles[p + n].used && End(g', p + n) == End(g, p) && End(g, p) in g'.tiles && g'.tiles[End(g, p)].used
  {
    hide RowOk, Aligned;
    Seat(g, p);
    SplitNew(g, p, n, true, true);
  }

  lemma NewWord(m: Memory, g: Row, p: int, q: int, n: nat)
    requires TagsOk(m, g) && p in g.tiles && q in g.tiles && End(g, p) == q && g.tiles[p].used && !g.tiles[q].used
    requires 0 < n <= g.tiles[p].size + g.tiles[q].size && Aligned(n)
    ensures p + n + 4 in m
  {
    hide RowOk, Tagged, Backed, Aligned;
    Seat(g, p);
    Seat(g, q);
    RowFrame(g);
    AlignedSum(p, n);
    BackedAt(m, g.base, g.top + g.topsize + TOP_FOOT_SIZE, p + n, 4);
  }

  /** A later change of chunk r, not in use at first, leaves the regrown chunk p as it is. */
  lemma RegrownAside(h: Heap, h1: Heap, h2: Heap, p: int, n: nat, r: int)
    requires Regrown(h, h1, p, n) && Preserved(h1.m, h2.m, h1.g, h2.g, {r}) && SameSpan(h1.g, h2.g) && p != r && r !in Live(h.g)
    ensures Regrown(h, h2, p, n)
  {
    assert BlockKept(h1.m, h2.m, h1.g, h2.g, p);
    PreservedTrans(h.m, h1.m, h2.m, h.g, h1.g, h2.g, {p}, {r}, {p});
  }

  // ---------------------------------------------------------------- into top

  /** The last chunk p grown to size n, at the expense of top. */
  function TopReached(g: Row, p: int, n: nat): Row {
    g.(tiles := g.tiles[p := Tile(n, true)], prev := (g.prev - {g.top})[p + n := p],
       top := p + n, topsize := g.top + g.topsize - (p + n))
  }

  ghost predicate CanReach(g: Row, p: int, n: nat) {
    && RowOk(g) && p in g.tiles && g.tiles[p].used && End(g, p) == g.top
    && g.tiles[p].size < n && p + n < g.top + g.topsize && Aligned(n)
  }

  lemma ReachSeat(g: Row, p: int, n: nat, r: int)
    requires CanReach(g, p, n) && r in g.tiles
    ensures Seated(TopReached(g, p, n), r)
  {
    hide Aligned, RowOk;
    Seat(g, p);
    Seat(g, r);
    if r != p { Order(g, p, r); }
    if r != g.base { Seat(g, g.prev[r]); }
  }

  lemma ReachOk(g: Row, p: int, n: nat)
    requires CanReach(g, p, n)
    ensures RowOk(TopReached(g, p, n))
  {
    hide Aligned, Seated;
    var g' := TopReached(g, p, n);
    ReachFrame(g, p, n);
    forall r | r in g'.tiles ensures Seated(g', r) { ReachSeat(g, p, n, r); }
    forall r, s ensures Clear(g', r, s) {
      assert Clear(g, r, s);
      if r == p && s in g.tiles && p < s { ReachLast(g, p, s); }
    }
  }

  lemma ReachLast(g: Row, p: int, s: int)
    requires RowOk(g) && p in g.tiles && End(g, p) == g.top && s in g.tiles
    ensures s <= p
  {
    hide Aligned, RowOk;
    Seat(g, s);
    if s != p { Order(g, p, s); }
  }

  lemma ReachFrame(g: Row, p: int, n: nat)
    requires CanReach(g, p, n)
    ensures Frame(TopReached(g, p, n))
  {
    hide Aligned, RowOk;
    Seat(g, p);
    RowFrame(g);
    AlignedSum(p, n);
    AlignedSum(g.top, p + n);
    AlignedWorded(g.top - (p + n));
    WordedSum(g.topsize, g.top - (p + n));
    if p + n in g.tiles { ReachLast(g, p, p + n); }
  }

  function TopPushed(m: Memory, p: int, n: int, t: int): Memory
    requires p + 4 in m && p + n + 4 in m && n != 0
  {
    InuseSet(m, p, n)[p + n + 4 := t + 1]
  }

  lemma ReachKept(m: Memory, g: Row, p: int, n: nat, r: int)
    requires TagsOk(m, g) && CanReach(g, p, n) && r in g.tiles && r != p && p + 4 in m && p + n + 4 in m
    ensures KeptTag(m, TopPushed(m, p, n, g.top + g.topsize - (p + n)), g, TopReached(g, p, n), r)
  {
    hide Aligned, RowOk, Backed;
    Tag(m, g, p);
    Tag(m, g, r);
    NextOf(m, g, r);
    ReachLast(g, p, r);
    Order(g, p, r);
    if r != g.base { Tag(m, g, g.prev[r]); }
  }

  lemma ReachTags(m: Memory, g: Row, p: int, n: nat)
    requires TagsOk(m, g) && CanReach(g, p, n)
    ensures p + 4 in m && p + n + 4 in m
    ensures TagsOk(TopPushed(m, p, n, g.top + g.topsize - (p + n)), TopReached(g, p, n))
  {
    hide Aligned, RowOk, Backed;
    Tag(m, g, p);
    HeadTells(m, g, p);
    AlignedSum(p, n);
    BackedAt(m, g.base, g.top + g.topsize + TOP_FOOT_SIZE, p + n, 4);
    RowFrame(g);
    ReachOk(g, p, n);
    var m', g' := TopPushed(m, p, n, g.top + g.topsize - (p + n)), TopReached(g, p, n);
    forall r | r in g'.tiles && r != p ensures KeptTag(m, m', g, g', r) { ReachKept(m, g, p, n, r); }
    if p != g.base { Tag(m, g, g.prev[p]); }
    assert Tagged(m', g', p);
    Retag(m, m', g, g', {p});
  }

  /** set_inuse, and a new top: chunk p of the end of the row grows to n bytes. */
  lemma ReachTop(h: Heap, p: int, n: nat)
    requires HeapOk(h, {}) && CanReach(h.g, p, n)
    ensures p + 4 in h.m && p + n + 4 in h.m
    ensures var h' := h.(m := TopPushed(h.m, p, n, h.g.top + h.g.topsize - (p + n)), g := TopReached(h.g, p, n));
      HeapOk(h', {}) && Regrown(h, h', p, n) && Live(h'.g) == Live(h.g)
  {
    hide TableOk, RowOk, Backed, Aligned, Tagged, TopPushed, Preserved, TagsOk;
    OpenHeap(h, {});
    ReachTags(h.m, h.g, p, n);
    ReachTable(h, p, n);
    var t := h.g.top + h.g.topsize - (p + n);
    var m', g' := TopPushed(h.m, p, n, t), TopReached(h.g, p, n);
    UsedNotHeld(h, {}, p);
    KeepRoles(h, {}, m', g', {});
    ReachBlocks(h, p, n);
  }

  lemma ReachTable(h: Heap, p: int, n: nat)
    requires HeapOk(h, {}) && CanReach(h.g, p, n) && p + 4 in h.m && p + n + 4 in h.m
    ensures TableOk(TopPushed(h.m, p, n, h.g.top + h.g.topsize - (p + n)), h.smallmap, h.treemap, h.b)
  {
    hide TableOk, RowOk, Backed, Aligned, Tagged;
    OpenHeap(h, {});
    Seat(h.g, p);
    UsedNotHeld(h, {}, p);
    NotBinned(h, {}, p);
    InsideHead(h.m, h.g, p);
    StoreUnwatched(h, {}, p, p + 4);
    StoreTop(h, {}, p + n + 4, 0);
    var a, c := h.m[p + 4] % 2 + n + 2, h.g.top + h.g.topsize - (p + n) + 1;
    TableStore(h.m, h.smallmap, h.treemap, h.b, p + 4, a);
    TableStore(h.m[p + 4 := a], h.smallmap, h.treemap, h.b, p + n + 4, c);
    PushedStores(h.m, p, n, c - 1);
  }

  lemma PushedStores(m: Memory, p: int, n: int, t: int)
    requires p + 4 in m && p + n + 4 in m && n > 0
    ensures TopPushed(m, p, n, t) == m[p + 4 := m[p + 4] % 2 + n + 2][p + n + 4 := t + 1]
  {}

  lemma ReachBlocks(h: Heap, p: int, n: nat)
    requires HeapOk(h, {}) && CanReach(h.g, p, n) && p + 4 in h.m && p + n + 4 in h.m
    ensures var h' := h.(m := TopPushed(h.m, p, n, h.g.top + h.g.topsize - (p + n)), g := TopReached(h.g, p, n));
      Regrown(h, h', p, n) && Live(h'.g) == Live(h.g)
  {
    hide HeapOk, RowOk, Aligned, TopPushed;
    OpenHeap(h, {});
    Seat(h.g, p);
    PushedStores(h.m, p, n, h.g.top + h.g.topsize - (p + n));
    forall r | r in h.g.tiles && h.g.tiles[r].used && r != p
      ensures BlockKept(h.m, TopPushed(h.m, p, n, h.g.top + h.g.topsize - (p + n)), h.g, TopReached(h.g, p, n), r)
    {
      StoreApart(h.g, p, p + 4, r);
      Seat(h.g, r);
    }
  }
}

/**
 * The whole heap at one moment: memory, bins, the row of chunks and the designated
 * victim; what one store leaves alone; and the roles free chunks have.
 */
module HeapState {
  import opened Arithmetic
  import opened SizeClass
  import opened TreeLinks
  import opened Bins
  import opened ChunkMemory
  import opened BinStores
  import opened Tiling
  import opened Tags

  datatype Heap = Heap(m: Memory, smallmap: bv32, treemap: bv32, b: Bins, g: Row, dv: int, dvsize: int)

  ghost predicate IsFree(g: Row, p: int, s: int) {
    p in g.tiles && !g.tiles[p].used && g.tiles[p].size == s
  }

  ghost predicate Binned(h: Heap, p: int) {
    p in h.b.binned && IsFree(h.g, p, h.b.binned[p])
  }

  /** Each free chunk is in a bin, or the designated victim, or held by the operation under way. */
  ghost predicate Roles(h: Heap, held: set<int>) {
    && (forall p {:trigger Binned(h, p)} :: p in h.b.binned ==> Binned(h, p) && p != h.dv && p !in held)
    && (if h.dvsize == 0 then h.dv == 0 else h.dvsize > 0 && IsFree(h.g, h.dv, h.dvsize) && h.dv !in held)
    && (forall p {:trigger p in held} :: p in held ==> p in h.g.tiles && !h.g.tiles[p].used)
    && (forall p {:trigger p in h.g.tiles} :: p in h.g.tiles && !h.g.tiles[p].used ==> p in h.b.binned || p == h.dv || p in held)
  }

  /** The heap invariant, with some free chunks taken out of the bins by an operation under way. */
  ghost predicate HeapOk(h: Heap, held: set<int>) {
    && TagsOk(h.m, h.g)
    && TableOk(h.m, h.smallmap, h.treemap, h.b)
    && Roles(h, held)
  }

  // ---------------------------------------------------------------- clients' words

  /** The words a client may use in a chunk of size s at p: up to the next head. */
  ghost predicate SameBlock(m: Memory, m': Memory, p: int, s: int) {
    forall a {:trigger m'[a]} {:trigger a in m} :: p + 8 <= a < p + s + 4 && a in m ==> a in m' && m'[a] == m[a]
  }

  ghost predicate BlockKept(m: Memory, m': Memory, g: Row, g': Row, p: int)
    requires p in g.tiles
  {
    p in g'.tiles && g'.tiles[p] == g.tiles[p] && SameBlock(m, m', p, g.tiles[p].size)
  }

  /** Every used chunk outside xs stays, with all its words. */
  ghost predicate Preserved(m: Memory, m': Memory, g: Row, g': Row, xs: set<int>) {
    && m.Keys <= m'.Keys
    && (forall p {:trigger BlockKept(m, m', g, g', p)} :: p in g.tiles && g.tiles[p].used && p !in xs ==> BlockKept(m, m', g, g', p))
  }

  /** Two steps in a row; what the second may touch was touched by the first or not in use before. */
  lemma PreservedTrans(m0: Memory, m1: Memory, m2: Memory, g0: Row, g1: Row, g2: Row, xs: set<int>, ys: set<int>, zs: set<int>)
    requires Preserved(m0, m1, g0, g1, xs) && Preserved(m1, m2, g1, g2, ys)
    requires xs <= zs && forall p :: p in ys && p in g0.tiles && g0.tiles[p].used ==> p in zs
    ensures Preserved(m0, m2, g0, g2, zs)
  {
    forall p | p in g0.tiles && g0.tiles[p].used && p !in zs ensures BlockKept(m0, m2, g0, g2, p) {
      assert BlockKept(m0, m1, g0, g1, p) && BlockKept(m1, m2, g1, g2, p);
    }
  }

  // ---------------------------------------------------------------- one store

  /** a is a word of the bins' concern: the head or a link of a binned chunk, or a bin header. */
  ghost predicate Watched(sizes: map<int, nat>, a: int) {
    a < HEAP_MIN || exists c {:trigger c in sizes} :: c in sizes && c + 4 <= a < c + sizes[c]
  }

  lemma TableStore(m: Memory, smallmap: bv32, treemap: bv32, b: Bins, a: int, v: int)
    requires TableOk(m, smallmap, treemap, b) && !Watched(b.binned, a)
    ensures TableOk(m[a := v], smallmap, treemap, b)
  {
    hide BinsInv, MapsOk;
    var m' := m[a := v];
    forall p | p in b.binned ensures Stored(m', b.lk, p, b.binned[p]) && HeadAt(m', p, b.binned[p]) {
      assert Stored(m, b.lk, p, b.binned[p]) && HeadAt(m, p, b.binned[p]);
    }
    forall i | 0 <= i < NBINS ensures Header(m', b.lk, i) { assert Header(m, b.lk, i); }
  }

  /** A store between the head of chunk t and its foot, t not binned. */
  ghost predicate Inside(g: Row, t: int, a: int) {
    t in g.tiles && t + 4 <= a <= End(g, t)
  }

  lemma StoreApart(g: Row, t: int, a: int, r: int)
    requires RowOk(g) && Inside(g, t, a) && r in g.tiles && r != t
    ensures !(r + 4 <= a < End(g, r)) && !(r + 8 <= a < End(g, r) + 4)
  {
    hide Aligned, RowOk;
    Seat(g, t);
    Seat(g, r);
    Order(g, t, r);
  }

  lemma StoreUnwatched(h: Heap, held: set<int>, t: int, a: int)
    requires HeapOk(h, held) && Inside(h.g, t, a) && t !in h.b.binned
    ensures !Watched(h.b.binned, a)
  {
    hide Aligned, TableOk, Tagged;
    Seat(h.g, t);
    forall c | c in h.b.binned ensures !(c + 4 <= a < c + h.b.binned[c]) {
      assert Binned(h, c);
      StoreApart(h.g, t, a, c);
    }
  }

  lemma StoreBlocks(m: Memory, g: Row, t: int, a: int, v: int)
    requires RowOk(g) && Inside(g, t, a)
    ensures Preserved(m, m[a := v], g, g, {t})
  {
    hide RowOk;
    forall p | p in g.tiles && g.tiles[p].used && p != t ensures BlockKept(m, m[a := v], g, g, p) {
      StoreApart(g, t, a, p);
    }
  }

  lemma StoreTop(h: Heap, held: set<int>, a: int, v: int)
    requires HeapOk(h, held) && a >= h.g.top + 4
    ensures !Watched(h.b.binned, a)
    ensures Preserved(h.m, h.m[a := v], h.g, h.g, {})
  {
    hide Aligned, TableOk, Tagged;
    forall c | c in h.b.binned ensures !(c + 4 <= a < c + h.b.binned[c]) {
      assert Binned(h, c);
      Seat(h.g, c);
    }
    RowFrame(h.g);
    forall p | p in h.g.tiles && h.g.tiles[p].used ensures BlockKept(h.m, h.m[a := v], h.g, h.g, p) { Seat(h.g, p); }
  }

  // ---------------------------------------------------------------- bin operations

  ghost predicate AllFree(g: Row, sizes: map<int, nat>) {
    forall c {:trigger IsFree(g, c, sizes[c])} :: c in sizes ==> IsFree(g, c, sizes[c])
  }

  lemma LinkInTile(g: Row, sizes: map<int, nat>, a: int, r: int)
    requires RowOk(g) && AllFree(g, sizes) && r in g.tiles && LinkWord(sizes, a)
    ensures a != r + 4
    ensures g.tiles[r].used ==> !(r + 8 <= a < End(g, r) + 4)
    ensures !g.tiles[r].used ==> a != End(g, r)
  {
    hide Aligned, RowOk;
    Seat(g, r);
    if a >= HEAP_MIN {
      var c :| c in sizes && InLinks(sizes, c, a);
      assert IsFree(g, c, sizes[c]);
      Seat(g, c);
      if c != r { Order(g, c, r); }
    }
  }

  /** Changing links of free chunks leaves the tags and every used chunk alone. */
  lemma LinksKeep(m: Memory, m': Memory, g: Row, sizes: map<int, nat>)
    requires TagsOk(m, g) && AllFree(g, sizes) && LinksOnly(m, m', sizes)
    ensures TagsOk(m', g) && Preserved(m, m', g, g, {})
  {
    hide Aligned, RowOk, Backed, LinkWord, AllFree;
    forall p | p in g.tiles ensures KeptTag(m, m', g, g, p) { LinksKeepTag(m, m', g, sizes, p); }
    forall p | p in g.tiles && g.tiles[p].used ensures BlockKept(m, m', g, g, p) {
      forall a | p + 8 <= a < p + g.tiles[p].size + 4 && a in m ensures a in m' && m'[a] == m[a] {
        if LinkWord(sizes, a) { LinkInTile(g, sizes, a, p); }
      }
    }
    LinksKeepTop(m, m', g, sizes);
    Retag(m, m', g, g, {});
  }

  lemma LinksKeepTag(m: Memory, m': Memory, g: Row, sizes: map<int, nat>, p: int)
    requires TagsOk(m, g) && AllFree(g, sizes) && LinksOnly(m, m', sizes) && p in g.tiles
    ensures KeptTag(m, m', g, g, p)
  {
    hide Aligned, RowOk, Backed, LinkWord, AllFree;
    Tag(m, g, p);
    if LinkWord(sizes, p + 4) { LinkInTile(g, sizes, p + 4, p); }
    if !g.tiles[p].used && LinkWord(sizes, End(g, p)) { LinkInTile(g, sizes, End(g, p), p); }
  }

  lemma LinksKeepTop(m: Memory, m': Memory, g: Row, sizes: map<int, nat>)
    requires TagsOk(m, g) && AllFree(g, sizes) && LinksOnly(m, m', sizes)
    ensures TopTagged(m', g)
  {
    hide Aligned, Tagged, Backed;
    RowFrame(g);
    forall a | a >= g.top + 4 ensures !LinkWord(sizes, a) {
      forall c | c in sizes ensures !InLinks(sizes, c, a) { assert IsFree(g, c, sizes[c]); Seat(g, c); }
    }
  }

  lemma RolesFree(h: Heap, held: set<int>)
    requires Roles(h, held)
    ensures AllFree(h.g, h.b.binned)
  {
    forall c | c in h.b.binned ensures IsFree(h.g, c, h.b.binned[c]) { assert Binned(h, c); }
  }

  /** A chunk unlinked from its bin is held by the operation. */
  lemma TakeOut(h: Heap, held: set<int>, v: int, h': Heap)
    requires HeapOk(h, held) && v in h.b.binned
    requires LinksOnly(h.m, h'.m, h.b.binned) && TableOk(h'.m, h'.smallmap, h'.treemap, h'.b)
    requires h'.b.binned == h.b.binned - {v} && h'.g == h.g && h'.dv == h.dv && h'.dvsize == h.dvsize
    ensures HeapOk(h', held + {v}) && Preserved(h.m, h'.m, h.g, h'.g, {})
    ensures v in h.g.tiles && !h.g.tiles[v].used && h.g.tiles[v].size == h.b.binned[v] && v !in held && v != h.dv
  {
    hide TableOk, TagsOk;
    RolesFree(h, held);
    LinksKeep(h.m, h'.m, h.g, h.b.binned);
    assert Binned(h, v);
    forall p | p in h'.b.binned ensures Binned(h', p) && p != h.dv && p !in held { assert Binned(h, p); }
  }

  /** A held chunk can be binned. */
  lemma BinReady(h: Heap, held: set<int>, p: int)
    requires HeapOk(h, held) && p in held
    ensures p in h.g.tiles && CanBin(h.m, h.b, p, h.g.tiles[p].size)
  {
    hide BinsInv, MapsOk, Rep, Heads;
    RolesFree(h, held);
    var s := h.g.tiles[p].size;
    Tag(h.m, h.g, p);
    HeadParity(h.g, p);
    forall c | c in h.b.binned ensures c != p { assert Binned(h, c); }
    BinWords(h, p);
    HeldSpaced(h.g, h.b.binned, p, s);
  }

  lemma BinWords(h: Heap, p: int)
    requires TagsOk(h.m, h.g) && p in h.g.tiles
    ensures HasWords(h.m, p, h.g.tiles[p].size)
  {
    hide RowOk, Tagged, Backed, Aligned;
    Seat(h.g, p);
    RowFrame(h.g);
    var lo, hi := h.g.base, h.g.top + h.g.topsize + TOP_FOOT_SIZE;
    BackedAt(h.m, lo, hi, p, 8);
    BackedAt(h.m, lo, hi, p, 12);
    if h.g.tiles[p].size >= MIN_LARGE_SIZE {
      BackedAt(h.m, lo, hi, p, 16);
      BackedAt(h.m, lo, hi, p, 20);
      BackedAt(h.m, lo, hi, p, 24);
      BackedAt(h.m, lo, hi, p, 28);
    }
  }

  lemma BackedAt(m: Memory, lo: int, hi: int, p: int, k: int)
    requires Backed(m, lo, hi) && Aligned(p) && k % 4 == 0 && lo <= p + k < hi
    ensures p + k in m
  {
    assert (p + k) % 4 == 0;
  }

  lemma HeldSpaced(g: Row, sizes: map<int, nat>, p: int, s: nat)
    requires RowOk(g) && AllFree(g, sizes) && IsFree(g, p, s)
    ensures Spaced(sizes[p := s])
  {
    hide RowOk;
    var sizes' := sizes[p := s];
    forall c | c in sizes' ensures IsFree(g, c, sizes'[c]) && c >= HEAP_MIN && c % 8 == 0 && sizes'[c] >= MIN_CHUNK_SIZE && sizes'[c] % 8 == 0 {
      if c != p { assert IsFree(g, c, sizes[c]); }
      Seat(g, c);
    }
    forall c, d | c in sizes' && d in sizes' ensures Apart(sizes', c, d) {
      if c != d { Order(g, c, d); }
    }
  }

  /** A held chunk put into its bin. */
  lemma PutIn(h: Heap, held: set<int>, p: int, h': Heap)
    requires HeapOk(h, held) && p in held && p in h.g.tiles
    requires LinksOnly(h.m, h'.m, h'.b.binned) && TableOk(h'.m, h'.smallmap, h'.treemap, h'.b)
    requires h'.b.binned == h.b.binned[p := h.g.tiles[p].size] && h'.g == h.g && h'.dv == h.dv && h'.dvsize == h.dvsize
    ensures HeapOk(h', held - {p}) && Preserved(h.m, h'.m, h.g, h'.g, {})
  {
    hide TableOk, TagsOk;
    RolesFree(h, held);
    RolesHeap(h, held);
    forall c | c in h'.b.binned ensures Binned(h', c) && IsFree(h.g, c, h'.b.binned[c]) && c != h.dv && c !in held - {p} { if c != p { assert Binned(h, c); } }
    LinksKeep(h.m, h'.m, h.g, h'.b.binned);
  }

  /** A held chunk made the designated victim, when there is none. */
  lemma SetDv(h: Heap, held: set<int>, p: int)
    requires HeapOk(h, held) && p in held && h.dvsize == 0 && p in h.g.tiles
    ensures HeapOk(h.(dv := p, dvsize := h.g.tiles[p].size), held - {p})
  {
    hide TableOk, TagsOk, RowOk;
    var h' := h.(dv := p, dvsize := h.g.tiles[p].size);
    HeldSize(h, p);
    RolesHeap(h, held);
    forall c | c in h.b.binned ensures Binned(h', c) && c != p && c !in held { assert Binned(h, c); }
  }

  lemma HeldSize(h: Heap, p: int)
    requires TagsOk(h.m, h.g) && p in h.g.tiles
    ensures h.g.tiles[p].size > 0
  {
    hide RowOk;
    Seat(h.g, p);
  }

  /** The designated victim taken by the operation. */
  lemma DropDv(h: Heap, held: set<int>)
    requires HeapOk(h, held) && h.dvsize != 0
    ensures HeapOk(h.(dv := 0, dvsize := 0), held + {h.dv})
    ensures h.dv in h.g.tiles && !h.g.tiles[h.dv].used && h.g.tiles[h.dv].size == h.dvsize && h.dv !in held
  {
    hide TableOk, TagsOk;
    var h' := h.(dv := 0, dvsize := 0);
    RolesHeap(h, held);
    forall c | c in h.b.binned ensures Binned(h', c) && c != 0 && c != h.dv && c !in held { assert Binned(h, c); }
  }

  lemma RolesHeap(h: Heap, held: set<int>)
    requires HeapOk(h, held)
    ensures forall c :: c in h.b.binned ==> c >= HEAP_MIN
    ensures forall c :: c in h.g.tiles ==> c >= HEAP_MIN
  {
    hide BinsInv, MapsOk, Rep, Heads, Tagged;
    forall c | c in h.g.tiles ensures c >= HEAP_MIN { assert Seated(h.g, c); }
  }
}

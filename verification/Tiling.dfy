/**
 * The segment as a row of chunks: how boundary tags in memory describe it, and what
 * splitting, merging and marking chunks does to it.
 */
module Tiling {
  import opened Arithmetic
  import opened SizeClass
  import opened TreeLinks

  const TOP_FOOT_SIZE := 40

  datatype Tile = Tile(size: nat, used: bool)

  /** Chunks by address, the chunk before each address, and the top chunk. */
  datatype Row = Row(tiles: map<int, Tile>, prev: map<int, int>, base: int, top: int, topsize: int)

  function End(g: Row, p: int): int
    requires p in g.tiles
  {
    p + g.tiles[p].size
  }

  /** Chunk p has its place: right after a chunk or at the base, right before a chunk or top. */
  ghost predicate Seated(g: Row, p: int) {
    && p in g.tiles
    && Aligned(p) && Aligned(g.tiles[p].size) && g.tiles[p].size >= MIN_CHUNK_SIZE
    && g.base <= p && End(g, p) <= g.top
    && (End(g, p) == g.top || End(g, p) in g.tiles)
    && End(g, p) in g.prev && g.prev[End(g, p)] == p
    && (p != g.base ==> p in g.prev && g.prev[p] in g.tiles && End(g, g.prev[p]) == p)
  }

  ghost predicate Clear(g: Row, p: int, q: int) {
    p in g.tiles && q in g.tiles && p < q ==> End(g, p) <= q
  }

  ghost predicate Frame(g: Row) {
    && g.base >= HEAP_MIN && Aligned(g.base) && g.base <= g.top && Aligned(g.top) && g.topsize > 0 && Worded(g.topsize)
    && (g.base != g.top ==> g.top in g.prev && g.prev[g.top] in g.tiles && End(g, g.prev[g.top]) == g.top)
    && (g.base == g.top <==> g.base !in g.tiles)
    && g.top !in g.tiles
  }

  ghost predicate RowOk(g: Row) {
    && Frame(g)
    && (forall p {:trigger Seated(g, p)} :: p in g.tiles ==> Seated(g, p))
    && (forall p, q {:trigger Clear(g, p, q)} :: Clear(g, p, q))
  }

  lemma Seat(g: Row, p: int)
    requires RowOk(g) && p in g.tiles
    ensures Seated(g, p) && Frame(g)
  {}

  lemma Order(g: Row, p: int, q: int)
    requires RowOk(g) && p in g.tiles && q in g.tiles && p != q
    ensures End(g, p) <= q || End(g, q) <= p
  {
    assert Clear(g, p, q) && Clear(g, q, p);
  }

  // ---------------------------------------------------------------- changes of the row

  function Marked(g: Row, p: int, used: bool): Row
    requires p in g.tiles
  {
    g.(tiles := g.tiles[p := Tile(g.tiles[p].size, used)])
  }

  /** Chunk p cut into one of size n and the rest. */
  function Split(g: Row, p: int, n: nat, used: bool, restUsed: bool): Row
    requires p in g.tiles && n < g.tiles[p].size
  {
    g.(tiles := g.tiles[p := Tile(n, used)][p + n := Tile(g.tiles[p].size - n, restUsed)],
       prev := g.prev[p + n := p][End(g, p) := p + n])
  }

  /** Chunk p joined with the one after it. */
  function Merged(g: Row, p: int, used: bool): Row
    requires p in g.tiles && End(g, p) in g.tiles
  {
    var q := End(g, p);
    g.(tiles := (g.tiles - {q})[p := Tile(g.tiles[p].size + g.tiles[q].size, used)],
       prev := (g.prev - {q})[End(g, q) := p])
  }

  /** n bytes taken from the bottom of top as a used chunk. */
  function TopTaken(g: Row, n: nat): Row {
    g.(tiles := g.tiles[g.top := Tile(n, true)], prev := g.prev[g.top + n := g.top], top := g.top + n, topsize := g.topsize - n)
  }

  /** The last chunk p given to top. */
  function TopGiven(g: Row, p: int): Row
    requires p in g.tiles
  {
    g.(tiles := g.tiles - {p}, prev := g.prev - {End(g, p)}, top := p, topsize := g.topsize + g.tiles[p].size)
  }

  lemma MarkOk(g: Row, p: int, used: bool)
    requires RowOk(g) && p in g.tiles
    ensures RowOk(Marked(g, p, used))
  {
    hide Aligned, Worded;
    var g' := Marked(g, p, used);
    forall q | q in g'.tiles ensures Seated(g', q) { assert Seated(g, q); }
    forall q, r ensures Clear(g', q, r) { assert Clear(g, q, r); }
  }

  ghost predicate CanSplit(g: Row, p: int, n: nat) {
    RowOk(g) && p in g.tiles && MIN_CHUNK_SIZE <= n && n + MIN_CHUNK_SIZE <= g.tiles[p].size && Aligned(n)
  }

  lemma SplitSeat(g: Row, p: int, n: nat, used: bool, restUsed: bool, q: int)
    requires CanSplit(g, p, n) && q in g.tiles && q != p && q != p + n
    ensures Seated(Split(g, p, n, used, restUsed), q)
  {
    hide Aligned, Worded, RowOk;
    SplitNew(g, p, n, used, restUsed);
    Seat(g, p);
    Seat(g, q);
    Order(g, p, q);
    if q != g.base { Seat(g, g.prev[q]); }
  }

  lemma SplitNew(g: Row, p: int, n: nat, used: bool, restUsed: bool)
    requires CanSplit(g, p, n)
    ensures p + n !in g.tiles
    ensures Seated(Split(g, p, n, used, restUsed), p) && Seated(Split(g, p, n, used, restUsed), p + n)
    ensures Frame(Split(g, p, n, used, restUsed))
  {
    hide Aligned, Worded, RowOk;
    Seat(g, p);
    if p + n in g.tiles { Order(g, p, p + n); }
    AlignedSum(p, n);
    AlignedSum(g.tiles[p].size, n);
    if p != g.base { Seat(g, g.prev[p]); }
  }

  lemma SplitOk(g: Row, p: int, n: nat, used: bool, restUsed: bool)
    requires CanSplit(g, p, n)
    ensures RowOk(Split(g, p, n, used, restUsed))
    ensures p + n !in g.tiles
  {
    hide Aligned, Worded, Frame, Seated;
    var g' := Split(g, p, n, used, restUsed);
    SplitNew(g, p, n, used, restUsed);
    forall q | q in g'.tiles ensures Seated(g', q) {
      if q != p && q != p + n { SplitSeat(g, p, n, used, restUsed, q); }
    }
    forall q, r ensures Clear(g', q, r) {
      assert Clear(g, q, r) && Clear(g, p, r) && Clear(g, q, p) && Clear(g, p, q);
    }
  }

  ghost predicate CanMerge(g: Row, p: int) {
    RowOk(g) && p in g.tiles && End(g, p) in g.tiles
  }

  lemma MergeSeat(g: Row, p: int, used: bool, r: int)
    requires CanMerge(g, p) && r in g.tiles && r != End(g, p)
    ensures Seated(Merged(g, p, used), r)
  {
    hide Aligned, Worded, RowOk;
    var q := End(g, p);
    Seat(g, p);
    Seat(g, q);
    Seat(g, r);
    AlignedSum(g.tiles[p].size, g.tiles[q].size);
    if r != p {
      Order(g, p, r);
      Order(g, q, r);
    }
    if r != g.base { Seat(g, g.prev[r]); }
  }

  lemma MergeFrame(g: Row, p: int, used: bool)
    requires CanMerge(g, p)
    ensures Frame(Merged(g, p, used))
  {
    hide Aligned, Worded, RowOk;
    Seat(g, p);
    Seat(g, End(g, p));
  }

  lemma MergeOk(g: Row, p: int, used: bool)
    requires CanMerge(g, p)
    ensures RowOk(Merged(g, p, used))
  {
    hide Aligned, Worded, Frame, Seated;
    var g' := Merged(g, p, used);
    var q := End(g, p);
    MergeFrame(g, p, used);
    MergeShape(g, p);
    forall r | r in g'.tiles ensures Seated(g', r) { MergeSeat(g, p, used, r); }
    forall r, s ensures Clear(g', r, s) {
      assert Clear(g, r, s) && Clear(g, q, s) && Clear(g, r, q);
    }
  }

  lemma MergeShape(g: Row, p: int)
    requires CanMerge(g, p)
    ensures g.tiles[p].size > 0
  {
    assert Seated(g, p);
  }

  ghost predicate CanTake(g: Row, n: nat) {
    RowOk(g) && MIN_CHUNK_SIZE <= n < g.topsize && Aligned(n)
  }

  lemma TopTakeSeat(g: Row, n: nat, r: int)
    requires CanTake(g, n) && r in g.tiles
    ensures Seated(TopTaken(g, n), r) && r < g.top
  {
    hide Aligned, Worded, RowOk;
    Seat(g, r);
    if r != g.base { Seat(g, g.prev[r]); }
  }

  lemma TopTakeNew(g: Row, n: nat)
    requires CanTake(g, n)
    ensures Seated(TopTaken(g, n), g.top) && Frame(TopTaken(g, n))
  {
    hide Aligned, Worded;
    AlignedSum(g.top, n);
    AlignedWorded(n);
    WordedSum(g.topsize, n);
    forall r | r in g.tiles ensures r < g.top { assert Seated(g, r); }
  }

  lemma TopTakeOk(g: Row, n: nat)
    requires CanTake(g, n)
    ensures RowOk(TopTaken(g, n))
  {
    hide Aligned, Worded, Frame, Seated;
    var g' := TopTaken(g, n);
    TopTakeNew(g, n);
    forall r | r in g'.tiles ensures Seated(g', r) {
      if r != g.top { TopTakeSeat(g, n, r); }
    }
    forall r, s ensures Clear(g', r, s) {
      assert Clear(g, r, s);
      if r in g.tiles { TopTakeSeat(g, n, r); TopTakeEnd(g, r); }
      if s in g.tiles { TopTakeSeat(g, n, s); }
    }
  }

  lemma TopTakeEnd(g: Row, r: int)
    requires RowOk(g) && r in g.tiles
    ensures End(g, r) <= g.top
  {
    assert Seated(g, r);
  }

  lemma TopGiveOk(g: Row, p: int)
    requires RowOk(g) && p in g.tiles && End(g, p) == g.top
    ensures RowOk(TopGiven(g, p))
  {
    hide Aligned, Worded;
    var g' := TopGiven(g, p);
    assert Seated(g, p);
    AlignedWorded(g.tiles[p].size);
    WordedSum(g.topsize, g.tiles[p].size);
    forall r | r in g'.tiles ensures Seated(g', r) {
      assert Seated(g, r);
      assert Clear(g, p, r) && Clear(g, r, p);
    }
    forall r, s ensures Clear(g', r, s) { assert Clear(g, r, s); }
    if p != g.base { assert Seated(g, g.prev[p]); }
  }
}

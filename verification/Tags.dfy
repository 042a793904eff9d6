/**
 * Boundary tags: the head word of each chunk, the foot of each free one, and the words
 * a client may use.
 */
module Tags {
  import opened Arithmetic
  import opened ChunkMemory
  import opened Tiling

  ghost predicate PrevUsed(g: Row, p: int) {
    p == g.base || (p in g.prev && g.prev[p] in g.tiles && g.tiles[g.prev[p]].used)
  }

  /** Size, in-use bit and previous-in-use bit of chunk p. */
  ghost function HeadWord(g: Row, p: int): int
    requires p in g.tiles
  {
    g.tiles[p].size + (if g.tiles[p].used then 2 else 0) + (if PrevUsed(g, p) then 1 else 0)
  }

  /** The head tells the truth; a free chunk has its foot, and no free chunk or top beside it. */
  ghost predicate Tagged(m: Memory, g: Row, p: int) {
    && p in g.tiles && p + 4 in m && m[p + 4] == HeadWord(g, p)
    && (!g.tiles[p].used ==>
          && End(g, p) in m && m[End(g, p)] == g.tiles[p].size
          && PrevUsed(g, p) && End(g, p) != g.top)
  }

  ghost predicate TopTagged(m: Memory, g: Row) {
    && g.top + 4 in m && m[g.top + 4] == g.topsize + 1
    && PrevUsed(g, g.top)
    && g.top + g.topsize + 4 in m && m[g.top + g.topsize + 4] == TOP_FOOT_SIZE
  }

  /** Every word of the segment is there. */
  ghost predicate Backed(m: Memory, lo: int, hi: int) {
    forall a {:trigger a in m} :: lo <= a < hi && a % 4 == 0 ==> a in m
  }

  ghost predicate TagsOk(m: Memory, g: Row) {
    && RowOk(g)
    && (forall p {:trigger Tagged(m, g, p)} :: p in g.tiles ==> Tagged(m, g, p))
    && TopTagged(m, g)
    && Backed(m, g.base, g.top + g.topsize + TOP_FOOT_SIZE)
  }

  // ---------------------------------------------------------------- changing a few chunks

  /** Chunk p and its tags are as before. */
  ghost predicate KeptTag(m: Memory, m': Memory, g: Row, g': Row, p: int) {
    && p in g.tiles && p in g'.tiles && g'.tiles[p] == g.tiles[p]
    && (PrevUsed(g', p) <==> PrevUsed(g, p))
    && p + 4 in m && p + 4 in m' && m'[p + 4] == m[p + 4]
    && (!g.tiles[p].used ==> End(g, p) in m && End(g, p) in m' && m'[End(g, p)] == m[End(g, p)] && End(g, p) != g'.top)
  }

  lemma Retag(m: Memory, m': Memory, g: Row, g': Row, changed: set<int>)
    requires TagsOk(m, g) && RowOk(g') && TopTagged(m', g') && m.Keys <= m'.Keys
    requires g'.base == g.base && g'.top + g'.topsize == g.top + g.topsize
    requires forall p {:trigger KeptTag(m, m', g, g', p)} :: p in g'.tiles && p !in changed ==> KeptTag(m, m', g, g', p)
    requires forall p :: p in changed && p in g'.tiles ==> Tagged(m', g', p)
    ensures TagsOk(m', g')
  {
    hide RowOk, Backed, TopTagged;
    forall p | p in g'.tiles ensures Tagged(m', g', p) {
      if p !in changed { assert KeptTag(m, m', g, g', p) && Tagged(m, g, p); }
    }
    BackedMore(m, m', g.base, g.top + g.topsize + TOP_FOOT_SIZE);
  }

  lemma BackedMore(m: Memory, m': Memory, lo: int, hi: int)
    requires Backed(m, lo, hi) && m.Keys <= m'.Keys
    ensures Backed(m', lo, hi)
  {}

  lemma Tag(m: Memory, g: Row, p: int)
    requires TagsOk(m, g) && p in g.tiles
    ensures Tagged(m, g, p) && Seated(g, p) && Frame(g) && TopTagged(m, g) && RowOk(g)
  {
    hide Aligned;
    assert Seated(g, p) && Tagged(m, g, p);
  }

  /** The chunk after p. */
  lemma NextOf(m: Memory, g: Row, p: int)
    requires TagsOk(m, g) && p in g.tiles
    ensures Seated(g, p) && Tagged(m, g, p)
    ensures End(g, p) != g.top ==> End(g, p) in g.tiles && g.prev[End(g, p)] == p && End(g, p) != g.base && (PrevUsed(g, End(g, p)) <==> g.tiles[p].used)
    ensures End(g, p) != g.top && !g.tiles[p].used ==> g.tiles[End(g, p)].used
    ensures End(g, p) == g.top ==> g.tiles[p].used && g.prev[g.top] == p
    ensures End(g, p) + 4 in m
  {
    hide Aligned, RowOk, Backed;
    Tag(m, g, p);
    if End(g, p) != g.top { Tag(m, g, End(g, p)); }
  }

  /** The low bit of a word set, as by |= PINUSE_BIT. */
  function WithBit(h: int): int { if h % 2 == 0 then h + 1 else h }

  /** The low bit of a word cleared, as by &= ~PINUSE_BIT. */
  function WithoutBit(h: int): int { if h % 2 == 0 then h else h - 1 }

  lemma HeadParity(g: Row, p: int)
    requires RowOk(g) && p in g.tiles
    ensures HeadWord(g, p) % 2 == (if PrevUsed(g, p) then 1 else 0)
    ensures HeadSize(HeadWord(g, p)) == g.tiles[p].size
    ensures HeadWord(g, p) / 2 % 2 == (if g.tiles[p].used then 1 else 0)
  {
    hide Aligned, HeadSize;
    assert Seated(g, p);
    HeadBits(g.tiles[p].size, if g.tiles[p].used then 1 else 0, if PrevUsed(g, p) then 1 else 0);
  }

  lemma HeadBits(s: nat, u: int, v: int)
    requires Aligned(s) && 0 <= u <= 1 && 0 <= v <= 1
    ensures var h := s + 2 * u + v; h % 2 == v && h / 2 % 2 == u && HeadSize(h) == s
  {
    var h, k := s + 2 * u + v, s / 8;
    assert s == 8 * k;
    DivUnique(h, 4 * k + u, 2, v);
    DivUnique(4 * k + u, 2 * k, 2, u);
    DivUnique(h, k, 8, 2 * u + v);
  }

  lemma HeadNotFoot(p: int, q: int)
    requires Aligned(p) && Aligned(q)
    ensures p + 4 != q
  {}

  // ---------------------------------------------------------------- a free chunk put to use

  /** set_inuse_and_pinuse(p, s) */
  function WholeUsed(m: Memory, p: int, s: nat): Memory
    requires p + s + 4 in m
  {
    m[p + 4 := s + 3][p + s + 4 := WithBit(m[p + s + 4])]
  }

  lemma UseWholeTags(m: Memory, g: Row, p: int)
    requires TagsOk(m, g) && p in g.tiles && !g.tiles[p].used
    ensures End(g, p) + 4 in m
    ensures TagsOk(WholeUsed(m, p, g.tiles[p].size), Marked(g, p, true))
  {
    hide Aligned, RowOk, Backed;
    Tag(m, g, p);
    NextOf(m, g, p);
    var q := End(g, p);
    Tag(m, g, q);
    HeadParity(g, q);
    var m', g' := WholeUsed(m, p, g.tiles[p].size), Marked(g, p, true);
    MarkOk(g, p, true);
    forall r | r in g'.tiles && r != p && r != q ensures KeptTag(m, m', g, g', r) { UseWholeKept(m, g, p, r); }
    assert Tagged(m', g', p) by { NextOf(m, g, p); }
    Retag(m, m', g, g', {p, q});
  }

  lemma UseWholeKept(m: Memory, g: Row, p: int, r: int)
    requires TagsOk(m, g) && p in g.tiles && !g.tiles[p].used && r in g.tiles && r != p && r != End(g, p) && End(g, p) + 4 in m
    ensures KeptTag(m, WholeUsed(m, p, g.tiles[p].size), g, Marked(g, p, true), r)
  {
    hide Aligned, RowOk, Backed;
    Tag(m, g, p);
    Tag(m, g, r);
    NextOf(m, g, r);
    NextOf(m, g, p);
    AlignedSum(p, g.tiles[p].size);
    AlignedSum(r, g.tiles[r].size);
    HeadNotFoot(p, End(g, r));
    HeadNotFoot(End(g, p), End(g, r));
    if r != g.base { Tag(m, g, g.prev[r]); }
  }

  // ---------------------------------------------------------------- a used chunk made free

  /** set_free_with_pinuse(p, s, p + s) */
  function AloneFreed(m: Memory, p: int, s: nat): Memory
    requires p + s + 4 in m
  {
    m[p + s + 4 := WithoutBit(m[p + s + 4])][p + 4 := s + 1][p + s := s]
  }

  lemma FreeAloneKept(m: Memory, g: Row, p: int, r: int)
    requires TagsOk(m, g) && p in g.tiles && g.tiles[p].used && End(g, p) != g.top && r in g.tiles && r != p && r != End(g, p) && End(g, p) + 4 in m
    ensures KeptTag(m, AloneFreed(m, p, g.tiles[p].size), g, Marked(g, p, false), r)
  {
    hide Aligned, RowOk, Backed;
    Tag(m, g, p);
    Tag(m, g, r);
    NextOf(m, g, r);
    NextOf(m, g, p);
    AlignedSum(p, g.tiles[p].size);
    AlignedSum(r, g.tiles[r].size);
    HeadNotFoot(p, End(g, r));
    HeadNotFoot(End(g, p), End(g, r));
    HeadNotFoot(r, End(g, p));
    if r != g.base { Tag(m, g, g.prev[r]); }
  }

  lemma FreeAloneTags(m: Memory, g: Row, p: int)
    requires TagsOk(m, g) && p in g.tiles && g.tiles[p].used && PrevUsed(g, p)
    requires End(g, p) != g.top && End(g, p) in g.tiles && g.tiles[End(g, p)].used
    ensures End(g, p) + 4 in m
    ensures TagsOk(AloneFreed(m, p, g.tiles[p].size), Marked(g, p, false))
  {
    hide Aligned, RowOk, Backed;
    NextOf(m, g, p);
    Tag(m, g, p);
    var q := End(g, p);
    Tag(m, g, q);
    HeadParity(g, q);
    HeadNotFoot(g.top, q);
    TopApart(m, g, q);
    AlignedSum(p, g.tiles[p].size);
    HeadNotFoot(q, q);
    HeadNotFoot(p, q);
    var m', g' := AloneFreed(m, p, g.tiles[p].size), Marked(g, p, false);
    MarkOk(g, p, false);
    forall r | r in g'.tiles && r != p && r != q ensures KeptTag(m, m', g, g', r) { FreeAloneKept(m, g, p, r); }
    assert Tagged(m', g', q);
    Retag(m, m', g, g', {p, q});
  }

  /** The words of top's tags are not tags of a chunk. */
  lemma TopApart(m: Memory, g: Row, p: int)
    requires TagsOk(m, g) && p in g.tiles
    ensures p < g.top && End(g, p) <= g.top
    ensures End(g, p) != g.top + 4 && End(g, p) < g.top + g.topsize + 4
    ensures End(g, p) == g.top ==> g.tiles[p].used
  {
    hide Aligned, RowOk, Backed;
    Tag(m, g, p);
    HeadNotFoot(g.top, End(g, p)) by { AlignedSum(p, g.tiles[p].size); }
  }

  // ---------------------------------------------------------------- two used chunks made one, one made two

  function UsedMerged(m: Memory, p: int, s: nat): Memory
    requires p + 4 in m
  {
    m[p + 4 := m[p + 4] + s]
  }

  lemma MergeUsedTags(m: Memory, g: Row, p: int)
    requires TagsOk(m, g) && p in g.tiles && g.tiles[p].used && End(g, p) in g.tiles && g.tiles[End(g, p)].used
    ensures p + 4 in m
    ensures TagsOk(UsedMerged(m, p, g.tiles[End(g, p)].size), Merged(g, p, true))
  {
    hide Aligned, RowOk, Backed;
    Tag(m, g, p);
    var q := End(g, p);
    Tag(m, g, q);
    TopApart(m, g, p);
    var m', g' := UsedMerged(m, p, g.tiles[q].size), Merged(g, p, true);
    MergeOk(g, p, true);
    MergeTop(m, g, p);
    forall r | r in g'.tiles && r != p ensures KeptTag(m, m', g, g', r) { MergeUsedKept(m, g, p, r); }
    if p != g.base { Tag(m, g, g.prev[p]); }
    assert Tagged(m', g', p);
    Retag(m, m', g, g', {p});
  }

  lemma MergeTop(m: Memory, g: Row, p: int)
    requires TagsOk(m, g) && p in g.tiles && g.tiles[p].used && End(g, p) in g.tiles && g.tiles[End(g, p)].used
    ensures PrevUsed(Merged(g, p, true), g.top)
  {
    hide Aligned, RowOk, Backed;
    Tag(m, g, p);
    Tag(m, g, End(g, p));
  }

  lemma MergeUsedKept(m: Memory, g: Row, p: int, r: int)
    requires TagsOk(m, g) && p in g.tiles && g.tiles[p].used && End(g, p) in g.tiles && g.tiles[End(g, p)].used && p + 4 in m
    requires r in g.tiles && r != p && r != End(g, p)
    ensures KeptTag(m, UsedMerged(m, p, g.tiles[End(g, p)].size), g, Merged(g, p, true), r)
  {
    hide Aligned, RowOk, Backed;
    Tag(m, g, p);
    Tag(m, g, r);
    Tag(m, g, End(g, p));
    NextOf(m, g, r);
    AlignedSum(r, g.tiles[r].size);
    HeadNotFoot(p, End(g, r));
    if r != g.base { Tag(m, g, g.prev[r]); }
  }

  function UsedSplit(m: Memory, p: int, n: nat, s: nat): Memory
    requires p + 4 in m && n <= s
  {
    m[p + 4 := m[p + 4] - (s - n)][p + n + 4 := s - n + 3]
  }

  lemma SplitUsedKept(m: Memory, g: Row, p: int, n: nat, r: int)
    requires TagsOk(m, g) && CanSplit(g, p, n) && g.tiles[p].used && p + 4 in m
    requires r in g.tiles && r != p
    ensures r != p + n && KeptTag(m, UsedSplit(m, p, n, g.tiles[p].size), g, Split(g, p, n, true, true), r)
  {
    hide Aligned, RowOk, Backed;
    SplitNew(g, p, n, true, true);
    Tag(m, g, p);
    Tag(m, g, r);
    NextOf(m, g, r);
    NextOf(m, g, p);
    AlignedSum(r, g.tiles[r].size);
    AlignedSum(p, n);
    HeadNotFoot(p, End(g, r));
    HeadNotFoot(p + n, End(g, r));
    if r != g.base { Tag(m, g, g.prev[r]); }
  }

  lemma SplitUsedTags(m: Memory, g: Row, p: int, n: nat)
    requires TagsOk(m, g) && CanSplit(g, p, n) && g.tiles[p].used
    ensures p + 4 in m
    ensures TagsOk(UsedSplit(m, p, n, g.tiles[p].size), Split(g, p, n, true, true))
  {
    hide Aligned, RowOk, Backed;
    Tag(m, g, p);
    TopApart(m, g, p);
    SplitOk(g, p, n, true, true);
    SplitNew(g, p, n, true, true);
    var m', g' := UsedSplit(m, p, n, g.tiles[p].size), Split(g, p, n, true, true);
    forall r | r in g'.tiles && r != p && r != p + n ensures KeptTag(m, m', g, g', r) { SplitUsedKept(m, g, p, n, r); }
    if p != g.base { Tag(m, g, g.prev[p]); }
    assert Tagged(m', g', p) && Tagged(m', g', p + n);
    NextOf(m, g, p);
    Retag(m, m', g, g', {p, p + n});
  }

  // ---------------------------------------------------------------- top

  function TopCut(m: Memory, top: int, topsize: int, n: nat): Memory {
    m[top + n + 4 := topsize - n + 1][top + 4 := n + 3]
  }

  lemma TakeTopTags(m: Memory, g: Row, n: nat)
    requires TagsOk(m, g) && CanTake(g, n)
    ensures TagsOk(TopCut(m, g.top, g.topsize, n), TopTaken(g, n))
  {
    hide Aligned, RowOk, Backed;
    TopTakeOk(g, n);
    RowFrame(g);
    var m', g' := TopCut(m, g.top, g.topsize, n), TopTaken(g, n);
    forall r | r in g'.tiles && r != g.top ensures KeptTag(m, m', g, g', r) { TakeTopKept(m, g, n, r); }
    assert Tagged(m', g', g.top);
    Retag(m, m', g, g', {g.top});
  }

  lemma RowFrame(g: Row)
    requires RowOk(g)
    ensures Frame(g)
  {}

  lemma TakeTopKept(m: Memory, g: Row, n: nat, r: int)
    requires TagsOk(m, g) && CanTake(g, n) && r in g.tiles
    ensures KeptTag(m, TopCut(m, g.top, g.topsize, n), g, TopTaken(g, n), r)
  {
    hide Aligned, RowOk, Backed;
    Tag(m, g, r);
    NextOf(m, g, r);
    AlignedSum(r, g.tiles[r].size);
    AlignedSum(g.top, n);
    HeadNotFoot(g.top, End(g, r));
    HeadNotFoot(g.top + n, End(g, r));
    if r != g.base { Tag(m, g, g.prev[r]); }
  }

  function TopFed(m: Memory, p: int, size: int): Memory {
    m[p + 4 := size + 1]
  }

  lemma GiveTopTags(m: Memory, g: Row, p: int)
    requires TagsOk(m, g) && p in g.tiles && g.tiles[p].used && PrevUsed(g, p) && End(g, p) == g.top
    ensures TagsOk(TopFed(m, p, g.topsize + g.tiles[p].size), TopGiven(g, p))
  {
    hide Aligned, RowOk, Backed;
    Tag(m, g, p);
    TopGiveOk(g, p);
    var m', g' := TopFed(m, p, g.topsize + g.tiles[p].size), TopGiven(g, p);
    forall r | r in g'.tiles ensures KeptTag(m, m', g, g', r) { GiveTopKept(m, g, p, r); }
    if p != g.base { Tag(m, g, g.prev[p]); }
    assert TopTagged(m', g');
    Retag(m, m', g, g', {});
  }

  lemma GiveTopKept(m: Memory, g: Row, p: int, r: int)
    requires TagsOk(m, g) && p in g.tiles && g.tiles[p].used && PrevUsed(g, p) && End(g, p) == g.top && r in g.tiles && r != p
    ensures KeptTag(m, TopFed(m, p, g.topsize + g.tiles[p].size), g, TopGiven(g, p), r)
  {
    hide Aligned, RowOk, Backed;
    Tag(m, g, p);
    Tag(m, g, r);
    NextOf(m, g, r);
    AlignedSum(r, g.tiles[r].size);
    HeadNotFoot(p, End(g, r));
    if r != g.base { Tag(m, g, g.prev[r]); }
  }
}

/**
 * The bins as the allocator holds them: link words in memory, the root array and the
 * two bitmaps.
 */
module BinTable {
  import opened Sequences
  import opened SizeClass
  import opened Rings
  import opened Trie
  import opened TreeLinks
  import opened Bins
  import opened Bitmap
  import opened ChunkMemory
  import opened BinStores
  import opened BinUnlink
  import opened BestFit
  import opened BinSearch

  /** Before insert_large_chunk looks at its tree. */
  lemma InsertStart(m: Memory, smallmap: bv32, treemap: bv32, b: Bins, x: int, s: nat)
    requires TableOk(m, smallmap, treemap, b) && TreeSize(s)
    ensures TreeIndex(s) < NBINS == |b.roots| && (Bit(treemap, TreeIndex(s)) <==> b.roots[TreeIndex(s)] != 0)
    ensures Bit(treemap, TreeIndex(s)) ==>
      && b.roots[TreeIndex(s)] in b.binned
      && Walking(b, s, b.binned[b.roots[TreeIndex(s)]], b.roots[TreeIndex(s)], (s * Pow2(LeftShift(TreeIndex(s)))) % WORD_SPAN)
      && b.binned[b.roots[TreeIndex(s)]] in b.sh.depth && b.sh.depth[b.binned[b.roots[TreeIndex(s)]]] <= 32
  {
    hide BinsInv, Rep, Heads, Bit, TreeIndex, Same, Pow2, LeftShift;
    TreeIndexRange(s);
    if b.roots[TreeIndex(s)] != 0 {
      WalkStart(b, s);
      DepthBound(b, b.binned[b.roots[TreeIndex(s)]]);
    }
  }

  /** What insert_large_chunk finds at the node it has reached. */
  lemma InsertRead(m: Memory, smallmap: bv32, treemap: bv32, b: Bins, x: int, s: nat, a: nat, t: int, key: nat)
    requires TableOk(m, smallmap, treemap, b) && CanBin(m, b, x, s) && Walking(b, s, a, t, key)
    ensures var m1 := Blank(m, x, TreeIndex(s));
      && a in b.sh.depth && a in b.ring && |b.ring[a]| > 0 && t == b.ring[a][0]
      && t + 4 in m1 && HeadSize(m1[t + 4]) == a && t in b.lk.fd && t + 8 in m1 && m1[t + 8] == b.lk.fd[t]
      && (a != s ==>
            var c := t + 16 + 4 * (key / 0x8000_0000);
            && c in m1 && a in TreeOf(b).nd && b.sh.depth[a] < Width(s) && Turn(s, b.sh.depth[a]) == key / 0x8000_0000
            && (m1[c] != 0 ==>
                  && m1[c] in b.binned && Walking(b, s, b.binned[m1[c]], m1[c], (key * 2) % WORD_SPAN)
                  && b.binned[m1[c]] in b.sh.depth && b.sh.depth[a] < b.sh.depth[b.binned[m1[c]]] <= 32)
            && (m1[c] == 0 ==> CanAttach(TreeOf(b), s, x, a)))
  {
    hide BinsInv, Rep, Heads, Bit, TreeIndex, Same, TreeOf, Turn, Width, KeyAt, Blank, CanAttach;
    assert x in b.binned[x := s];
    ReadNode(m, b, x, s, TreeIndex(s), a);
    if a != s {
      WalkOn(b, s, a, t, key);
      var c := if key / 0x8000_0000 == 0 then b.lk.left[t] else b.lk.right[t];
      if c != 0 { DepthBound(b, b.binned[c]); }
    }
  }

  /** r is the node of size rk strictly below the node of size s, and rp is the slot that holds it. */
  ghost predicate Descendant(b: Bins, s: nat, rk: nat, r: int, rp: int) {
    && rk in b.sh.depth && rk != s && Under(b.sh, rk, s) && rk in b.ring && |b.ring[rk]| > 0 && r == b.ring[rk][0]
    && rk in b.sh.up && b.sh.up[rk] in b.ring && |b.ring[b.sh.up[rk]]| > 0 && b.sh.up[rk] in b.sh.depth
    && b.sh.depth[b.sh.up[rk]] < Width(rk)
    && rp == b.ring[b.sh.up[rk]][0] + 16 + 4 * Turn(rk, b.sh.depth[b.sh.up[rk]])
  }

  /** Reading child slot e of the node of size k. */
  lemma SlotRead(m: Memory, b: Bins, k: nat, e: nat)
    requires BinsInv(b) && Rep(m, b.lk, b.binned) && k in b.sh.depth && e < 2
    ensures k in b.ring && |b.ring[k]| > 0
    ensures var a := b.ring[k][0] + 16 + 4 * e;
      && a in m
      && Node(TreeOf(b), k) && TreeOf(b).nd[k] == b.ring[k][0] && m[a] == Slot(TreeOf(b), b.ring[k][0], e)
      && (m[a] != 0 ==>
            && m[a] in b.binned && b.binned[m[a]] in b.sh.depth && b.binned[m[a]] in b.ring && |b.ring[b.binned[m[a]]]| > 0
            && b.ring[b.binned[m[a]]][0] == m[a] && IsChild(b.sh, b.binned[m[a]], k, e) && Under(b.sh, b.binned[m[a]], k)
            && b.sh.depth[b.binned[m[a]]] == b.sh.depth[k] + 1 <= 32)
  {
    hide BinsInv, Rep, TreeOf, IsChild, Under, TreeIndex, Turn, Width;
    NodeIs(b, k);
    TreePart(b);
    FieldsOf(m, b.lk, b.binned, b.ring[k][0]);
    At(TreeOf(b), k);
    if Slot(TreeOf(b), b.ring[k][0], e) != 0 {
      KidBelow(TreeOf(b), k, e);
      var c := b.binned[Slot(TreeOf(b), b.ring[k][0], e)];
      NodeIs(b, c);
      DepthBound(b, c);
    }
  }

  lemma DescendStart(m: Memory, smallmap: bv32, treemap: bv32, b: Bins, s: nat, rp: int)
    requires TableOk(m, smallmap, treemap, b) && s in b.sh.depth && s in b.ring && |b.ring[s]| > 0
    requires rp == b.ring[s][0] + 16 || rp == b.ring[s][0] + 20
    requires rp in m && m[rp] != 0
    ensures m[rp] in b.binned && Descendant(b, s, b.binned[m[rp]], m[rp], rp)
    ensures b.binned[m[rp]] in b.sh.depth && b.sh.depth[b.binned[m[rp]]] <= 32
  {
    hide BinsInv, Rep, TreeOf, Under, TreeIndex, Turn, Width;
    SlotRead(m, b, s, (rp - b.ring[s][0] - 16) / 4);
  }

  /** The child slot at a leads to a deeper descendant, or is empty. */
  ghost predicate LeadsDown(m: Memory, b: Bins, s: nat, rk: nat, a: int)
    requires rk in b.sh.depth
  {
    && a in m
    && (m[a] != 0 ==>
          && m[a] in b.binned && Descendant(b, s, b.binned[m[a]], m[a], a)
          && b.binned[m[a]] in b.sh.depth && b.sh.depth[rk] < b.sh.depth[b.binned[m[a]]] <= 32)
  }

  lemma SlotDown(m: Memory, b: Bins, s: nat, rk: nat, e: nat)
    requires BinsInv(b) && Rep(m, b.lk, b.binned) && s in b.sh.depth && rk in b.sh.depth && Under(b.sh, rk, s) && e < 2
    ensures rk in b.ring && |b.ring[rk]| > 0 && LeadsDown(m, b, s, rk, b.ring[rk][0] + 16 + 4 * e)
  {
    hide BinsInv, Rep, TreeOf, Under, TreeIndex, Turn, Width, Leaf, WellFormed, TreeInv;
    TreePart(b);
    SlotRead(m, b, rk, e);
    var a := b.ring[rk][0] + 16 + 4 * e;
    if m[a] != 0 {
      UnderTrans(b.sh, b.binned[m[a]], rk, s);
      UnderNot(b.sh, b.binned[m[a]], rk, s);
    }
  }

  lemma DescendRead(m: Memory, smallmap: bv32, treemap: bv32, b: Bins, s: nat, rk: nat, r: int, rp: int)
    requires TableOk(m, smallmap, treemap, b) && s in b.sh.depth && Descendant(b, s, rk, r, rp)
    ensures rk in b.sh.depth && LeadsDown(m, b, s, rk, r + 16) && LeadsDown(m, b, s, rk, r + 20)
    ensures m[r + 16] == 0 && m[r + 20] == 0 ==> Leaf(b.sh, rk)
  {
    hide BinsInv, Rep, TreeOf, Under, TreeIndex, Turn, Width, Leaf, WellFormed, TreeInv;
    TreePart(b);
    SlotDown(m, b, s, rk, 0);
    SlotDown(m, b, s, rk, 1);
    SlotRead(m, b, rk, 0);
    SlotRead(m, b, rk, 1);
    if m[r + 16] == 0 && m[r + 20] == 0 { NoKids(TreeOf(b), rk); }
  }

  lemma UnderNot(sh: Shape, c: nat, k: nat, s: nat)
    requires Under(sh, k, s) && c in sh.depth && sh.depth[c] == sh.depth[k] + 1
    ensures c != s
  {}

  /** What unlink_large_chunk reads of chunk x first. */
  lemma UnlinkReads(m: Memory, smallmap: bv32, treemap: bv32, b: Bins, x: int) returns (k: nat)
    requires TableOk(m, smallmap, treemap, b) && x in b.binned && b.binned[x] >= MIN_LARGE_SIZE
    ensures var s := b.binned[x];
      && s in b.sh.depth && s in b.ring && k < |b.ring[s]| && b.ring[s][k] == x
      && x in b.lk.fd && x in b.lk.bk && x in b.lk.par
      && x + 8 in m && m[x + 8] == b.lk.fd[x] && x + 12 in m && m[x + 12] == b.lk.bk[x]
      && x + 24 in m && m[x + 24] == b.lk.par[x] && x + 28 in m && m[x + 28] == TreeIndex(s) < NBINS == |b.roots|
      && x + 16 in m && x + 20 in m
      && (m[x + 12] == x <==> |b.ring[s]| == 1)
      && (m[x + 24] == 0 <==> k > 0)
  {
    hide BinsInv, Rep, Heads, TreeOf, TreeIndex, Cycle, MapsOk, WellFormed, TreeInv;
    k := Locate(m, b, x);
    var s := b.binned[x];
    ChainMembers(b, s);
    SizeKey(b, s);
    CycleStep(b.lk.fd, b.lk.bk, b.ring[s], k);
    assert b.ring[s][k] in b.lk.idx;
    if k == 0 {
      NodeIs(b, s);
      TreePart(b);
      HangPlace(TreeOf(b), s);
    } else {
      assert Chained(b, b.ring[s][k]);
    }
  }

  lemma BareLeaf(m: Memory, smallmap: bv32, treemap: bv32, b: Bins, s: nat)
    requires TableOk(m, smallmap, treemap, b) && s in b.sh.depth && s in b.ring && |b.ring[s]| > 0
    requires var x := b.ring[s][0]; x + 16 in m && x + 20 in m && m[x + 16] == 0 && m[x + 20] == 0
    ensures Leaf(b.sh, s)
  {
    hide BinsInv, Rep, TreeOf, Leaf, WellFormed, TreeInv, IsChild, Under;
    TreePart(b);
    SlotRead(m, b, s, 0);
    SlotRead(m, b, s, 1);
    NoKids(TreeOf(b), s);
  }

  lemma ReplacedBins(m: Memory, smallmap: bv32, treemap: bv32, b: Bins, s: nat, rk: nat, r: int, rp: int) returns (b': Bins)
    requires TableOk(m, smallmap, treemap, b) && s in b.sh.depth && s in b.ring && |b.ring[s]| == 1
    requires Descendant(b, s, rk, r, rp) && Leaf(b.sh, rk)
    ensures NodeReads(m, b, s, b.ring[s][0])
    ensures var x := b.ring[s][0]; var xp, isRoot := b.lk.par[x], b.roots[TreeIndex(s)] == x;
      var m' := RelinkedDown(RelinkedUp(m[rp := 0], isRoot, x, xp, r), x, xp, r);
      && rp in m && r != 0 && IndexWord(m[rp := 0], x, s) && Unlinked(m, m', smallmap, treemap, b, b', x)
      && b'.roots == if isRoot then b.roots[TreeIndex(s) := r] else b.roots
  {
    hide TableOk, Leaf, Under, RelinkedUp, RelinkedDown, TreeIndex, Turn, Width;
    b' := UnlinkInnerTable(m, smallmap, treemap, b, s, rk);
  }

  lemma WalkNode(m: Memory, smallmap: bv32, treemap: bv32, b: Bins, nb: nat, vk: nat, tk: nat, rk: nat, t: int, rst: int, sizebits: nat)
    requires TableOk(m, smallmap, treemap, b) && WalkState(b, nb, vk, tk, rk, t, rst, sizebits)
    ensures t + 4 in m && HeadSize(m[t + 4]) == tk && TreeSize(tk) && TreeSize(nb) && At0(b, tk, t)
    ensures Remainder(tk, nb) < Slack(vk, nb) <==> Better(vk, tk, nb) != vk
    ensures Remainder(tk, nb) < Slack(vk, nb) ==> Slack(tk, nb) == Remainder(tk, nb) && Better(vk, tk, nb) == tk
    ensures tk == nb ==> Remainder(tk, nb) == 0 && Slack(vk, nb) >= 0
  {
    hide TableOk, WalkCover, Fork, Same, TreeIndex, KeyAt, WellFormed;
    ReadNodeAt(m, smallmap, treemap, b, tk, t);
    ShapeOk(m, smallmap, treemap, b);
    if vk != 0 { SizeIn(b.sh, vk); }
    RemainderCompare(tk, nb, vk);
  }

  lemma WalkStateDepth(b: Bins, nb: nat, vk: nat, tk: nat, rk: nat, t: int, rst: int, sizebits: nat)
    requires WalkState(b, nb, vk, tk, rk, t, rst, sizebits)
    ensures tk in b.sh.depth && b.sh.depth[tk] <= 32
  {}

  lemma SearchLater(m: Memory, smallmap: bv32, treemap: bv32, b: Bins, nb: nat)
    requires TableOk(m, smallmap, treemap, b) && TreeSize(nb) && WalkCover(b.sh, nb, 0, 0, 0)
    ensures TreeIndex(nb) < NBINS
    ensures var leftbits := LaterBits(treemap, TreeIndex(nb));
      && (leftbits == 0 ==> Cover(b.sh, nb, 0, 0))
      && (leftbits != 0 ==>
        var i := FirstBit(leftbits);
        && i < NBINS == |b.roots| && b.roots[i] != 0
        && At0(b, KeyOf(b, b.roots[i]), b.roots[i]) && Cover(b.sh, nb, 0, KeyOf(b, b.roots[i])) && AllFit(b.sh, nb, KeyOf(b, b.roots[i])))
  {
    hide TableOk, WalkCover, Cover, TreeIndex, LaterBits, Bit, FirstBit;
    TreeIndexRange(nb);
    LaterMarked(treemap, TreeIndex(nb));
    SearchAbove(m, smallmap, treemap, b, nb, LaterBits(treemap, TreeIndex(nb)));
  }

  lemma SomeTree(m: Memory, smallmap: bv32, treemap: bv32, b: Bins, nb: nat, tk: nat, vk: nat)
    requires TableOk(m, smallmap, treemap, b) && Cover(b.sh, nb, vk, 0) && tk in b.sh.depth && nb < MIN_LARGE_SIZE
    ensures vk != 0
  {
    hide TableOk, Cover;
    ShapeOk(m, smallmap, treemap, b);
    SizeIn(b.sh, tk);
    CoverDone(b.sh, nb, vk, tk);
  }

  /** The static words of the small bin headers, all zero. */
  function HeaderWords(): (m: Memory)
    ensures forall a :: a in m <==> 64 <= a < 512 && a % 4 == 0
  {
    map a | 64 <= a < 512 && a % 4 == 0 :: 0
  }

  /** No chunk in any bin; the headers hold zeros, or link to themselves after init_bins. */
  ghost function EmptyBins(selfLinked: bool): Bins {
    var links := map i | 0 <= i < NBINS :: Sentinel(i) := if selfLinked then Sentinel(i) else 0;
    Bins(Links(links, links, map[], map[], map[], map[]), seq(NBINS, i => 0), map[],
         map s: nat | MIN_CHUNK_SIZE <= s < MIN_LARGE_SIZE && s % 8 == 0 :: [], Shape(map[], map[]))
  }

  lemma EmptyRings(selfLinked: bool)
    ensures var b := EmptyBins(selfLinked);
      && (forall s :: s in b.ring ==> b.ring[s] == [] && s % 8 == 0 && 16 <= s < 256)
      && (forall i :: 2 <= i < NBINS ==> 8 * i in b.ring)
  {}

  lemma EmptyTable(m: Memory, selfLinked: bool)
    requires forall i {:trigger Header(m, EmptyBins(selfLinked).lk, i)} :: 0 <= i < NBINS ==> Header(m, EmptyBins(selfLinked).lk, i)
    ensures TableOk(m, 0, 0, EmptyBins(selfLinked))
  {
    hide Header;
    var b := EmptyBins(selfLinked);
    EmptyRings(selfLinked);
    assert TreeOf(b).nd == map[];
    forall i | 0 <= i < NBINS ensures Rooted(TreeOf(b), i) {}
    forall s | s in b.ring ensures RingAt(b, s) {}
    forall i | 2 <= i < NBINS ensures SmallAt(b, i) {}
    forall i | 0 <= i < NBINS ensures !Bit(0, i) { NoBit(i); }
  }

  lemma HeaderAt(m: Memory, selfLinked: bool, i: nat)
    requires i < NBINS && Sentinel(i) + 8 in m && Sentinel(i) + 12 in m
    requires m[Sentinel(i) + 8] == m[Sentinel(i) + 12] == if selfLinked then Sentinel(i) else 0
    ensures Header(m, EmptyBins(selfLinked).lk, i)
  {
    assert Sentinel(i) in EmptyBins(selfLinked).lk.fd;
  }

  lemma EmptyRoots()
    ensures EmptyBins(true).roots == EmptyBins(false).roots
  {}

  ghost predicate HeadersIn(m: Memory) {
    forall a :: 64 <= a < 512 && a % 4 == 0 ==> a in m
  }

  lemma HeadersThere(m: Memory)
    requires forall a :: a in HeaderWords() ==> a in m
    ensures HeadersIn(m)
  {
    forall a | 64 <= a < 512 && a % 4 == 0 ensures a in m { assert a in HeaderWords(); }
  }

  ghost predicate SelfLinked(m: Memory, i: nat) {
    Sentinel(i) + 8 in m && Sentinel(i) + 12 in m && m[Sentinel(i) + 8] == m[Sentinel(i) + 12] == Sentinel(i)
  }

  /** Linking header i to itself leaves the headers before it linked to themselves. */
  lemma SelfLink(m: Memory, i: nat)
    requires i < NBINS && HeadersIn(m) && forall j {:trigger SelfLinked(m, j)} :: 0 <= j < i ==> SelfLinked(m, j)
    ensures Sentinel(i) + 12 in m && Sentinel(i) + 8 in m
    ensures var m' := m[Sentinel(i) + 12 := Sentinel(i)][Sentinel(i) + 8 := Sentinel(i)];
      && m'.Keys == m.Keys && HeadersIn(m') && (forall j {:trigger SelfLinked(m', j)} :: 0 <= j < i + 1 ==> SelfLinked(m', j))
      && forall a :: a in m && a >= HEAP_MIN ==> m'[a] == m[a]
  {
    var m' := m[Sentinel(i) + 12 := Sentinel(i)][Sentinel(i) + 8 := Sentinel(i)];
    forall j | 0 <= j < i + 1 ensures SelfLinked(m', j) {
      if j < i { assert SelfLinked(m, j); }
    }
  }

  lemma SelfLinkedHeader(m: Memory, i: nat)
    requires i < NBINS && SelfLinked(m, i)
    ensures Header(m, EmptyBins(true).lk, i)
  {
    HeaderAt(m, true, i);
  }

  lemma NoBit(i: nat)
    requires i < NBINS
    ensures !Bit(0, i)
  {
    hide Bit;
    if Bit(0, i) { ZeroMap(0, i); }
  }

  // ---------------------------------------------------------------- finding a chunk

  /** The fd words of memory lead around r. */
  ghost predicate Around(m: Memory, r: seq<int>) {
    && |r| > 0 && NoDup(r)
    && (forall k {:trigger r[k]} :: 0 <= k < |r| ==> r[k] + 8 in m && m[r[k] + 8] == r[Next(k, |r|)])
  }

  lemma AroundStep(m: Memory, r: seq<int>, k: nat)
    requires Around(m, r) && k < |r|
    ensures r[k] + 8 in m && m[r[k] + 8] == r[Next(k, |r|)] && (m[r[k] + 8] == r[0] <==> k == |r| - 1)
  {}

  lemma AroundSmall(m: Memory, smallmap: bv32, treemap: bv32, b: Bins, i: nat)
    requires TableOk(m, smallmap, treemap, b) && i < NBINS && Bit(smallmap, i)
    ensures 8 * i in b.ring && Around(m, [Sentinel(i)] + b.ring[8 * i])
  {
    hide TreeInv, TreeOf, Cycle, Bit, Heads;
    var s := 8 * i;
    assert RingAt(b, s);
    assert SmallAt(b, i);
    var r := [Sentinel(i)] + b.ring[s];
    forall k | 0 <= k < |r| ensures r[k] + 8 in m && m[r[k] + 8] == r[Next(k, |r|)] {
      CycleStep(b.lk.fd, b.lk.bk, r, k);
      if k == 0 { assert Header(m, b.lk, i); } else { assert Member(b, s, b.ring[s][k - 1]); assert Stored(m, b.lk, r[k], s); }
    }
    forall i, j | 0 <= i < j < |r| ensures r[i] != r[j] {
      assert Member(b, s, b.ring[s][j - 1]);
      if i > 0 { assert b.ring[s][i - 1] != b.ring[s][j - 1]; }
    }
  }

  lemma AroundLarge(m: Memory, smallmap: bv32, treemap: bv32, b: Bins, s: nat)
    requires TableOk(m, smallmap, treemap, b) && s in b.sh.depth
    ensures s in b.ring && Around(m, b.ring[s])
  {
    hide TreeInv, TreeOf, Cycle, Heads, MapsOk;
    assert ChainAt(b, s);
    assert RingAt(b, s);
    var r := b.ring[s];
    forall k | 0 <= k < |r| ensures r[k] + 8 in m && m[r[k] + 8] == r[Next(k, |r|)] {
      CycleStep(b.lk.fd, b.lk.bk, r, k);
      assert Stored(m, b.lk, r[k], s);
    }
  }

  /** A chunk is binned exactly if it is on the ring of its size. */
  lemma OnItsRing(m: Memory, smallmap: bv32, treemap: bv32, b: Bins, x: int)
    requires TableOk(m, smallmap, treemap, b) && x + 4 in m
    ensures var s := HeadSize(m[x + 4]); x in b.binned <==> s >= 0 && s in b.ring && x in b.ring[s]
    ensures forall s :: s in b.ring && s >= MIN_LARGE_SIZE ==> s in b.sh.depth
  {
    hide TreeInv, TreeOf, Cycle, Rep, MapsOk, Spaced;
    var s := HeadSize(m[x + 4]);
    if x in b.binned { assert HomeAt(b, x); HeadOf(m, b.binned, x); }
    if s >= 0 && s in b.ring && x in b.ring[s] { assert RingAt(b, s); }
    forall s | s in b.ring && s >= MIN_LARGE_SIZE ensures s in b.sh.depth { assert RingAt(b, s); }
  }

  lemma SmallMarks(m: Memory, smallmap: bv32, treemap: bv32, b: Bins, i: nat)
    requires TableOk(m, smallmap, treemap, b) && i < NBINS
    ensures Bit(smallmap, i) <==> 8 * i in b.ring && b.ring[8 * i] != []
  {
    hide Bit, BinsInv, Rep, Heads, Spaced;
  }

  lemma NotStored(m: Memory, smallmap: bv32, treemap: bv32, b: Bins, s: nat)
    requires TableOk(m, smallmap, treemap, b) && TreeSize(s) && TreeIndex(s) < NBINS == |b.roots| && b.roots[TreeIndex(s)] == 0
    ensures s !in b.sh.depth
  {
    hide BinsInv, Rep, Heads, MapsOk, TreeIndex;
    RootNotStored(b, s);
  }

  /** What bin_find reads at a node of its walk for size s. */
  lemma FindRead(m: Memory, smallmap: bv32, treemap: bv32, b: Bins, s: nat, a: nat, t: int, key: nat)
    requires TableOk(m, smallmap, treemap, b) && Walking(b, s, a, t, key) && t != 0
    ensures t + 4 in m && HeadSize(m[t + 4]) == a && (a == s ==> s in b.sh.depth && s in b.ring && |b.ring[s]| > 0 && t == b.ring[s][0])
    ensures a != s ==>
      var p := t + 16 + 4 * (key / 0x8000_0000);
      && p in m && (m[p] == 0 ==> s !in b.sh.depth)
      && (m[p] != 0 ==>
            && m[p] in b.binned && Walking(b, s, b.binned[m[p]], m[p], (key * 2) % WORD_SPAN)
            && a in b.sh.depth && b.binned[m[p]] in b.sh.depth && b.sh.depth[a] < b.sh.depth[b.binned[m[p]]] <= 32)
  {
    hide BinsInv, Rep, Heads, Bit, TreeIndex, Same, TreeOf, Turn, Width, KeyAt, CanAttach;
    NodeIs(b, a);
    HeadOf(m, b.binned, t);
    FieldsOf(m, b.lk, b.binned, t);
    if a != s {
      WalkOn(b, s, a, t, key);
      var c := if key / 0x8000_0000 == 0 then b.lk.left[t] else b.lk.right[t];
      if c != 0 { DepthBound(b, b.binned[c]); }
    }
  }

  class Table {
    var mem: Memory
    var smallmap: bv32
    var treemap: bv32
    var treebins: seq<int>
    ghost var bins: Bins

    ghost predicate Valid() reads this {
      TableOk(mem, smallmap, treemap, bins) && treebins == bins.roots
    }

    /** The zeroed malloc_state. */
    constructor ()
      ensures Valid() && bins == EmptyBins(false) && mem == HeaderWords() && smallmap == 0 && treemap == 0
    {
      hide TableOk;
      forall i | 0 <= i < NBINS ensures Header(HeaderWords(), EmptyBins(false).lk, i) { HeaderAt(HeaderWords(), false, i); }
      EmptyTable(HeaderWords(), false);
      mem := HeaderWords();
      smallmap := 0;
      treemap := 0;
      treebins := seq(NBINS, i => 0);
      bins := EmptyBins(false);
    }

    /** init_bins: every small bin header linked to itself. */
    method InitBins()
      requires Valid() && bins == EmptyBins(false) && smallmap == 0 && treemap == 0
      requires forall a :: a in HeaderWords() ==> a in mem
      modifies `mem, `bins
      ensures Valid() && bins == EmptyBins(true)
      ensures mem.Keys == old(mem).Keys && forall a :: a in mem && a >= HEAP_MIN ==> mem[a] == old(mem)[a]
    {
      hide TableOk, SelfLinked, EmptyBins, HeaderWords;
      HeadersThere(mem);
      for i := 0 to NBINS
        invariant mem.Keys == old(mem).Keys && HeadersIn(mem) && forall a :: a in mem && a >= HEAP_MIN ==> mem[a] == old(mem)[a]
        invariant forall j {:trigger SelfLinked(mem, j)} :: 0 <= j < i ==> SelfLinked(mem, j)
      {
        var bin := Sentinel(i);
        SelfLink(mem, i);
        mem := mem[bin + 12 := bin];
        mem := mem[bin + 8 := bin];
      }
      EmptyRoots();
      bins := EmptyBins(true);
      forall i | 0 <= i < NBINS ensures Header(mem, bins.lk, i) { SelfLinkedHeader(mem, i); }
      EmptyTable(mem, true);
    }

    /** insert_small_chunk */
    method InsertSmallChunk(p: int, s: nat)
      requires Valid() && CanBin(mem, bins, p, s) && IsSmall(s)
      modifies `mem, `smallmap, `bins
      ensures Valid() && bins.binned == old(bins.binned)[p := s] && LinksOnly(old(mem), mem, bins.binned)
    {
      hide TableOk, LinksOnly, Bit, MarkBit, ClearBit, CanBin;
      InsertSmallTable(mem, smallmap, treemap, bins, p, s);
      var i := SmallIndex(s);
      var b := Sentinel(i);
      var f := b;
      if !Bit(smallmap, i) {
        smallmap := MarkBit(smallmap, i);
      } else {
        f := mem[b + 8];
      }
      mem := mem[b + 8 := p];
      mem := mem[f + 12 := p];
      mem := mem[p + 8 := f];
      mem := mem[p + 12 := b];
      bins := WithSmall(bins, p, s);
    }

    /** unlink_small_chunk */
    method UnlinkSmallChunk(p: int, s: nat)
      requires Valid() && p in bins.binned && bins.binned[p] == s && IsSmall(s)
      modifies `mem, `smallmap, `bins
      ensures Valid() && bins.binned == old(bins.binned) - {p} && LinksOnly(old(mem), mem, old(bins.binned))
    {
      hide TableOk, LinksOnly, Bit, MarkBit, ClearBit;
      ghost var k := LocateIn(mem, smallmap, treemap, bins, p);
      UnlinkSmallTable(mem, smallmap, treemap, bins, s, k);
      var f := mem[p + 8];
      var b := mem[p + 12];
      var i := SmallIndex(s);
      if b == f {
        smallmap := ClearBit(smallmap, i);
      } else {
        mem := mem[f + 12 := b];
        mem := mem[b + 8 := f];
      }
      bins := WithoutSmall(bins, s, k);
    }

    /** unlink_first_small_chunk */
    method UnlinkFirstSmallChunk(i: nat) returns (p: int)
      requires Valid() && 2 <= i < NBINS && Bit(smallmap, i)
      modifies `mem, `smallmap, `bins
      ensures p in old(bins.binned) && old(bins.binned)[p] == 8 * i
      ensures Valid() && bins.binned == old(bins.binned) - {p} && LinksOnly(old(mem), mem, old(bins.binned))
    {
      hide TableOk, LinksOnly, Bit, MarkBit, ClearBit;
      FirstOf(mem, smallmap, treemap, bins, i);
      var b := Sentinel(i);
      p := mem[b + 8];
      ghost var k := LocateIn(mem, smallmap, treemap, bins, p);
      UnlinkSmallTable(mem, smallmap, treemap, bins, 8 * i, 0);
      var f := mem[p + 8];
      if b == f {
        smallmap := ClearBit(smallmap, i);
      } else {
        mem := mem[f + 12 := b];
        mem := mem[b + 8 := f];
      }
      bins := WithoutSmall(bins, 8 * i, 0);
    }

    /** insert_large_chunk: the stores that make x the root of tree i. */
    method LinkRoot(x: int, i: nat)
      requires i < NBINS == |treebins|
      modifies `mem, `treemap, `treebins
      ensures mem == old(mem)[x + 24 := RootAddr(i)][x + 8 := x][x + 12 := x]
      ensures treemap == MarkBit(old(treemap), i) && treebins == old(treebins)[i := x]
    {
      treemap := MarkBit(treemap, i);
      treebins := treebins[i := x];
      mem := mem[x + 24 := RootAddr(i)];
      mem := mem[x + 8 := x];
      mem := mem[x + 12 := x];
    }

    /** insert_large_chunk: the stores that hang x into slot c of node t. */
    method LinkLeaf(x: int, c: int, t: int)
      modifies `mem
      ensures mem == old(mem)[c := x][x + 24 := t][x + 8 := x][x + 12 := x]
    {
      mem := mem[c := x];
      mem := mem[x + 24 := t];
      mem := mem[x + 8 := x];
      mem := mem[x + 12 := x];
    }

    /** insert_large_chunk: the stores that put x on the ring of t. */
    method LinkChained(x: int, t: int)
      requires t + 8 in mem
      modifies `mem
      ensures var f := old(mem)[t + 8]; mem == old(mem)[t + 8 := x][f + 12 := x][x + 8 := f][x + 12 := t][x + 24 := 0]
    {
      var f := mem[t + 8];
      mem := mem[t + 8 := x];
      mem := mem[f + 12 := x];
      mem := mem[x + 8 := f];
      mem := mem[x + 12 := t];
      mem := mem[x + 24 := 0];
    }

    /** insert_large_chunk */
    method InsertLargeChunk(x: int, s: nat)
      requires Valid() && CanBin(mem, bins, x, s) && TreeSize(s)
      modifies `mem, `treemap, `treebins, `bins
      ensures Valid() && bins.binned == old(bins.binned)[x := s] && LinksOnly(old(mem), mem, bins.binned)
    {
      hide TableOk, LinksOnly, Bit, MarkBit, ClearBit, CanBin, TreeIndex, TreeSize, KeyAt, Walking, WithChained, WithNode, Width, Turn, CanAttach, TreeOf,
        Attached, AttachedRoot, Pow2, LeftShift;
      ghost var b, m0 := bins, mem;
      TreeParts(b);
      InsertStart(mem, smallmap, treemap, bins, x, s);
      var i := TreeIndex(s);
      mem := mem[x + 28 := i];
      mem := mem[x + 16 := 0];
      mem := mem[x + 20 := 0];
      if !Bit(treemap, i) {
        InsertRootTable(m0, smallmap, treemap, b, x, s);
        LinkRoot(x, i);
        bins := WithNode(b, x, s, AttachedRoot(TreeOf(b), s, x));
        return;
      }
      var t := treebins[i];
      var key: nat := (s * Pow2(LeftShift(i))) % WORD_SPAN;
      ghost var a := b.binned[t];
      while true
        invariant mem == Blank(m0, x, i) && bins == b && treemap == old(treemap) && treebins == b.roots
        invariant Walking(b, s, a, t, key) && a in b.sh.depth && b.sh.depth[a] <= 32
        decreases 32 - b.sh.depth[a]
      {
        InsertRead(m0, smallmap, treemap, b, x, s, a, t, key);
        if HeadSize(mem[t + 4]) != s {
          var c := t + 16 + 4 * (key / 0x8000_0000);
          key := (key * 2) % WORD_SPAN;
          if mem[c] != 0 {
            t := mem[c];
            a := b.binned[t];
          } else {
            InsertLeafTable(m0, smallmap, treemap, b, x, s, a);
            LinkLeaf(x, c, t);
            bins := WithNode(b, x, s, Attached(TreeOf(b), s, x, a));
            return;
          }
        } else {
          InsertChainTable(m0, smallmap, treemap, b, x, s);
          LinkChained(x, t);
          bins := WithChained(b, x, s);
          return;
        }
      }
    }

    /** The rightmost descendant of x: the leaf r, and the child slot rp that holds it. */
    method RightmostLeaf(x: int, rp0: int, r0: int, ghost s: nat) returns (r: int, rp: int, ghost rk: nat)
      requires Valid() && s in bins.sh.depth && s in bins.ring && |bins.ring[s]| > 0 && x == bins.ring[s][0]
      requires rp0 == x + 16 || rp0 == x + 20
      requires rp0 in mem && r0 == mem[rp0] != 0
      ensures Descendant(bins, s, rk, r, rp) && Leaf(bins.sh, rk)
    {
      hide TableOk, Leaf, Descendant;
      r, rp := r0, rp0;
      DescendStart(mem, smallmap, treemap, bins, s, rp0);
      rk := bins.binned[r];
      while true
        invariant Descendant(bins, s, rk, r, rp) && rk in bins.sh.depth && bins.sh.depth[rk] <= 32
        decreases 32 - bins.sh.depth[rk]
      {
        DescendRead(mem, smallmap, treemap, bins, s, rk, r, rp);
        var cp := r + 20;
        if mem[cp] == 0 {
          cp := r + 16;
          if mem[cp] == 0 {
            return;
          }
        }
        rp := cp;
        r := mem[rp];
        rk := bins.binned[r];
      }
    }

    /** unlink_large_chunk, upwards: whatever points at node x is pointed at r. */
    method RelinkParent(x: int, xp: int, r: int)
      requires x + 28 in mem && 0 <= mem[x + 28] < NBINS == |treebins|
      requires treebins[mem[x + 28]] != x ==> xp + 16 in mem && xp + 20 in mem
      modifies `mem, `treemap, `treebins
      ensures var i := old(mem)[x + 28]; var isRoot := old(treebins)[i] == x;
        && treebins == (if isRoot then old(treebins)[i := r] else old(treebins))
        && treemap == (if isRoot && r == 0 then ClearBit(old(treemap), i) else old(treemap))
        && mem == RelinkedUp(old(mem), isRoot, x, xp, r)
    {
      hide MarkBit, ClearBit;
      var i := mem[x + 28];
      if treebins[i] == x {
        treebins := treebins[i := r];
        if r == 0 {
          treemap := ClearBit(treemap, i);
        }
      } else if mem[xp + 16] == x {
        mem := mem[xp + 16 := r];
      } else {
        mem := mem[xp + 20 := r];
      }
    }

    /** unlink_large_chunk, downwards: r gets the parent and the children of x. */
    method RelinkChildren(x: int, xp: int, r: int)
      requires x + 16 in mem && x + 20 in mem
      modifies `mem
      ensures mem == RelinkedDown(old(mem), x, xp, r)
    {
      mem := mem[r + 24 := xp];
      var c0 := mem[x + 16];
      if c0 != 0 {
        mem := mem[r + 16 := c0];
        mem := mem[c0 + 24 := r];
      }
      var c1 := mem[x + 20];
      if c1 != 0 {
        mem := mem[r + 20 := c1];
        mem := mem[c1 + 24 := r];
      }
    }

    /** unlink_large_chunk for a chunk with others of its size: X->bk replaces it. */
    method UnlinkFromRing(x: int)
      requires Valid() && x in bins.binned && bins.binned[x] >= MIN_LARGE_SIZE
      requires x + 12 in mem && mem[x + 12] != x
      modifies `mem, `treemap, `treebins, `bins
      ensures Valid() && bins.binned == old(bins.binned) - {x} && LinksOnly(old(mem), mem, old(bins.binned))
    {
      hide TableOk, LinksOnly, Bit, MarkBit, ClearBit, TreeIndex, RelinkedUp, RelinkedDown, WithoutChained;
      ghost var s := bins.binned[x];
      ghost var k := UnlinkReads(mem, smallmap, treemap, bins, x);
      ghost var m0 := mem;
      var xp := mem[x + 24];
      var r := mem[x + 12];
      var f := mem[x + 8];
      mem := mem[f + 12 := r];
      mem := mem[r + 8 := f];
      if xp != 0 {
        ghost var b' := UnlinkHeadTable(m0, smallmap, treemap, bins, s);
        RelinkedKeys(mem, treebins[mem[x + 28]] == x, x, xp, r);
        RelinkParent(x, xp, r);
        RelinkChildren(x, xp, r);
        bins := b';
      } else {
        UnlinkChainTable(m0, smallmap, treemap, bins, s, k);
        bins := WithoutChained(bins, s, k);
      }
    }

    /** unlink_large_chunk for the only chunk of its size: a leaf below it, if any, replaces it. */
    method UnlinkSole(x: int)
      requires Valid() && x in bins.binned && bins.binned[x] >= MIN_LARGE_SIZE
      requires x + 12 in mem && mem[x + 12] == x
      modifies `mem, `treemap, `treebins, `bins
      ensures Valid() && bins.binned == old(bins.binned) - {x} && LinksOnly(old(mem), mem, old(bins.binned))
    {
      hide TableOk, LinksOnly, Bit, MarkBit, ClearBit, TreeIndex, RelinkedUp, RelinkedDown, Descendant, Leaf;
      ghost var s := bins.binned[x];
      ghost var k := UnlinkReads(mem, smallmap, treemap, bins, x);
      ghost var m0 := mem;
      var xp := mem[x + 24];
      var rp := x + 20;
      var r := mem[rp];
      if r == 0 {
        rp := x + 16;
        r := mem[rp];
      }
      if r != 0 {
        ghost var rk;
        r, rp, rk := RightmostLeaf(x, rp, r, s);
        ghost var b' := ReplacedBins(m0, smallmap, treemap, bins, s, rk, r, rp);
        mem := mem[rp := 0];
        RelinkedKeys(mem, treebins[mem[x + 28]] == x, x, xp, r);
        RelinkParent(x, xp, r);
        RelinkChildren(x, xp, r);
        bins := b';
      } else {
        BareLeaf(m0, smallmap, treemap, bins, s);
        ghost var b' := UnlinkLeafTable(m0, smallmap, treemap, bins, s);
        RelinkParent(x, xp, 0);
        bins := b';
      }
    }

    /** unlink_large_chunk */
    method UnlinkLargeChunk(x: int)
      requires Valid() && x in bins.binned && bins.binned[x] >= MIN_LARGE_SIZE
      modifies `mem, `treemap, `treebins, `bins
      ensures Valid() && bins.binned == old(bins.binned) - {x} && LinksOnly(old(mem), mem, old(bins.binned))
    {
      hide TableOk, LinksOnly;
      ghost var k := UnlinkReads(mem, smallmap, treemap, bins, x);
      if mem[x + 12] != x {
        UnlinkFromRing(x);
      } else {
        UnlinkSole(x);
      }
    }

    /** insert_chunk */
    method InsertChunk(p: int, s: nat)
      requires Valid() && CanBin(mem, bins, p, s) && s < WORD_SPAN
      modifies `mem, `smallmap, `treemap, `treebins, `bins
      ensures Valid() && bins.binned == old(bins.binned)[p := s] && LinksOnly(old(mem), mem, bins.binned)
    {
      hide TableOk, LinksOnly, CanBin;
      if IsSmall(s) {
        InsertSmallChunk(p, s);
      } else {
        InsertLargeChunk(p, s);
      }
    }

    /** unlink_chunk */
    method UnlinkChunk(p: int, s: nat)
      requires Valid() && p in bins.binned && bins.binned[p] == s
      modifies `mem, `smallmap, `treemap, `treebins, `bins
      ensures Valid() && bins.binned == old(bins.binned) - {p} && LinksOnly(old(mem), mem, old(bins.binned))
    {
      hide TableOk, LinksOnly;
      if IsSmall(s) {
        UnlinkSmallChunk(p, s);
      } else {
        UnlinkLargeChunk(p);
      }
    }

    /** The loop of bin_find: from `from` along fd and back. */
    method FindAround(x: int, from: int, ghost r: seq<int>) returns (found: bool)
      requires Around(mem, r) && |r| > 0 && from == r[0]
      ensures found <==> x in r
    {
      hide Around;
      var p := from;
      ghost var k := 0;
      AroundStep(mem, r, 0);
      while true
        invariant 0 <= k < |r| && p == r[k] && forall j :: 0 <= j < k ==> r[j] != x
        decreases |r| - k
      {
        AroundStep(mem, r, k);
        if p == x {
          return true;
        }
        p := mem[p + 8];
        if p == from {
          return false;
        }
        k := k + 1;
      }
    }

    /** The walk of bin_find: the tree node of size s, or 0. */
    method FindNode(s: nat) returns (t: int)
      requires Valid() && TreeSize(s)
      ensures s in bins.sh.depth <==> t != 0
      ensures t != 0 ==> s in bins.ring && |bins.ring[s]| > 0 && t == bins.ring[s][0]
    {
      hide TableOk, Bit, MarkBit, ClearBit, TreeIndex, TreeSize, KeyAt, Walking, Pow2, LeftShift;
      InsertStart(mem, smallmap, treemap, bins, 0, s);
      var i := TreeIndex(s);
      t := 0;
      if !Bit(treemap, i) {
        NotStored(mem, smallmap, treemap, bins, s);
        return;
      }
      t := treebins[i];
      var sizebits: nat := (s * Pow2(LeftShift(i))) % WORD_SPAN;
      ghost var a := bins.binned[t];
      while true
        invariant t != 0 && Walking(bins, s, a, t, sizebits) && a in bins.sh.depth && bins.sh.depth[a] <= 32
        decreases 32 - bins.sh.depth[a]
      {
        FindRead(mem, smallmap, treemap, bins, s, a, t, sizebits);
        if HeadSize(mem[t + 4]) == s {
          return;
        }
        t := mem[t + 16 + 4 * (sizebits / 0x8000_0000)];
        sizebits := (sizebits * 2) % WORD_SPAN;
        if t == 0 {
          return;
        }
        a := bins.binned[t];
      }
    }

    /** bin_find: whether a chunk is in its bin, which is exactly whether it is binned at all. */
    method BinFind(x: int) returns (found: bool)
      requires Valid() && x >= HEAP_MIN && x + 4 in mem && 0 <= mem[x + 4] < WORD_SPAN
      ensures found <==> x in bins.binned
    {
      hide TableOk, Bit, TreeIndex, Around;
      OnItsRing(mem, smallmap, treemap, bins, x);
      var size: nat := HeadSize(mem[x + 4]);
      found := false;
      if IsSmall(size) {
        var sidx := SmallIndex(size);
        SmallMarks(mem, smallmap, treemap, bins, sidx);
        if Bit(smallmap, sidx) {
          AroundSmall(mem, smallmap, treemap, bins, sidx);
          var b := Sentinel(sidx);
          found := FindAround(x, b, [b] + bins.ring[size]);
        }
      } else {
        var t := FindNode(size);
        if t != 0 {
          AroundLarge(mem, smallmap, treemap, bins, size);
          found := FindAround(x, t, bins.ring[size]);
        }
      }
    }

    /** tmalloc_large, first loop: the walk along the bits of nb in its own tree. */
    method WalkTree(nb: nat) returns (t: int, v: int, rsize: int, ghost tk: nat, ghost vk: nat)
      requires Valid() && TreeSize(nb)
      ensures WalkEnd(bins, nb, vk, tk, t) && At0(bins, vk, v) && rsize == Slack(vk, nb)
    {
      hide TableOk, TreeIndex, WalkState, WalkEnd, Pow2, LeftShift;
      var i := TreeIndex(nb);
      WalkBegin(mem, smallmap, treemap, bins, nb);
      t, v, rsize := treebins[i], 0, WORD_SPAN - nb;
      tk, vk := KeyOf(bins, t), 0;
      if t == 0 {
        tk := 0;
        return;
      }
      var sizebits: nat := (nb * Pow2(LeftShift(i))) % WORD_SPAN;
      var rst := 0;
      ghost var rk: nat := 0;
      WalkStateDepth(bins, nb, vk, tk, rk, t, rst, sizebits);
      while true
        invariant WalkState(bins, nb, vk, tk, rk, t, rst, sizebits)
        invariant At0(bins, vk, v) && rsize == Slack(vk, nb) != 0 && tk in bins.sh.depth && bins.sh.depth[tk] <= 32
        decreases 32 - bins.sh.depth[tk]
      {
        WalkNode(mem, smallmap, treemap, bins, nb, vk, tk, rk, t, rst, sizebits);
        var trem := Remainder(HeadSize(mem[t + 4]), nb);
        ghost var vk0 := vk;
        if trem < rsize {
          v, rsize, vk := t, trem, tk;
          if rsize == 0 {
            WalkExact(bins, nb, vk0, tk, rk, t, rst, sizebits);
            return;
          }
        }
        WalkRound(mem, smallmap, treemap, bins, nb, vk0, tk, rk, t, rst, sizebits);
        var rt := mem[t + 20];
        t := mem[t + 16 + 4 * (sizebits / 0x8000_0000)];
        if rt != 0 && rt != t {
          rst, rk := rt, KeyOf(bins, rt);
        }
        if t == 0 {
          t, tk := rst, rk;
          return;
        }
        tk := KeyOf(bins, t);
        sizebits := (sizebits * 2) % WORD_SPAN;
        WalkStateDepth(bins, nb, vk, tk, rk, t, rst, sizebits);
      }
    }

    /** tmalloc_large, second loop: down to the leftmost leaf, keeping the best fit. */
    method WalkLeftmost(nb: nat, t0: int, v0: int, rsize0: int, ghost tk0: nat, ghost vk0: nat)
      returns (v: int, rsize: int, ghost vk: nat)
      requires Valid() && 0 < nb < WORD_SPAN
      requires At0(bins, tk0, t0) && At0(bins, vk0, v0) && Candidate(bins.sh, nb, vk0) && rsize0 == Slack(vk0, nb)
      requires Cover(bins.sh, nb, vk0, tk0) && (tk0 != 0 ==> AllFit(bins.sh, nb, tk0) || vk0 == nb)
      ensures At0(bins, vk, v) && Candidate(bins.sh, nb, vk) && rsize == Slack(vk, nb) && Cover(bins.sh, nb, vk, 0)
    {
      hide TableOk, Cover, AllFit;
      var t := t0;
      v, rsize, vk := v0, rsize0, vk0;
      ghost var tk := tk0;
      ShapeOk(mem, smallmap, treemap, bins);
      if t != 0 { ReadNodeAt(mem, smallmap, treemap, bins, tk, t); }
      while t != 0
        invariant t != 0 ==> tk in bins.sh.depth && bins.sh.depth[tk] <= 32
        invariant At0(bins, tk, t) && At0(bins, vk, v) && Candidate(bins.sh, nb, vk) && rsize == Slack(vk, nb)
        invariant Cover(bins.sh, nb, vk, tk) && (tk != 0 ==> AllFit(bins.sh, nb, tk) || vk == nb)
        decreases if t == 0 then 0 else 33 - bins.sh.depth[tk]
      {
        LeftmostFurther(mem, smallmap, treemap, bins, nb, vk, tk, t);
        if vk != 0 { SizeIn(bins.sh, vk); }
        RemainderCompare(tk, nb, vk);
        var trem := Remainder(HeadSize(mem[t + 4]), nb);
        if trem < rsize {
          rsize, v, vk := trem, t, tk;
        }
        t := if mem[t + 16] != 0 then mem[t + 16] else mem[t + 20];
        tk := KeyOf(bins, t);
      }
    }

    /** The search of tmalloc_large: the best fitting tree chunk. */
    method FindBestFit(nb: nat) returns (v: int, rsize: int)
      requires Valid() && TreeSize(nb)
      ensures v == 0 ==> rsize == WORD_SPAN - nb && forall c :: c in bins.binned && bins.binned[c] >= MIN_LARGE_SIZE ==> bins.binned[c] < nb
      ensures v != 0 ==> v in bins.binned && nb <= bins.binned[v] && rsize == bins.binned[v] - nb && bins.binned[v] >= MIN_LARGE_SIZE
      ensures v != 0 ==> forall c :: c in bins.binned && bins.binned[c] >= nb ==> bins.binned[v] <= bins.binned[c]
    {
      hide TableOk, Cover, AllFit, WalkCover, TreeIndex, LaterBits, Bit;
      var t, rs;
      ghost var tk, vk;
      t, v, rs, tk, vk := WalkTree(nb);
      ShapeOk(mem, smallmap, treemap, bins);
      if t == 0 && v == 0 {
        SearchLater(mem, smallmap, treemap, bins, nb);
        var leftbits := LaterBits(treemap, TreeIndex(nb));
        if leftbits != 0 {
          t := treebins[FirstBit(leftbits)];
          tk := KeyOf(bins, t);
        }
      }
      v, rsize, vk := WalkLeftmost(nb, t, v, rs, tk, vk);
      SearchDone(mem, smallmap, treemap, bins, nb, vk);
      if vk != 0 { SizeIn(bins.sh, vk); }
    }

    /** The search of tmalloc_small: the smallest tree chunk of all. */
    method FindSmallest(nb: nat) returns (v: int, rsize: int)
      requires Valid() && treemap != 0 && 0 < nb < MIN_LARGE_SIZE
      ensures v in bins.binned && rsize == bins.binned[v] - nb && bins.binned[v] >= MIN_LARGE_SIZE
      ensures forall c :: c in bins.binned && bins.binned[c] >= MIN_LARGE_SIZE ==> bins.binned[v] <= bins.binned[c]
    {
      hide TableOk, Cover, AllFit, FirstBit;
      SearchFirst(mem, smallmap, treemap, bins, nb);
      ShapeOk(mem, smallmap, treemap, bins);
      var t := treebins[FirstBit(treemap)];
      ghost var tk := KeyOf(bins, t);
      LeftmostFurther(mem, smallmap, treemap, bins, nb, 0, tk, t);
      v, rsize := t, HeadSize(mem[t + 4]) - nb;
      t := if mem[t + 16] != 0 then mem[t + 16] else mem[t + 20];
      ghost var vk := tk;
      SizeIn(bins.sh, vk);
      v, rsize, vk := WalkLeftmost(nb, t, v, rsize, KeyOf(bins, t), vk);
      SearchDone(mem, smallmap, treemap, bins, nb, vk);
      SomeTree(mem, smallmap, treemap, bins, nb, tk, vk);
      SizeIn(bins.sh, vk);
    }
  }
}

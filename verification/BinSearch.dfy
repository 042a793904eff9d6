/**
 * What the searches read in memory: nodes, their sizes and children, and the roots.
 */
module BinSearch {
  import opened SizeClass
  import opened Rings
  import opened Trie
  import opened TreeLinks
  import opened Bins
  import opened Bitmap
  import opened ChunkMemory
  import opened BinStores
  import opened BestFit

  /** t is the chunk of the node of size k, or both are 0. */
  ghost predicate At0(b: Bins, k: nat, t: int) {
    || (k == 0 && t == 0)
    || (k in b.sh.depth && k in b.ring && |b.ring[k]| > 0 && t == b.ring[k][0] && t in b.binned && b.binned[t] == k && t >= HEAP_MIN)
  }

  function KeyOf(b: Bins, t: int): nat {
    if t in b.binned then b.binned[t] else 0
  }

  /** l and r are the sizes of the children of the node of size k. */
  ghost predicate Kids(sh: Shape, k: nat, l: nat, r: nat) {
    && (l != 0 ==> IsChild(sh, l, k, 0)) && (r != 0 ==> IsChild(sh, r, k, 1))
    && (forall c: nat {:trigger IsChild(sh, c, k, 0)} :: IsChild(sh, c, k, 0) ==> c == l)
    && (forall c: nat {:trigger IsChild(sh, c, k, 1)} :: IsChild(sh, c, k, 1) ==> c == r)
  }

  lemma ShapeOk(m: Memory, smallmap: bv32, treemap: bv32, b: Bins)
    requires TableOk(m, smallmap, treemap, b)
    ensures WellFormed(b.sh) && 0 !in b.sh.depth && |b.roots| == NBINS
  {
    hide BinsInv, WellFormed, Rep, Heads;
    TreePart(b);
    if 0 in b.sh.depth { SizeIn(b.sh, 0); }
  }

  /** Reading the node of size k at t. */
  lemma ReadNodeAt(m: Memory, smallmap: bv32, treemap: bv32, b: Bins, k: nat, t: int)
    requires TableOk(m, smallmap, treemap, b) && k != 0 && At0(b, k, t)
    ensures t + 4 in m && HeadSize(m[t + 4]) == k && t + 16 in m && t + 20 in m
    ensures At0(b, KeyOf(b, m[t + 16]), m[t + 16]) && At0(b, KeyOf(b, m[t + 20]), m[t + 20])
    ensures Kids(b.sh, k, KeyOf(b, m[t + 16]), KeyOf(b, m[t + 20]))
    ensures m[t + 16] != 0 ==> b.sh.depth[KeyOf(b, m[t + 16])] == b.sh.depth[k] + 1
    ensures m[t + 20] != 0 ==> b.sh.depth[KeyOf(b, m[t + 20])] == b.sh.depth[k] + 1
    ensures b.sh.depth[k] <= 32 && TreeSize(k)
  {
    hide BinsInv, Rep, Heads, TreeOf, Turn, Width, Same, WellFormed, TreeInv, MapsOk;
    TreePart(b);
    NodeIs(b, k);
    HeadOf(m, b.binned, t);
    FieldsOf(m, b.lk, b.binned, t);
    var tr := TreeOf(b);
    At(tr, k);
    DepthBound(b, k);
    ZeroNotBinned(b);
    KidKey(b, k, 0);
    KidKey(b, k, 1);
  }

  lemma ZeroNotBinned(b: Bins)
    requires BinsInv(b)
    ensures 0 !in b.binned
  {
    hide TreeInv, TreeOf, Cycle;
    forall c | c in b.binned ensures c >= HEAP_MIN { assert HomeAt(b, c); assert RingAt(b, b.binned[c]); }
  }

  lemma KidKey(b: Bins, k: nat, e: nat)
    requires BinsInv(b) && k in b.sh.depth && e < 2 && Node(TreeOf(b), k) && 0 !in b.binned
    ensures var c := Slot(TreeOf(b), TreeOf(b).nd[k], e);
      && At0(b, KeyOf(b, c), c)
      && (c != 0 ==> IsChild(b.sh, KeyOf(b, c), k, e) && b.sh.depth[KeyOf(b, c)] == b.sh.depth[k] + 1)
      && (KeyOf(b, c) != 0 ==> c != 0)
      && (forall a: nat {:trigger IsChild(b.sh, a, k, e)} :: IsChild(b.sh, a, k, e) ==> a == KeyOf(b, c))
  {
    hide BinsInv, TreeOf, Turn, Width, Same, WellFormed, TreeInv;
    TreePart(b);
    var t := TreeOf(b);
    var c := Slot(t, t.nd[k], e);
    if c != 0 { KidBelow(t, k, e); NodeIs(b, b.binned[c]); }
    forall a: nat | IsChild(b.sh, a, k, e) ensures a == KeyOf(b, c) {
      At(t, a);
      NodeIs(b, a);
    }
  }

  /** The size of a node's chunk minus nb, in 32-bit arithmetic. */
  function Remainder(k: nat, nb: nat): nat
    requires k < WORD_SPAN && nb < WORD_SPAN
  {
    (k + WORD_SPAN - nb) % WORD_SPAN
  }

  /** rsize as the searches keep it: -nb before there is a candidate. */
  function Slack(vk: nat, nb: nat): int {
    if vk == 0 then WORD_SPAN - nb else vk - nb
  }

  /** The unsigned comparison picks exactly the better fits. */
  lemma RemainderCompare(k: nat, nb: nat, vk: nat)
    requires TreeSize(k) && 0 < nb < WORD_SPAN && (vk == 0 || nb <= vk < WORD_SPAN)
    ensures Remainder(k, nb) < Slack(vk, nb) <==> Better(vk, k, nb) != vk
    ensures Remainder(k, nb) < Slack(vk, nb) ==> Slack(k, nb) == Remainder(k, nb) && Better(vk, k, nb) == k
  {}

  /** Going on from the node of size a: the child taken and the fork remembered. */
  lemma WalkFurther(sh: Shape, nb: nat, vk: nat, a: nat, rk: nat, l: nat, r: nat)
    requires WellFormed(sh) && 0 !in sh.depth && a in sh.depth && TreeSize(nb) && Same(nb, a, sh.depth[a]) && a != nb
    requires Kids(sh, a, l, r) && WalkCover(sh, nb, vk, a, rk) && (rk != 0 ==> Fork(sh, nb, rk, sh.depth[a]))
    requires Beaten(vk, a) || a < nb
    ensures sh.depth[a] < Width(nb)
    ensures var e := Turn(nb, sh.depth[a]);
      var c, f := if e == 0 then l else r, if e == 0 && r != 0 then r else rk;
      && (e == 0 || e == 1)
      && WalkCover(sh, nb, vk, c, f) && (f != 0 ==> Fork(sh, nb, f, sh.depth[a] + 1))
      && (c != 0 ==> c in sh.depth && Same(nb, c, sh.depth[a] + 1) && sh.depth[c] == sh.depth[a] + 1)
  {
    hide Same, Turn, Width, WellFormed, TreeIndex, TreeSize;
    var d := sh.depth[a];
    SameSym(nb, a, d);
    if d == Width(nb) { SameFull(nb, a); assert false; }
    TurnsAre(nb, d);
    var e := Turn(nb, d);
    var c, f := if e == 0 then l else r, if e == 0 && r != 0 then r else rk;
    assert StepFrom(sh, nb, a, l, r);
    forall k | k in sh.depth && k >= nb && TreeIndex(k) == TreeIndex(nb) ensures WalkAt(sh, nb, vk, c, f, k) {
      assert WalkAt(sh, nb, vk, a, rk, k);
      if e == 0 { StepLeft(sh, nb, vk, a, rk, l, r, k); } else { StepRight(sh, nb, vk, a, rk, l, r, k); }
    }
    if e == 0 && r != 0 { ForkNew(sh, nb, a, r); }
    if c != 0 {
      ChildUnder(sh, c, a, e);
      SameSym(c, a, d);
      SameTrans(nb, a, c, d);
      SameStep(nb, c, d);
    }
  }

  lemma LessWalk(sh: Shape, nb: nat, vk: nat, a: nat, rk: nat)
    requires WalkCover(sh, nb, vk, a, rk)
    requires nb > 0 && (vk == 0 || nb <= vk)
    ensures WalkCover(sh, nb, Better(vk, a, nb), a, rk)
  {
    forall k | k in sh.depth && k >= nb && TreeIndex(k) == TreeIndex(nb) ensures WalkAt(sh, nb, Better(vk, a, nb), a, rk, k) {
      assert WalkAt(sh, nb, vk, a, rk, k);
    }
  }

  /** The root of nb's tree, where the walk starts. */
  lemma SearchRoot(m: Memory, smallmap: bv32, treemap: bv32, b: Bins, nb: nat)
    requires TableOk(m, smallmap, treemap, b) && TreeSize(nb)
    ensures TreeIndex(nb) < NBINS == |b.roots|
    ensures var t := b.roots[TreeIndex(nb)]; var a := KeyOf(b, t);
      && At0(b, a, t) && WalkCover(b.sh, nb, 0, a, 0)
      && (t != 0 ==> a in b.sh.depth && b.sh.depth[a] == 0 && Same(nb, a, 0))
  {
    hide BinsInv, Rep, Heads, TreeOf, Turn, Width, Same, WellFormed, TreeInv, MapsOk, TreeIndex;
    TreeIndexRange(nb);
    TreePart(b);
    ZeroNotBinned(b);
    var i := TreeIndex(nb);
    RootedAt(TreeOf(b), i);
    var t := b.roots[i];
    var a := KeyOf(b, t);
    if t != 0 { NodeIs(b, a); SameRoot(nb, a); }
    forall k | k in b.sh.depth && k >= nb && TreeIndex(k) == TreeIndex(nb) ensures WalkAt(b.sh, nb, 0, a, 0, k) {
      RootOf(TreeOf(b), k);
      RootUnder(b.sh, a, k);
    }
  }

  /** The search goes on at the lowest marked tree above that of nb. */
  lemma SearchAbove(m: Memory, smallmap: bv32, treemap: bv32, b: Bins, nb: nat, leftbits: bv32)
    requires TableOk(m, smallmap, treemap, b) && TreeSize(nb) && TreeIndex(nb) < NBINS
    requires WalkCover(b.sh, nb, 0, 0, 0)
    requires forall j {:trigger Bit(leftbits, j)} :: 0 <= j < NBINS ==> (Bit(leftbits, j) <==> j > TreeIndex(nb) && Bit(treemap, j))
    ensures leftbits == 0 ==> Cover(b.sh, nb, 0, 0)
    ensures leftbits != 0 ==>
        var i := FirstBit(leftbits);
        && i < NBINS == |b.roots| && b.roots[i] != 0
        && At0(b, KeyOf(b, b.roots[i]), b.roots[i]) && Cover(b.sh, nb, 0, KeyOf(b, b.roots[i])) && AllFit(b.sh, nb, KeyOf(b, b.roots[i]))
  {
    hide BinsInv, Rep, Heads, TreeOf, Turn, Width, Same, WellFormed, TreeInv, TreeIndex, Bit, FirstBit;
    ShapeOk(m, smallmap, treemap, b);
    TreePart(b);
    ZeroNotBinned(b);
    forall k | k in b.sh.depth && TreeIndex(k) > TreeIndex(nb) ensures TreeIndex(k) < NBINS && Bit(leftbits, TreeIndex(k)) {
      RootOf(TreeOf(b), k);
    }
    if leftbits == 0 {
      forall k | k in b.sh.depth ensures TreeIndex(k) <= TreeIndex(nb) {
        if TreeIndex(k) > TreeIndex(nb) { ZeroMap(leftbits, TreeIndex(k)); }
      }
      NextTree(b.sh, nb, 0);
    } else {
      FirstBitSpec(leftbits);
      var i := FirstBit(leftbits);
      RootedAt(TreeOf(b), i);
      var a := KeyOf(b, b.roots[i]);
      NodeIs(b, a);
      NextTree(b.sh, nb, a);
    }
  }

  lemma LaterMarked(treemap: bv32, i: nat)
    requires i < 32
    ensures forall j {:trigger Bit(LaterBits(treemap, i), j)} :: 0 <= j < NBINS ==> (Bit(LaterBits(treemap, i), j) <==> j > i && Bit(treemap, j))
  {
    hide Bit, LaterBits;
    forall j | 0 <= j < NBINS ensures Bit(LaterBits(treemap, i), j) <==> j > i && Bit(treemap, j) { UpdateBits(treemap, i, j); }
  }

  /** The first nonempty tree, where tmalloc_small starts. */
  lemma SearchFirst(m: Memory, smallmap: bv32, treemap: bv32, b: Bins, nb: nat)
    requires TableOk(m, smallmap, treemap, b) && treemap != 0 && nb < MIN_LARGE_SIZE
    ensures var i := FirstBit(treemap);
      && i < NBINS == |b.roots| && b.roots[i] != 0
      && At0(b, KeyOf(b, b.roots[i]), b.roots[i]) && Cover(b.sh, nb, 0, KeyOf(b, b.roots[i])) && AllFit(b.sh, nb, KeyOf(b, b.roots[i]))
  {
    hide BinsInv, Rep, Heads, TreeOf, Turn, Width, Same, WellFormed, TreeInv, TreeIndex, Bit, FirstBit;
    ShapeOk(m, smallmap, treemap, b);
    TreePart(b);
    ZeroNotBinned(b);
    FirstBitSpec(treemap);
    var i := FirstBit(treemap);
    RootedAt(TreeOf(b), i);
    var a := KeyOf(b, b.roots[i]);
    NodeIs(b, a);
    forall j: nat | Under(b.sh, j, a) ensures j >= nb { SizeIn(b.sh, j); }
    forall k | k in b.sh.depth && k >= nb ensures CoverAt(b.sh, nb, 0, a, k) {
      RootOf(TreeOf(b), k);
      SizeIn(b.sh, k);
      assert Bit(treemap, TreeIndex(k));
      if TreeIndex(k) == i { RootUnder(b.sh, a, k); } else { TreeOrder(a, k); }
    }
  }

  /** leftmost_child */
  function Leftmost(m: Memory, t: int): int
    requires t + 16 in m && t + 20 in m
  {
    if m[t + 16] != 0 then m[t + 16] else m[t + 20]
  }

  /** One step of the walk to the leftmost leaf. */
  lemma LeftmostFurther(m: Memory, smallmap: bv32, treemap: bv32, b: Bins, nb: nat, vk: nat, k: nat, t: int)
    requires TableOk(m, smallmap, treemap, b) && k != 0 && At0(b, k, t) && 0 < nb
    requires Cover(b.sh, nb, vk, k) && (AllFit(b.sh, nb, k) || vk == nb) && Candidate(b.sh, nb, vk)
    ensures t + 4 in m && HeadSize(m[t + 4]) == k && t + 16 in m && t + 20 in m && TreeSize(k)
    ensures var c := Leftmost(m, t); var l := KeyOf(b, c);
      && At0(b, l, c) && Cover(b.sh, nb, Better(vk, k, nb), l) && Candidate(b.sh, nb, Better(vk, k, nb))
      && (l != 0 ==> AllFit(b.sh, nb, l) || Better(vk, k, nb) == nb)
      && (c != 0 ==> l != 0 && l in b.sh.depth && b.sh.depth[k] < b.sh.depth[l] <= 32)
  {
    hide BinsInv, Rep, Heads, Turn, Width, Same, WellFormed, MapsOk;
    ShapeOk(m, smallmap, treemap, b);
    ReadNodeAt(m, smallmap, treemap, b, k, t);
    var c := Leftmost(m, t);
    if c != 0 { ReadNodeAt(m, smallmap, treemap, b, KeyOf(b, c), c); }
    StepLeftmost(b.sh, nb, vk, k, KeyOf(b, c), if m[t + 16] != 0 then 0 else 1);
  }

  /** What the end of a search means for the bins. */
  lemma SearchDone(m: Memory, smallmap: bv32, treemap: bv32, b: Bins, nb: nat, vk: nat)
    requires TableOk(m, smallmap, treemap, b) && Cover(b.sh, nb, vk, 0)
    ensures forall c :: c in b.binned && b.binned[c] >= MIN_LARGE_SIZE && b.binned[c] >= nb ==> vk != 0 && vk <= b.binned[c]
  {
    hide BinsInv, Rep, Heads, MapsOk, Cover;
    forall c | c in b.binned && b.binned[c] >= MIN_LARGE_SIZE && b.binned[c] >= nb ensures vk != 0 && vk <= b.binned[c] {
      var k := Locate(m, b, c);
      CoverDone(b.sh, nb, vk, b.binned[c]);
    }
  }

  /** The state of the first loop of tmalloc_large at a node. */
  ghost predicate WalkState(b: Bins, nb: nat, vk: nat, tk: nat, rk: nat, t: int, rst: int, sizebits: nat) {
    && TreeSize(nb) && TreeIndex(nb) < NBINS
    && tk != 0 && At0(b, tk, t) && At0(b, rk, rst) && tk in b.sh.depth && b.sh.depth[tk] <= 32
    && Candidate(b.sh, nb, vk) && (vk != 0 ==> TreeIndex(vk) == TreeIndex(nb))
    && WalkCover(b.sh, nb, vk, tk, rk) && (rk != 0 ==> Fork(b.sh, nb, rk, b.sh.depth[tk]))
    && Same(nb, tk, b.sh.depth[tk]) && sizebits == KeyAt(nb, b.sh.depth[tk])
  }

  /** What the first loop may leave behind: a place to go on from, or an empty-handed walk. */
  ghost predicate WalkEnd(b: Bins, nb: nat, vk: nat, tk: nat, t: int) {
    && At0(b, tk, t) && Candidate(b.sh, nb, vk)
    && if tk == 0 && vk == 0 then WalkCover(b.sh, nb, 0, 0, 0)
       else Cover(b.sh, nb, vk, tk) && (tk != 0 ==> AllFit(b.sh, nb, tk) || vk == nb)
  }

  lemma WalkBegin(m: Memory, smallmap: bv32, treemap: bv32, b: Bins, nb: nat)
    requires TableOk(m, smallmap, treemap, b) && TreeSize(nb)
    ensures TreeIndex(nb) < NBINS == |b.roots|
    ensures var t := b.roots[TreeIndex(nb)]; var a := KeyOf(b, t);
      && (t == 0 ==> WalkEnd(b, nb, 0, 0, 0))
      && (t != 0 ==> WalkState(b, nb, 0, a, 0, t, 0, (nb * Pow2(LeftShift(TreeIndex(nb)))) % WORD_SPAN))
  {
    hide TableOk, TreeIndex, WalkCover, Fork, Same, Pow2, LeftShift;
    SearchRoot(m, smallmap, treemap, b, nb);
    ShapeOk(m, smallmap, treemap, b);
    if b.roots[TreeIndex(nb)] == 0 { ZeroKey(m, smallmap, treemap, b); }
  }

  lemma ZeroKey(m: Memory, smallmap: bv32, treemap: bv32, b: Bins)
    requires TableOk(m, smallmap, treemap, b)
    ensures KeyOf(b, 0) == 0
  {
    hide BinsInv, Rep, Heads, MapsOk;
    ZeroNotBinned(b);
  }

  /** An exact fit ends the walk. */
  lemma WalkExact(b: Bins, nb: nat, vk: nat, tk: nat, rk: nat, t: int, rst: int, sizebits: nat)
    requires WalkState(b, nb, vk, tk, rk, t, rst, sizebits) && tk == nb
    ensures WalkEnd(b, nb, nb, tk, t)
  {
    forall k | k in b.sh.depth && k >= nb ensures CoverAt(b.sh, nb, nb, tk, k) {}
  }

  /** The walk has no child to go to. */
  lemma WalkStops(b: Bins, nb: nat, vk: nat, rk: nat, rst: int, d: nat)
    requires WellFormed(b.sh) && TreeSize(nb) && 0 !in b.sh.depth
    requires WalkCover(b.sh, nb, vk, 0, rk) && (rk != 0 ==> Fork(b.sh, nb, rk, d)) && At0(b, rk, rst)
    requires Candidate(b.sh, nb, vk) && (vk != 0 ==> TreeIndex(vk) == TreeIndex(nb))
    ensures WalkEnd(b, nb, vk, rk, rst)
  {
    hide TreeIndex, WalkCover, Cover, Fork, AllFit, WellFormed;
    if vk != 0 || rk != 0 { WalkDone(b.sh, nb, vk, rk, d); }
  }

  lemma BetterIs(b: Bins, nb: nat, vk: nat, tk: nat)
    requires nb > 0 && tk in b.sh.depth && Candidate(b.sh, nb, vk) && TreeIndex(tk) == TreeIndex(nb) && (vk != 0 ==> TreeIndex(vk) == TreeIndex(nb))
    ensures var v' := Better(vk, tk, nb);
      Candidate(b.sh, nb, v') && (v' != 0 ==> TreeIndex(v') == TreeIndex(nb)) && (Beaten(v', tk) || tk < nb)
  {}

  /** One round of the first loop, the candidate updated and not exact. */
  lemma WalkRound(m: Memory, smallmap: bv32, treemap: bv32, b: Bins, nb: nat, vk: nat, tk: nat, rk: nat, t: int, rst: int, sizebits: nat)
    requires TableOk(m, smallmap, treemap, b) && WalkState(b, nb, vk, tk, rk, t, rst, sizebits) && tk != nb
    ensures t + 16 in m && t + 20 in m
    ensures var e := sizebits / 0x8000_0000;
      && (e == 0 || e == 1)
      && var c, rt := m[t + 16 + 4 * e], m[t + 20];
      var rst', rk', v' := if rt != 0 && rt != c then rt else rst, if rt != 0 && rt != c then KeyOf(b, rt) else rk, Better(vk, tk, nb);
      if c != 0 then
        && WalkState(b, nb, v', KeyOf(b, c), rk', c, rst', (sizebits * 2) % WORD_SPAN)
        && b.sh.depth[KeyOf(b, c)] == b.sh.depth[tk] + 1
      else WalkEnd(b, nb, v', rk', rst')
  {
    hide TableOk, TreeIndex, WalkCover, Cover, Fork, Same, AllFit, WellFormed, Turn, Width, KeyAt, WalkEnd;
    ShapeOk(m, smallmap, treemap, b);
    ReadNodeAt(m, smallmap, treemap, b, tk, t);
    var d, v' := b.sh.depth[tk], Better(vk, tk, nb);
    SameIndex(nb, tk, d);
    BetterIs(b, nb, vk, tk);
    LessWalk(b.sh, nb, vk, tk, rk);
    var l, r := KeyOf(b, m[t + 16]), KeyOf(b, m[t + 20]);
    WalkFurther(b.sh, nb, v', tk, rk, l, r);
    KeyTurn(nb, d);
    KeyNext(nb, d);
    var e := sizebits / 0x8000_0000;
    var c, rt := m[t + 16 + 4 * e], m[t + 20];
    var rst', rk' := if rt != 0 && rt != c then rt else rst, if rt != 0 && rt != c then KeyOf(b, rt) else rk;
    if c != 0 {
      ReadNodeAt(m, smallmap, treemap, b, KeyOf(b, c), c);
    } else {
      WalkStops(b, nb, v', rk', rst', d + 1);
    }
  }

  lemma SameIndex(s: nat, t: nat, d: nat)
    requires Same(s, t, d)
    ensures TreeIndex(s) == TreeIndex(t)
  {}
}

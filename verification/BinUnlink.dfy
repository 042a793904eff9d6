/**
 * unlink_large_chunk case by case: a chunk off the tree, a tree node with others of its
 * size, a leaf, and an interior node whose place the rightmost leaf below it takes.
 */
module BinUnlink {
  import opened SizeClass
  import opened Rings
  import opened Trie
  import opened TreeLinks
  import opened Bins
  import opened Bitmap
  import opened ChunkMemory
  import opened BinStores

  lemma LeafBare(t: Tree, k: nat)
    requires TreeInv(t) && k in t.sh.depth && Leaf(t.sh, k)
    ensures Hung(t, k) && t.left[t.nd[k]] == 0 && t.right[t.nd[k]] == 0
  {
    hide Same, Turn, Width, TreeSize, TreeIndex, TreeInv, WellFormed;
    At(t, k);
  }

  lemma ReplaceState(b: Bins, s: nat, rk: nat)
    requires BinsInv(b) && s in b.sh.depth && rk in b.sh.depth && rk != s && Under(b.sh, rk, s) && Leaf(b.sh, rk)
    ensures Hung(TreeOf(b), rk) && rk in b.ring && |b.ring[rk]| > 0 && s in b.ring && |b.ring[s]| > 0
    ensures var t1 := Detached(TreeOf(b), rk); var r := b.ring[rk][0];
      && CanRehang(t1, s, rk, r) && r in b.binned && b.binned[r] == rk && rk >= MIN_LARGE_SIZE
      && r in t1.left && r in t1.right && t1.left[r] == 0 && t1.right[r] == 0
      && t1.nd == TreeOf(b).nd - {rk} && NodesIn(t1, b.binned) && t1.key == b.binned - {r}
      && t1.sh == Without(b.sh, rk) && s in t1.nd && t1.nd[s] == b.ring[s][0] != r
      && b.sh.depth[rk] > 0
  {
    hide BinsInv, TreeInv, TreeOf, TreeIndex, Turn, Width, Same, Placed, WellFormed;
    TreePart(b);
    NodeIs(b, rk);
    NodeIs(b, s);
    StepDetach(b, rk);
    var t1 := Detached(TreeOf(b), rk);
    LeafBare(TreeOf(b), rk);
    HangPlace(TreeOf(b), rk);
    DeeperLeaf(b, s, rk);
    At(t1, s);
    WellFormedIn(t1);
    At(TreeOf(b), rk);
  }

  lemma DeeperLeaf(b: Bins, s: nat, rk: nat)
    requires BinsInv(b) && s in b.sh.depth && rk in b.sh.depth && rk != s && Under(b.sh, rk, s)
    ensures b.sh.depth[rk] > 0
  {
    hide BinsInv, TreeInv, TreeOf, TreeIndex, TreeSize, Turn, Width, Same, Placed, WellFormed;
    TreePart(b);
    var c := UnderSplit(b.sh, rk, s);
  }

  lemma StepReplace(b: Bins, s: nat, rk: nat)
    requires BinsInv(b) && s in b.sh.depth && rk in b.sh.depth && rk != s && Under(b.sh, rk, s) && Leaf(b.sh, rk)
    requires s in b.ring && |b.ring[s]| == 1
    requires Hung(TreeOf(b), rk) && rk in b.ring && |b.ring[rk]| > 0
    requires CanRehang(Detached(TreeOf(b), rk), s, rk, b.ring[rk][0])
    ensures var t := Rehung(Detached(TreeOf(b), rk), s, rk, b.ring[rk][0]);
      && TreeStep(b, t, s) && t.key == b.binned - {b.ring[s][0]} && t.nd == TreeOf(b).nd - {s} && s !in t.sh.depth
  {
    hide BinsInv, TreeInv, TreeOf, TreeIndex, TreeSize, Turn, Width, Same, Placed, WellFormed;
    ReplaceState(b, s, rk);
    TreePart(b);
    NodeIs(b, rk);
    NodeIs(b, s);
    var t1, r := Detached(TreeOf(b), rk), b.ring[rk][0];
    Rehang(t1, s, rk, r);
    var t := Rehung(t1, s, rk, r);
    assert t.key == b.binned - {b.ring[s][0]};
    assert t.nd == TreeOf(b).nd - {s};
    forall c | c in b.binned && b.binned[c] != s && Bare(TreeOf(b), c) ensures Bare(t, c) {
      DetachedBare(TreeOf(b), rk, c);
      NodeNotBare(TreeOf(b), rk);
      RehungBare(t1, s, rk, r, c);
    }
  }

  // ---------------------------------------------------------------- effect on the table

  ghost predicate Unlinked(m: Memory, m': Memory, smallmap: bv32, treemap: bv32, b: Bins, b': Bins, x: int) {
    && LinksOnly(m, m', b.binned) && b'.binned == b.binned - {x}
    && TableOk(m', smallmap, treemap, b')
  }

  /** The cut ring: F->bk = R; R->fd = F */
  function CutRing(m: Memory, f: int, r: int): Memory {
    m[f + 12 := r][r + 8 := f]
  }

  lemma CutStores(m: Memory, b: Bins, s: nat, k: nat)
    requires Rep(m, b.lk, b.binned) && Spaced(b.binned) && BinsInv(b)
    requires s in b.sh.depth && s in b.ring && k < |b.ring[s]| && b.ring[s][k] in b.lk.fd && b.ring[s][k] in b.lk.bk
    ensures var f, r := b.lk.fd[b.ring[s][k]], b.lk.bk[b.ring[s][k]];
      && Tracks(m, CutRing(m, f, r), b.lk.(fd := b.lk.fd[r := f], bk := b.lk.bk[f := r]), b.binned)
      && r == b.ring[s][Prev(k, |b.ring[s]|)] && r in b.binned && (r == b.ring[s][k] <==> |b.ring[s]| == 1)
  {
    hide BinsInv, Rep, Tracks, LinksOnly, Cycle, TreeIndex;
    var f, r := b.lk.fd[b.ring[s][k]], b.lk.bk[b.ring[s][k]];
    ChainMembers(b, s);
    CycleStep(b.lk.fd, b.lk.bk, b.ring[s], k);
    TrackNothing(m, b.lk, b.binned);
    Track(m, m, b.lk, b.binned, f, Bk, r);
    Track(m, m[f + 12 := r], SetLink(b.lk, f, Bk, r), b.binned, r, Fd, f);
  }

  lemma UnlinkChainTable(m: Memory, smallmap: bv32, treemap: bv32, b: Bins, s: nat, k: nat)
    requires TableOk(m, smallmap, treemap, b) && s in b.sh.depth && s in b.ring && 0 < k < |b.ring[s]|
    requires b.ring[s][k] in b.lk.fd && b.ring[s][k] in b.lk.bk
    ensures var x := b.ring[s][k];
      && Unlinked(m, CutRing(m, b.lk.fd[x], b.lk.bk[x]), smallmap, treemap, b, WithoutChained(b, s, k), x)
      && WithoutChained(b, s, k).roots == b.roots
  {
    hide BinsInv, Rep, LinksOnly, Bit, MarkBit, ClearBit, CutRing, Heads, Spaced;
    var x := b.ring[s][k];
    CutStores(m, b, s, k);
    UnlinkChained(b, s, k);
    NodeIs(b, s);
    LargeRings(b, s);
    MarkTree(smallmap, treemap, b, WithoutChained(b, s, k), 0);
    DropChunk(m, CutRing(m, b.lk.fd[x], b.lk.bk[x]), WithoutChained(b, s, k).lk, b.binned, x);
  }

  lemma SizeKey(b: Bins, s: nat)
    requires BinsInv(b) && s in b.sh.depth
    ensures s >= MIN_LARGE_SIZE && TreeIndex(s) < NBINS == |b.roots|
  {
    hide BinsInv;
    NodeIs(b, s);
    TreePart(b);
    TreeIndexRange(s);
  }

  ghost predicate IndexWord(m: Memory, x: int, s: nat) {
    x + 28 in m && m[x + 28] == TreeIndex(s)
  }

  lemma IndexOf(m0: Memory, m: Memory, lk: Links, b: Bins, s: nat)
    requires Tracks(m0, m, lk, b.binned) && BinsInv(b) && s in b.sh.depth && lk.idx == b.lk.idx
    ensures s in b.ring && |b.ring[s]| > 0 && IndexWord(m, b.ring[s][0], s)
  {
    hide BinsInv, TreeIndex, Rep, Cycle;
    NodeIs(b, s);
    ChainMembers(b, s);
    assert b.ring[s][0] in b.lk.idx;
    FieldsOf(m, lk, b.binned, b.ring[s][0]);
  }

  /** What unlink_large_chunk reads of a tree node. */
  ghost predicate NodeReads(m: Memory, b: Bins, s: nat, x: int) {
    && x in b.lk.par && b.lk.par[x] != 0 && TreeIndex(s) < NBINS == |b.roots|
    && (b.roots[TreeIndex(s)] != x ==> b.lk.par[x] + 16 in m && b.lk.par[x] + 20 in m)
    && x + 16 in m && x + 20 in m
  }

  /** The node of s has others of its size: the last of them replaces it. */
  lemma UnlinkHeadTable(m: Memory, smallmap: bv32, treemap: bv32, b: Bins, s: nat) returns (b': Bins)
    requires TableOk(m, smallmap, treemap, b) && s in b.sh.depth && s in b.ring && |b.ring[s]| > 1
    requires b.ring[s][0] in b.lk.fd && b.ring[s][0] in b.lk.bk
    ensures NodeReads(m, b, s, b.ring[s][0])
    ensures var x := b.ring[s][0]; var xp, isRoot := b.lk.par[x], b.roots[TreeIndex(s)] == x;
      var r := b.lk.bk[x];
      var m' := RelinkedDown(RelinkedUp(CutRing(m, b.lk.fd[x], r), isRoot, x, xp, r), x, xp, r);
      && r != 0 && IndexWord(CutRing(m, b.lk.fd[x], r), x, s) && Unlinked(m, m', smallmap, treemap, b, b', x)
      && b'.roots == if isRoot then b.roots[TreeIndex(s) := r] else b.roots
  {
    hide BinsInv, Rep, LinksOnly, Bit, MarkBit, ClearBit, CutRing, Heads, Spaced, TreeOf, TreeIndex, RelinkedUp, RelinkedDown, Hung, Tracks, CanRehang, TreeStep, Holds;
    TreePart(b);
    NodeIs(b, s);
    SizeKey(b, s);
    var x := b.ring[s][0];
    CutStores(m, b, s, 0);
    LastChained(b, s);
    StepPromote(b, s);
    var r := b.lk.bk[x];
    var lk1 := b.lk.(fd := b.lk.fd[r := b.lk.fd[x]], bk := b.lk.bk[b.lk.fd[x] := r]);
    BinNodes(b);
    HoldsLinks(b.lk, lk1, TreeOf(b));
    var t := Rehung(TreeOf(b), s, s, r);
    RehangStores(m, CutRing(m, b.lk.fd[x], r), lk1, b.binned, TreeOf(b), s, s, r, t);
    CutKeys(m, b, s, 0);
    IndexOf(m, CutRing(m, b.lk.fd[x], r), lk1, b, s);
    UnlinkHead(b, s, t);
    LargeRings(b, s);
    b' := WithoutHead(b, s, t);
    MarkTree(smallmap, treemap, b, b', TreeIndex(s));
    var m' := RelinkedDown(RelinkedUp(CutRing(m, b.lk.fd[x], r), b.roots[TreeIndex(s)] == x, x, b.lk.par[x], r), x, b.lk.par[x], r);
    assert b'.lk == lk1.(left := t.left, right := t.right, par := t.par);
    TrackedLinks(m, m', b'.lk, b.binned);
    DropChunk(m, m', b'.lk, b.binned, x);
  }

  lemma CutKeys(m: Memory, b: Bins, s: nat, k: nat)
    requires Rep(m, b.lk, b.binned) && Spaced(b.binned) && BinsInv(b)
    requires s in b.sh.depth && s in b.ring && k < |b.ring[s]| && b.ring[s][k] in b.lk.fd && b.ring[s][k] in b.lk.bk
    ensures CutRing(m, b.lk.fd[b.ring[s][k]], b.lk.bk[b.ring[s][k]]).Keys == m.Keys
  {
    hide BinsInv, Rep, CutRing, Spaced;
    CutStores(m, b, s, k);
  }

  lemma HoldsLinks(lk: Links, lk': Links, t: Tree)
    requires Holds(lk, t) && lk'.left == lk.left && lk'.right == lk.right && lk'.par == lk.par
    ensures Holds(lk', t)
  {}

  lemma TrackedLinks(m: Memory, m': Memory, lk: Links, sizes: map<int, nat>)
    requires Tracks(m, m', lk, sizes)
    ensures LinksOnly(m, m', sizes)
  {}

  /** The node of s is a leaf and the only chunk of its size. */
  lemma UnlinkLeafTable(m: Memory, smallmap: bv32, treemap: bv32, b: Bins, s: nat) returns (b': Bins)
    requires TableOk(m, smallmap, treemap, b) && s in b.sh.depth && s in b.ring && |b.ring[s]| == 1 && Leaf(b.sh, s)
    ensures NodeReads(m, b, s, b.ring[s][0])
    ensures var x := b.ring[s][0]; var xp, isRoot := b.lk.par[x], b.roots[TreeIndex(s)] == x;
      && Unlinked(m, RelinkedUp(m, isRoot, x, xp, 0), smallmap, if isRoot then ClearBit(treemap, TreeIndex(s)) else treemap, b, b', x)
      && b'.roots == if isRoot then b.roots[TreeIndex(s) := 0] else b.roots
  {
    hide BinsInv, Rep, LinksOnly, Bit, MarkBit, ClearBit, Heads, TreeOf, TreeIndex, RelinkedUp, Hung, Tracks, TreeStep, Holds, UpLinks, Leaf, Detached;
    TreePart(b);
    NodeIs(b, s);
    SizeKey(b, s);
    var x := b.ring[s][0];
    StepDetach(b, s);
    BinNodes(b);
    TrackNothing(m, b.lk, b.binned);
    RelinkUpStores(m, m, b.lk, b.binned, TreeOf(b), s, 0);
    DetachStores(m, m, b.lk, b.binned, TreeOf(b), s);
    HangPlace(TreeOf(b), s);
    FieldsOf(m, b.lk, b.binned, x);
    var t := Detached(TreeOf(b), s);
    UnlinkNode(b, s, t);
    LargeRings(b, s);
    b' := WithoutNode(b, s, t);
    MarkTree(smallmap, treemap, b, b', TreeIndex(s));
    var m' := RelinkedUp(m, b.roots[TreeIndex(s)] == x, x, b.lk.par[x], 0);
    assert b'.lk == b.lk.(left := t.left, right := t.right, par := t.par);
    TrackedLinks(m, m', b'.lk, b.binned);
    DropChunk(m, m', b'.lk, b.binned, x);
  }

  /** The node of s is interior and the only chunk of its size: the leaf of size rk replaces it. */
  lemma UnlinkInnerTable(m: Memory, smallmap: bv32, treemap: bv32, b: Bins, s: nat, rk: nat) returns (b': Bins)
    requires TableOk(m, smallmap, treemap, b) && s in b.sh.depth && s in b.ring && |b.ring[s]| == 1
    requires rk in b.sh.depth && rk != s && Under(b.sh, rk, s) && Leaf(b.sh, rk) && rk in b.ring && |b.ring[rk]| > 0
    requires rk in b.sh.up && b.sh.up[rk] in b.ring && |b.ring[b.sh.up[rk]]| > 0 && b.sh.up[rk] in b.sh.depth && b.sh.depth[b.sh.up[rk]] < Width(rk)
    ensures NodeReads(m, b, s, b.ring[s][0])
    ensures var x := b.ring[s][0]; var xp, isRoot := b.lk.par[x], b.roots[TreeIndex(s)] == x;
      var rp := b.ring[b.sh.up[rk]][0] + 16 + 4 * Turn(rk, b.sh.depth[b.sh.up[rk]]);
      var r := b.ring[rk][0];
      var m' := RelinkedDown(RelinkedUp(m[rp := 0], isRoot, x, xp, r), x, xp, r);
      && rp in m && r != 0 && IndexWord(m[rp := 0], x, s) && Unlinked(m, m', smallmap, treemap, b, b', x)
      && b'.roots == if isRoot then b.roots[TreeIndex(s) := r] else b.roots
  {
    hide BinsInv, Rep, LinksOnly, Bit, MarkBit, ClearBit, Heads, TreeOf, TreeIndex, RelinkedUp, RelinkedDown, Hung,
      Tracks, TreeStep, Holds, UpLinks, Leaf, Detached, Width, Turn, CanRehang, Under;
    TreePart(b);
    NodeIs(b, s);
    NodeIs(b, rk);
    SizeKey(b, s);
    var x, r := b.ring[s][0], b.ring[rk][0];
    ReplaceState(b, s, rk);
    StepReplace(b, s, rk);
    var t1 := Detached(TreeOf(b), rk);
    CutLeaf(m, b, rk, t1);
    var rp := b.ring[b.sh.up[rk]][0] + 16 + 4 * Turn(rk, b.sh.depth[b.sh.up[rk]]);
    var lk1 := b.lk.(left := t1.left, right := t1.right, par := t1.par);
    CutLeafPlace(b, s, rk, t1);
    IndexOf(m, m[rp := 0], lk1, b, s);
    var t := Rehung(t1, s, rk, r);
    RehangStores(m, m[rp := 0], lk1, b.binned, t1, s, rk, r, t);
    UnlinkNode(b, s, t);
    LargeRings(b, s);
    b' := WithoutNode(b, s, t);
    MarkTree(smallmap, treemap, b, b', TreeIndex(s));
    var m' := RelinkedDown(RelinkedUp(m[rp := 0], b.roots[TreeIndex(s)] == x, x, b.lk.par[x], r), x, b.lk.par[x], r);
    assert b'.lk == lk1.(left := t.left, right := t.right, par := t.par);
    TrackedLinks(m, m', b'.lk, b.binned);
    DropChunk(m, m', b'.lk, b.binned, x);
  }

  /** Cutting leaf rk off its parent, in memory. */
  lemma CutLeaf(m: Memory, b: Bins, rk: nat, t1: Tree)
    requires Rep(m, b.lk, b.binned) && Spaced(b.binned) && BinsInv(b) && rk in b.sh.depth && b.sh.depth[rk] > 0
    requires Hung(TreeOf(b), rk) && t1 == Detached(TreeOf(b), rk)
    requires rk in b.sh.up && b.sh.up[rk] in b.ring && |b.ring[b.sh.up[rk]]| > 0 && b.sh.up[rk] in b.sh.depth && b.sh.depth[b.sh.up[rk]] < Width(rk)
    ensures var rp := b.ring[b.sh.up[rk]][0] + 16 + 4 * Turn(rk, b.sh.depth[b.sh.up[rk]]);
      var lk1 := b.lk.(left := t1.left, right := t1.right, par := t1.par);
      rp in m && Tracks(m, m[rp := 0], lk1, b.binned) && Holds(lk1, t1)
  {
    hide BinsInv, Rep, LinksOnly, TreeOf, TreeIndex, Tracks, Turn, Width;
    TreePart(b);
    var p := b.sh.up[rk];
    NodeIs(b, p);
    NodeIs(b, rk);
    TurnRange(rk, b.sh.depth[p]);
    var n, f := b.ring[p][0], if Turn(rk, b.sh.depth[p]) == 0 then Left else Right;
    FieldsOf(m, b.lk, b.binned, n);
    TrackNothing(m, b.lk, b.binned);
    Track(m, m, b.lk, b.binned, n, f, 0);
    assert n + Offset(f) == n + 16 + 4 * Turn(rk, b.sh.depth[p]);
    assert SetLink(b.lk, n, f, 0) == b.lk.(left := t1.left, right := t1.right, par := t1.par);
  }

  /** The cut does not move the node of s. */
  lemma CutLeafPlace(b: Bins, s: nat, rk: nat, t1: Tree)
    requires BinsInv(b) && s in b.sh.depth && rk in b.sh.depth && rk != s && b.sh.depth[rk] > 0
    requires Hung(TreeOf(b), rk) && t1 == Detached(TreeOf(b), rk) && CanRehang(t1, s, rk, b.ring[rk][0])
    requires s in b.ring && |b.ring[s]| > 0 && rk in b.ring && |b.ring[rk]| > 0 && s in t1.nd && t1.nd[s] == b.ring[s][0]
    ensures Hung(t1, s) && t1.roots == b.roots && b.ring[s][0] in b.lk.par && t1.par == b.lk.par
  {
    hide BinsInv, TreeOf, TreeIndex, Turn, Width;
    TreePart(b);
    NodeIs(b, s);
  }

  lemma RelinkedKeys(m: Memory, isRoot: bool, x: int, xp: int, r: int)
    ensures m.Keys <= RelinkedUp(m, isRoot, x, xp, r).Keys
  {}
}

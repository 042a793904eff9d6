/**
 * All bins together: 32 rings of equal small chunks, each with a header, and the tries
 * of large sizes, each node heading the ring of the chunks of its size.
 */
module Bins {
  import opened Sequences
  import opened SizeClass
  import opened Rings
  import opened Trie
  import opened TreeLinks

  /** Address of the header of small bin i; only its fd and bk words exist. */
  function Sentinel(i: nat): int { 64 + 8 * i }

  datatype Links = Links(
    fd: map<int, int>, bk: map<int, int>,
    left: map<int, int>, right: map<int, int>, par: map<int, int>, idx: map<int, int>)

  datatype Bins = Bins(lk: Links, roots: seq<int>, binned: map<int, nat>, ring: map<nat, seq<int>>, sh: Shape)

  function TreeOf(b: Bins): Tree {
    Tree(b.lk.left, b.lk.right, b.lk.par, b.roots, b.binned,
         map s | s in b.ring && s in b.sh.depth && |b.ring[s]| > 0 :: b.ring[s][0], b.sh)
  }

  ghost predicate Member(b: Bins, s: nat, c: int) {
    c in b.binned && b.binned[c] == s && c >= HEAP_MIN && c in b.lk.fd && c in b.lk.bk
  }

  ghost predicate RingAt(b: Bins, s: nat) {
    && s in b.ring
    && NoDup(b.ring[s])
    && (forall k {:trigger b.ring[s][k]} :: 0 <= k < |b.ring[s]| ==> Member(b, s, b.ring[s][k]))
    && s % 8 == 0 && s >= MIN_CHUNK_SIZE
    && (s >= MIN_LARGE_SIZE ==> s in b.sh.depth)
  }

  ghost predicate HomeAt(b: Bins, c: int) {
    c in b.binned && b.binned[c] in b.ring && c in b.ring[b.binned[c]]
  }

  ghost predicate Chained(b: Bins, c: int) { NoLinks(b.lk.left, b.lk.right, b.lk.par, c) }

  /** The chunks of large size s: one cycle, all but the tree node without tree links. */
  ghost predicate ChainAt(b: Bins, s: nat) {
    && s in b.ring && |b.ring[s]| > 0
    && Cycle(b.lk.fd, b.lk.bk, b.ring[s])
    && (forall k {:trigger b.ring[s][k]} :: 0 <= k < |b.ring[s]| ==>
          && b.ring[s][k] in b.lk.idx && b.lk.idx[b.ring[s][k]] == TreeIndex(s)
          && (k > 0 ==> Chained(b, b.ring[s][k])))
  }

  ghost predicate SmallAt(b: Bins, i: nat) {
    && 8 * i in b.ring
    && (b.ring[8 * i] != [] ==> Cycle(b.lk.fd, b.lk.bk, [Sentinel(i)] + b.ring[8 * i]))
  }

  ghost predicate BinsInv(b: Bins) {
    && TreeInv(TreeOf(b))
    && (forall s {:trigger RingAt(b, s)} :: s in b.ring ==> RingAt(b, s))
    && (forall c {:trigger HomeAt(b, c)} :: c in b.binned ==> HomeAt(b, c))
    && (forall s {:trigger ChainAt(b, s)} :: s in b.sh.depth ==> ChainAt(b, s))
    && (forall i {:trigger SmallAt(b, i)} :: 2 <= i < NBINS ==> SmallAt(b, i))
  }

  // ---------------------------------------------------------------- changing one size

  /** Chunk c keeps its size, its ring links and, off the tree, its empty tree links. */
  ghost predicate Keeps(b: Bins, b': Bins, c: int) {
    && c in b.binned && c in b'.binned && b'.binned[c] == b.binned[c]
    && (c in b.lk.fd ==> c in b'.lk.fd && b'.lk.fd[c] == b.lk.fd[c])
    && (c in b.lk.bk ==> c in b'.lk.bk && b'.lk.bk[c] == b.lk.bk[c])
    && (c in b.lk.idx ==> c in b'.lk.idx && b'.lk.idx[c] == b.lk.idx[c])
    && (Chained(b, c) ==> Chained(b', c))
  }

  ghost predicate KeepsHeader(b: Bins, b': Bins, i: nat) {
    && (Sentinel(i) in b.lk.fd ==> Sentinel(i) in b'.lk.fd && b'.lk.fd[Sentinel(i)] == b.lk.fd[Sentinel(i)])
    && (Sentinel(i) in b.lk.bk ==> Sentinel(i) in b'.lk.bk && b'.lk.bk[Sentinel(i)] == b.lk.bk[Sentinel(i)])
  }

  lemma KeptRing(b: Bins, b': Bins, s: nat)
    requires RingAt(b, s) && s in b'.ring && b'.ring[s] == b.ring[s]
    requires forall c :: c in b.ring[s] ==> Keeps(b, b', c)
    requires s in b.sh.depth ==> s in b'.sh.depth
    ensures RingAt(b', s)
  {
    forall k | 0 <= k < |b'.ring[s]| ensures Member(b', s, b'.ring[s][k]) {
      assert Member(b, s, b.ring[s][k]);
      assert Keeps(b, b', b.ring[s][k]);
    }
  }

  lemma KeptChain(b: Bins, b': Bins, s: nat)
    requires ChainAt(b, s) && s in b'.ring && b'.ring[s] == b.ring[s]
    requires forall c :: c in b.ring[s] ==> Keeps(b, b', c)
    ensures ChainAt(b', s)
  {
    forall c | c in b.ring[s] ensures Keeps(b, b', c) {}
    CycleFrame(b.lk.fd, b.lk.bk, b'.lk.fd, b'.lk.bk, b.ring[s]);
    forall k | 0 <= k < |b'.ring[s]|
      ensures b'.ring[s][k] in b'.lk.idx && b'.lk.idx[b'.ring[s][k]] == TreeIndex(s)
      ensures k > 0 ==> Chained(b', b'.ring[s][k])
    {
      assert Keeps(b, b', b.ring[s][k]);
    }
  }

  lemma KeptSmall(b: Bins, b': Bins, i: nat)
    requires SmallAt(b, i) && 8 * i in b'.ring && b'.ring[8 * i] == b.ring[8 * i]
    requires forall c :: c in b.ring[8 * i] ==> Keeps(b, b', c)
    requires KeepsHeader(b, b', i)
    ensures SmallAt(b', i)
  {
    if b.ring[8 * i] != [] {
      CycleFrame(b.lk.fd, b.lk.bk, b'.lk.fd, b'.lk.bk, [Sentinel(i)] + b.ring[8 * i]);
    }
  }

  /** b' differs from b in the chunks of size s only, apart from tree links between nodes. */
  ghost predicate OnlySize(b: Bins, b': Bins, s: nat) {
    && (forall t :: t in b.ring && t != s ==> t in b'.ring && b'.ring[t] == b.ring[t])
    && (forall t :: t in b'.ring && t != s ==> t in b.ring)
    && (forall t :: t in b.sh.depth && t != s ==> t in b'.sh.depth)
    && (forall t :: t in b'.sh.depth && t != s ==> t in b.sh.depth)
    && (forall c {:trigger Keeps(b, b', c)} :: c in b.binned && b.binned[c] != s ==> Keeps(b, b', c))
    && (forall c :: c in b'.binned && b'.binned[c] != s ==> c in b.binned && b.binned[c] == b'.binned[c])
    && (forall i {:trigger KeepsHeader(b, b', i)} :: 2 <= i < NBINS && 8 * i != s ==> KeepsHeader(b, b', i))
  }

  lemma Rebin(b: Bins, b': Bins, s: nat)
    requires BinsInv(b) && TreeInv(TreeOf(b')) && OnlySize(b, b', s)
    requires s in b'.ring ==> RingAt(b', s)
    requires s in b'.sh.depth ==> ChainAt(b', s)
    requires 2 <= s / 8 < NBINS && s % 8 == 0 ==> SmallAt(b', s / 8)
    requires forall c :: c in b'.binned && b'.binned[c] == s ==> HomeAt(b', c)
    ensures BinsInv(b')
  {
    hide TreeInv, Cycle, TreeIndex, TreeOf;
    forall t | t in b'.ring ensures RingAt(b', t) {
      if t != s { assert RingAt(b, t); KeptMembers(b, b', s, t); KeptRing(b, b', t); }
    }
    forall t | t in b'.sh.depth ensures ChainAt(b', t) {
      if t != s { assert ChainAt(b, t); assert RingAt(b, t); KeptMembers(b, b', s, t); KeptChain(b, b', t); }
    }
    forall i | 2 <= i < NBINS ensures SmallAt(b', i) {
      if 8 * i != s {
        assert SmallAt(b, i) && RingAt(b, 8 * i) && KeepsHeader(b, b', i);
        KeptMembers(b, b', s, 8 * i); KeptSmall(b, b', i);
      }
    }
    forall c | c in b'.binned ensures HomeAt(b', c) {
      if b'.binned[c] != s { assert HomeAt(b, c); }
    }
  }

  lemma KeptMembers(b: Bins, b': Bins, s: nat, t: nat)
    requires RingAt(b, t) && t != s && OnlySize(b, b', s)
    ensures forall c :: c in b.ring[t] ==> Keeps(b, b', c)
  {
    forall c | c in b.ring[t] ensures Keeps(b, b', c) {
      var k :| 0 <= k < |b.ring[t]| && b.ring[t][k] == c;
      assert Member(b, t, b.ring[t][k]);
    }
  }

  // ---------------------------------------------------------------- small bins

  function SmallFirst(b: Bins, s: nat): int
    requires s in b.ring && Sentinel(s / 8) in b.lk.fd
  {
    if b.ring[s] == [] then Sentinel(s / 8) else b.lk.fd[Sentinel(s / 8)]
  }

  function WithSmall(b: Bins, x: int, s: nat): Bins
    requires s in b.ring && Sentinel(s / 8) in b.lk.fd
  {
    var h, f := Sentinel(s / 8), SmallFirst(b, s);
    b.(lk := b.lk.(fd := InsertFd(b.lk.fd, h, f, x), bk := InsertBk(b.lk.bk, h, f, x)),
       binned := b.binned[x := s], ring := b.ring[s := [x] + b.ring[s]])
  }

  ghost predicate CanInsert(b: Bins, x: int, s: nat) {
    && BinsInv(b) && x !in b.binned && x >= HEAP_MIN && s % 8 == 0 && s >= MIN_CHUNK_SIZE
  }

  lemma SmallRing(b: Bins, i: nat)
    requires BinsInv(b) && 2 <= i < NBINS
    ensures SmallAt(b, i) && RingAt(b, 8 * i)
    ensures NoDup([Sentinel(i)] + b.ring[8 * i])
  {
    hide TreeInv;
    assert SmallAt(b, i) && RingAt(b, 8 * i);
  }

  /** The tree part does not see a change to chunks that are no tree nodes. */
  lemma SameTree(b: Bins, b': Bins)
    requires TreeInv(TreeOf(b)) && TreeOf(b').nd == TreeOf(b).nd && b'.sh == b.sh && b'.roots == b.roots
    requires forall s :: s in TreeOf(b).nd ==> KeepsNode(TreeOf(b), TreeOf(b'), TreeOf(b).nd[s])
    ensures TreeInv(TreeOf(b'))
  {
    TreeFrame(TreeOf(b), TreeOf(b'));
  }

  lemma NodeIs(b: Bins, s: nat)
    requires BinsInv(b) && s in b.sh.depth
    ensures s in TreeOf(b).nd && s in b.ring && |b.ring[s]| > 0 && TreeOf(b).nd[s] == b.ring[s][0]
    ensures b.ring[s][0] in b.binned && b.binned[b.ring[s][0]] == s && b.ring[s][0] >= HEAP_MIN
    ensures b.ring[s][0] in b.lk.left && b.ring[s][0] in b.lk.right && b.ring[s][0] in b.lk.par
    ensures TreeSize(s)
  {
    hide Cycle, TreeIndex, TreeSize, TreeInv;
    assert ChainAt(b, s);
    At(TreeOf(b), s);
  }

  lemma WithSmallOnly(b: Bins, x: int, s: nat)
    requires CanInsert(b, x, s) && IsSmall(s) && s in b.ring && Sentinel(s / 8) in b.lk.fd
    ensures OnlySize(b, WithSmall(b, x, s), s)
  {
    hide TreeInv, Cycle, TreeOf;
    var b' := WithSmall(b, x, s);
    SmallRing(b, s / 8);
    var r := [Sentinel(s / 8)] + b.ring[s];
    if b.ring[s] != [] { CycleStep(b.lk.fd, b.lk.bk, r, 0); assert Member(b, s, b.ring[s][0]); }
    forall c | c in b.binned && b.binned[c] != s ensures Keeps(b, b', c) {
      assert HomeAt(b, c) && RingAt(b, b.binned[c]);
    }
  }

  lemma WithSmallTree(b: Bins, x: int, s: nat)
    requires CanInsert(b, x, s) && IsSmall(s) && s in b.ring && Sentinel(s / 8) in b.lk.fd
    ensures TreeInv(TreeOf(WithSmall(b, x, s)))
  {
    hide TreeInv, Cycle, TreeOf;
    var b' := WithSmall(b, x, s);
    SmallRing(b, s / 8);
    var r := [Sentinel(s / 8)] + b.ring[s];
    if b.ring[s] != [] { CycleStep(b.lk.fd, b.lk.bk, r, 0); assert Member(b, s, b.ring[s][0]); }
    forall t | t in b.sh.depth ensures t != s && t in b.ring && |b.ring[t]| > 0 { NodeIs(b, t); }
    SmallTree(b, b', x);
  }

  lemma WithSmallKeeps(b: Bins, x: int, s: nat)
    requires CanInsert(b, x, s) && IsSmall(s) && s in b.ring && Sentinel(s / 8) in b.lk.fd
    ensures OnlySize(b, WithSmall(b, x, s), s)
    ensures TreeInv(TreeOf(WithSmall(b, x, s)))
  {
    hide OnlySize, TreeInv, TreeOf, BinsInv;
    WithSmallOnly(b, x, s);
    WithSmallTree(b, x, s);
  }

  lemma SmallTree(b: Bins, b': Bins, x: int)
    requires BinsInv(b) && b'.sh == b.sh && b'.roots == b.roots
    requires b'.lk.left == b.lk.left && b'.lk.right == b.lk.right && b'.lk.par == b.lk.par
    requires forall s :: s in b.sh.depth ==> s in b'.ring && s in b.ring && |b.ring[s]| > 0 && |b'.ring[s]| > 0 && b'.ring[s][0] == b.ring[s][0]
    requires forall c :: c in b.binned && c != x ==> c in b'.binned && b'.binned[c] == b.binned[c]
    requires x in b.binned ==> b.binned[x] !in b.sh.depth || b.ring[b.binned[x]][0] != x
    ensures TreeInv(TreeOf(b'))
  {
    hide TreeInv, Cycle, TreeSize;
    assert TreeOf(b').nd == TreeOf(b).nd;
    forall s | s in TreeOf(b).nd ensures KeepsNode(TreeOf(b), TreeOf(b'), TreeOf(b).nd[s]) { NodeIs(b, s); }
    SameTree(b, b');
  }

  /** insert_small_chunk */
  lemma InsertSmall(b: Bins, x: int, s: nat)
    requires CanInsert(b, x, s) && IsSmall(s) && s in b.ring && Sentinel(s / 8) in b.lk.fd
    ensures BinsInv(WithSmall(b, x, s))
  {
    hide TreeInv, Cycle, TreeOf, OnlySize;
    var b' := WithSmall(b, x, s);
    var i := s / 8;
    SmallRing(b, i);
    var r := [Sentinel(i)] + b.ring[s];
    if b.ring[s] != [] { CycleStep(b.lk.fd, b.lk.bk, r, 0); }
    CycleInsert(b.lk.fd, b.lk.bk, r, x, SmallFirst(b, s));
    assert [r[0], x] + r[1..] == [Sentinel(i)] + b'.ring[s];
    assert SmallAt(b', i);
    assert NoDup(b'.ring[s]);
    forall k | 0 <= k < |b'.ring[s]| ensures Member(b', s, b'.ring[s][k]) {
      if k > 0 { assert Member(b, s, b.ring[s][k - 1]); }
    }
    forall c | c in b'.binned && b'.binned[c] == s ensures HomeAt(b', c) {
      if c != x { assert HomeAt(b, c); }
    }
    WithSmallKeeps(b, x, s);
    if s in b.sh.depth { NodeIs(b, s); assert false; }
    Rebin(b, b', s);
  }

  /** Unlinking the chunk at place k of the ring of size s, not a tree node. */
  function WithoutSmall(b: Bins, s: nat, k: nat): Bins
    requires s in b.ring && k < |b.ring[s]| && b.ring[s][k] in b.lk.fd && b.ring[s][k] in b.lk.bk
  {
    var x := b.ring[s][k];
    var f, p := b.lk.fd[x], b.lk.bk[x];
    b.(lk := if p == f then b.lk else b.lk.(fd := b.lk.fd[p := f], bk := b.lk.bk[f := p]),
       binned := b.binned - {x}, ring := b.ring[s := RemoveAt(b.ring[s], k)])
  }

  /** The neighbours of the chunk at place k in small bin s / 8, and when they coincide. */
  lemma SmallNeighbours(b: Bins, s: nat, k: nat)
    requires BinsInv(b) && s in b.ring && IsSmall(s) && k < |b.ring[s]|
    ensures 2 <= s / 8 < NBINS && 8 * (s / 8) == s
    ensures var r := [Sentinel(s / 8)] + b.ring[s]; var x := b.ring[s][k];
      && x in b.lk.fd && x in b.lk.bk && x in b.binned && b.binned[x] == s
      && b.lk.fd[x] == r[Next(k + 1, |r|)] && b.lk.bk[x] == r[Prev(k + 1, |r|)]
      && (b.lk.fd[x] == b.lk.bk[x] <==> |b.ring[s]| == 1)
      && Cycle(b.lk.fd, b.lk.bk, r) && NoDup(r)
      && Sentinel(s / 8) in b.lk.fd && b.lk.fd[Sentinel(s / 8)] == b.ring[s][0]
  {
    hide TreeInv, Cycle, TreeOf;
    assert RingAt(b, s);
    SmallRing(b, s / 8);
    var r := [Sentinel(s / 8)] + b.ring[s];
    assert r[k + 1] == b.ring[s][k];
    CycleStep(b.lk.fd, b.lk.bk, r, k + 1);
    CycleStep(b.lk.fd, b.lk.bk, r, 0);
    if |b.ring[s]| == 1 {} else { assert r[Next(k + 1, |r|)] != r[Prev(k + 1, |r|)]; }
  }

  lemma WithoutSmallOnly(b: Bins, s: nat, k: nat)
    requires BinsInv(b) && s in b.ring && IsSmall(s) && k < |b.ring[s]|
    requires b.ring[s][k] in b.lk.fd && b.ring[s][k] in b.lk.bk
    ensures OnlySize(b, WithoutSmall(b, s, k), s)
  {
    hide TreeInv, Cycle, TreeOf;
    var b' := WithoutSmall(b, s, k);
    SmallNeighbours(b, s, k);
    assert RingAt(b, s);
    var r := [Sentinel(s / 8)] + b.ring[s];
    forall j | 0 <= j < |r| ensures r[j] == Sentinel(s / 8) || Member(b, s, r[j]) {
      if j > 0 { assert r[j] == b.ring[s][j - 1]; }
    }
    assert Member(b, s, b.ring[s][k]);
    forall c | c in b.binned && b.binned[c] != s ensures Keeps(b, b', c) {
      assert HomeAt(b, c) && RingAt(b, b.binned[c]);
    }
  }

  lemma WithoutSmallTree(b: Bins, s: nat, k: nat)
    requires BinsInv(b) && s in b.ring && IsSmall(s) && k < |b.ring[s]|
    requires b.ring[s][k] in b.lk.fd && b.ring[s][k] in b.lk.bk
    ensures TreeInv(TreeOf(WithoutSmall(b, s, k)))
  {
    hide TreeInv, Cycle, TreeOf;
    var b' := WithoutSmall(b, s, k);
    SmallNeighbours(b, s, k);
    assert RingAt(b, s);
    var r := [Sentinel(s / 8)] + b.ring[s];
    forall j | 0 <= j < |r| ensures r[j] == Sentinel(s / 8) || Member(b, s, r[j]) {
      if j > 0 { assert r[j] == b.ring[s][j - 1]; }
    }
    assert Member(b, s, b.ring[s][k]);
    forall t | t in b.sh.depth ensures t != s && t in b.ring && |b.ring[t]| > 0 { NodeIs(b, t); }
    SmallTree(b, b', b.ring[s][k]);
  }

  lemma WithoutSmallKeeps(b: Bins, s: nat, k: nat)
    requires BinsInv(b) && s in b.ring && IsSmall(s) && k < |b.ring[s]|
    requires b.ring[s][k] in b.lk.fd && b.ring[s][k] in b.lk.bk
    ensures OnlySize(b, WithoutSmall(b, s, k), s)
    ensures TreeInv(TreeOf(WithoutSmall(b, s, k)))
  {
    hide OnlySize, TreeInv, TreeOf, BinsInv;
    WithoutSmallOnly(b, s, k);
    WithoutSmallTree(b, s, k);
  }

  lemma RemovedMembers(b: Bins, b': Bins, s: nat, k: nat)
    requires RingAt(b, s) && s in b'.ring && k < |b.ring[s]| && b'.ring[s] == RemoveAt(b.ring[s], k)
    requires NoDup(b'.ring[s]) && (s in b.sh.depth ==> s in b'.sh.depth)
    requires b'.binned == b.binned - {b.ring[s][k]}
    requires b.lk.fd.Keys <= b'.lk.fd.Keys && b.lk.bk.Keys <= b'.lk.bk.Keys
    requires forall c :: c in b.binned ==> HomeAt(b, c)
    ensures RingAt(b', s)
    ensures forall c :: c in b'.binned && b'.binned[c] == s ==> HomeAt(b', c)
  {
    forall j | 0 <= j < |b'.ring[s]| ensures Member(b', s, b'.ring[s][j]) {
      var i := if j < k then j else j + 1;
      assert b'.ring[s][j] == b.ring[s][i];
      assert Member(b, s, b.ring[s][i]);
    }
    forall c | c in b'.binned && b'.binned[c] == s ensures HomeAt(b', c) {
      assert HomeAt(b, c);
      var i :| 0 <= i < |b.ring[s]| && b.ring[s][i] == c;
      if i < k { assert b'.ring[s][i] == c; } else { assert b'.ring[s][i - 1] == c; }
    }
  }

  /** unlink_small_chunk, unlink_first_small_chunk */
  lemma UnlinkSmall(b: Bins, s: nat, k: nat)
    requires BinsInv(b) && s in b.ring && IsSmall(s) && k < |b.ring[s]|
    requires b.ring[s][k] in b.lk.fd && b.ring[s][k] in b.lk.bk
    ensures BinsInv(WithoutSmall(b, s, k))
  {
    hide TreeInv, Cycle, TreeOf, OnlySize;
    var b' := WithoutSmall(b, s, k);
    var i := s / 8;
    SmallNeighbours(b, s, k);
    assert RingAt(b, s);
    var r := [Sentinel(i)] + b.ring[s];
    if |b.ring[s]| > 1 {
      assert r[k + 1] == b.ring[s][k];
      CycleRemove(b.lk.fd, b.lk.bk, r, k + 1);
      assert RemoveAt(r, k + 1) == [Sentinel(i)] + b'.ring[s];
    }
    assert SmallAt(b', i);
    forall c | c in b.binned ensures HomeAt(b, c) {}
    RemovedMembers(b, b', s, k);
    WithoutSmallKeeps(b, s, k);
    if s in b.sh.depth { NodeIs(b, s); assert false; }
    Rebin(b, b', s);
  }

  // ---------------------------------------------------------------- large chunks, off the tree

  function WithChained(b: Bins, x: int, s: nat): Bins
    requires s in b.ring && |b.ring[s]| > 0 && b.ring[s][0] in b.lk.fd
  {
    var h, f := b.ring[s][0], b.lk.fd[b.ring[s][0]];
    b.(lk := Links(InsertFd(b.lk.fd, h, f, x), InsertBk(b.lk.bk, h, f, x),
                   b.lk.left[x := 0], b.lk.right[x := 0], b.lk.par[x := 0], b.lk.idx[x := TreeIndex(s)]),
       binned := b.binned[x := s], ring := b.ring[s := [h, x] + b.ring[s][1..]])
  }

  lemma ChainMembers(b: Bins, s: nat)
    requires BinsInv(b) && s in b.sh.depth
    ensures RingAt(b, s) && ChainAt(b, s) && s >= MIN_LARGE_SIZE
    ensures forall k :: 0 <= k < |b.ring[s]| ==> Member(b, s, b.ring[s][k])
  {
    hide TreeInv, Cycle, TreeOf;
    NodeIs(b, s);
    assert RingAt(b, s) && ChainAt(b, s);
  }

  lemma WithChainedOnly(b: Bins, x: int, s: nat)
    requires CanInsert(b, x, s) && s in b.sh.depth && s in b.ring && |b.ring[s]| > 0 && b.ring[s][0] in b.lk.fd
    ensures OnlySize(b, WithChained(b, x, s), s)
  {
    hide TreeInv, Cycle, TreeOf, TreeIndex;
    var b' := WithChained(b, x, s);
    ChainMembers(b, s);
    CycleStep(b.lk.fd, b.lk.bk, b.ring[s], 0);
    forall c | c in b.binned && b.binned[c] != s ensures Keeps(b, b', c) {
      assert HomeAt(b, c) && RingAt(b, b.binned[c]);
    }
  }

  lemma WithChainedTree(b: Bins, x: int, s: nat)
    requires CanInsert(b, x, s) && s in b.sh.depth && s in b.ring && |b.ring[s]| > 0 && b.ring[s][0] in b.lk.fd
    ensures TreeInv(TreeOf(WithChained(b, x, s)))
  {
    hide TreeInv, Cycle, TreeOf, TreeIndex;
    var b' := WithChained(b, x, s);
    ChainMembers(b, s);
    CycleStep(b.lk.fd, b.lk.bk, b.ring[s], 0);
    forall t | t in b.sh.depth ensures t in b.ring && |b.ring[t]| > 0 && b.ring[t][0] != x { NodeIs(b, t); }
    ChainedTree(b, b', x);
  }

  lemma WithChainedKeeps(b: Bins, x: int, s: nat)
    requires CanInsert(b, x, s) && s in b.sh.depth && s in b.ring && |b.ring[s]| > 0 && b.ring[s][0] in b.lk.fd
    ensures OnlySize(b, WithChained(b, x, s), s)
    ensures TreeInv(TreeOf(WithChained(b, x, s)))
  {
    hide OnlySize, TreeInv, TreeOf, BinsInv;
    WithChainedOnly(b, x, s);
    WithChainedTree(b, x, s);
  }

  lemma ChainedTree(b: Bins, b': Bins, x: int)
    requires BinsInv(b) && b'.sh == b.sh && b'.roots == b.roots
    requires forall c :: c in b.lk.left && c != x ==> c in b'.lk.left && b'.lk.left[c] == b.lk.left[c]
    requires forall c :: c in b.lk.right && c != x ==> c in b'.lk.right && b'.lk.right[c] == b.lk.right[c]
    requires forall c :: c in b.lk.par && c != x ==> c in b'.lk.par && b'.lk.par[c] == b.lk.par[c]
    requires b'.ring.Keys == b.ring.Keys
    requires forall s :: s in b.ring && |b.ring[s]| > 0 && s in b.sh.depth ==> |b'.ring[s]| > 0 && b'.ring[s][0] == b.ring[s][0] != x
    requires forall c :: c in b.binned && c != x ==> c in b'.binned && b'.binned[c] == b.binned[c]
    ensures TreeInv(TreeOf(b'))
  {
    hide TreeInv, Cycle, TreeSize;
    forall s | s in b.sh.depth ensures s in b.ring && |b.ring[s]| > 0 { NodeIs(b, s); }
    assert TreeOf(b').nd == TreeOf(b).nd;
    forall s | s in TreeOf(b).nd ensures KeepsNode(TreeOf(b), TreeOf(b'), TreeOf(b).nd[s]) { NodeIs(b, s); }
    SameTree(b, b');
  }

  /** insert_large_chunk when a node of the same size exists */
  lemma InsertChained(b: Bins, x: int, s: nat)
    requires CanInsert(b, x, s) && s in b.sh.depth && s in b.ring && |b.ring[s]| > 0 && b.ring[s][0] in b.lk.fd
    ensures BinsInv(WithChained(b, x, s))
  {
    hide TreeInv, Cycle, TreeOf, OnlySize, TreeIndex;
    var b' := WithChained(b, x, s);
    ChainMembers(b, s);
    var r := b.ring[s];
    CycleStep(b.lk.fd, b.lk.bk, r, 0);
    CycleInsert(b.lk.fd, b.lk.bk, r, x, b.lk.fd[r[0]]);
    forall k | 0 <= k < |b'.ring[s]|
      ensures Member(b', s, b'.ring[s][k])
      ensures b'.ring[s][k] in b'.lk.idx && b'.lk.idx[b'.ring[s][k]] == TreeIndex(s)
      ensures k > 0 ==> Chained(b', b'.ring[s][k])
    {
      if k >= 2 { assert Member(b, s, b.ring[s][k - 1]); } else if k == 0 { assert Member(b, s, b.ring[s][0]); }
    }
    forall c | c in b'.binned && b'.binned[c] == s ensures HomeAt(b', c) {
      if c != x { assert HomeAt(b, c); var i :| 0 <= i < |r| && r[i] == c;
        if i > 0 { assert b'.ring[s][i + 1] == c; } }
    }
    WithChainedKeeps(b, x, s);
    Rebin(b, b', s);
  }

  function WithoutChained(b: Bins, s: nat, k: nat): Bins
    requires s in b.ring && k < |b.ring[s]| && b.ring[s][k] in b.lk.fd && b.ring[s][k] in b.lk.bk
  {
    var x := b.ring[s][k];
    var f, p := b.lk.fd[x], b.lk.bk[x];
    b.(lk := b.lk.(fd := b.lk.fd[p := f], bk := b.lk.bk[f := p]),
       binned := b.binned - {x}, ring := b.ring[s := RemoveAt(b.ring[s], k)])
  }

  lemma WithoutChainedOnly(b: Bins, s: nat, k: nat)
    requires BinsInv(b) && s in b.sh.depth && s in b.ring && 0 < k < |b.ring[s]|
    requires b.ring[s][k] in b.lk.fd && b.ring[s][k] in b.lk.bk
    ensures OnlySize(b, WithoutChained(b, s, k), s)
  {
    hide TreeInv, Cycle, TreeOf, TreeIndex;
    var b' := WithoutChained(b, s, k);
    ChainMembers(b, s);
    CycleStep(b.lk.fd, b.lk.bk, b.ring[s], k);
    assert Member(b, s, b.ring[s][k]);
    forall c | c in b.binned && b.binned[c] != s ensures Keeps(b, b', c) {
      assert HomeAt(b, c) && RingAt(b, b.binned[c]);
    }
  }

  lemma WithoutChainedTree(b: Bins, s: nat, k: nat)
    requires BinsInv(b) && s in b.sh.depth && s in b.ring && 0 < k < |b.ring[s]|
    requires b.ring[s][k] in b.lk.fd && b.ring[s][k] in b.lk.bk
    ensures TreeInv(TreeOf(WithoutChained(b, s, k)))
  {
    hide TreeInv, Cycle, TreeOf, TreeIndex;
    var b' := WithoutChained(b, s, k);
    ChainMembers(b, s);
    CycleStep(b.lk.fd, b.lk.bk, b.ring[s], k);
    assert Member(b, s, b.ring[s][k]);
    forall t | t in b.sh.depth ensures t in b.ring && |b.ring[t]| > 0 && b.ring[t][0] != b.ring[s][k] { NodeIs(b, t); }
    ChainedTree(b, b', b.ring[s][k]);
  }

  lemma WithoutChainedKeeps(b: Bins, s: nat, k: nat)
    requires BinsInv(b) && s in b.sh.depth && s in b.ring && 0 < k < |b.ring[s]|
    requires b.ring[s][k] in b.lk.fd && b.ring[s][k] in b.lk.bk
    ensures OnlySize(b, WithoutChained(b, s, k), s)
    ensures TreeInv(TreeOf(WithoutChained(b, s, k)))
  {
    hide OnlySize, TreeInv, TreeOf, BinsInv;
    WithoutChainedOnly(b, s, k);
    WithoutChainedTree(b, s, k);
  }

  /** unlink_large_chunk for a chunk that is not a tree node */
  lemma UnlinkChained(b: Bins, s: nat, k: nat)
    requires BinsInv(b) && s in b.sh.depth && s in b.ring && 0 < k < |b.ring[s]|
    requires b.ring[s][k] in b.lk.fd && b.ring[s][k] in b.lk.bk
    ensures BinsInv(WithoutChained(b, s, k))
  {
    hide TreeInv, Cycle, TreeOf, OnlySize, TreeIndex;
    var b' := WithoutChained(b, s, k);
    ChainMembers(b, s);
    var r := b.ring[s];
    CycleRemove(b.lk.fd, b.lk.bk, r, k);
    forall c | c in b.binned ensures HomeAt(b, c) {}
    RemovedMembers(b, b', s, k);
    forall j | 0 <= j < |b'.ring[s]|
      ensures b'.ring[s][j] in b'.lk.idx && b'.lk.idx[b'.ring[s][j]] == TreeIndex(s)
      ensures j > 0 ==> Chained(b', b'.ring[s][j])
    {
      var i := if j < k then j else j + 1;
      assert b'.ring[s][j] == b.ring[s][i];
    }
    WithoutChainedKeeps(b, s, k);
    Rebin(b, b', s);
  }

  // ---------------------------------------------------------------- large chunks, on the tree

  /** The bins with tree t, new ring links and new rings. */
  function FromTree(t: Tree, fd: map<int, int>, bk: map<int, int>, idx: map<int, int>, ring: map<nat, seq<int>>): Bins {
    Bins(Links(fd, bk, t.left, t.right, t.par, idx), t.roots, t.key, ring, t.sh)
  }

  /** What one tree update may do: change nodes, and keep every chunk that carries no tree links. */
  ghost predicate TreeStep(b: Bins, t: Tree, s: nat) {
    && BinsInv(b) && TreeInv(t)
    && (forall c {:trigger c in t.key} :: c in b.binned && b.binned[c] != s ==> c in t.key && t.key[c] == b.binned[c])
    && (forall c {:trigger c in b.binned} :: c in t.key && t.key[c] != s ==> c in b.binned && b.binned[c] == t.key[c])
    && (forall c {:trigger Bare(t, c)} :: c in b.binned && b.binned[c] != s && Bare(TreeOf(b), c) ==> Bare(t, c))
    && (forall k {:trigger k in t.sh.depth} :: k != s ==> (k in t.sh.depth <==> k in b.sh.depth))
  }

  lemma TreeStepKeeps(b: Bins, t: Tree, s: nat, b': Bins)
    requires TreeStep(b, t, s)
    requires b' == FromTree(t, b'.lk.fd, b'.lk.bk, b'.lk.idx, b'.ring)
    requires forall c :: c in b.binned && b.binned[c] != s && c in b.lk.fd ==> c in b'.lk.fd && b'.lk.fd[c] == b.lk.fd[c]
    requires forall c :: c in b.binned && b.binned[c] != s && c in b.lk.bk ==> c in b'.lk.bk && b'.lk.bk[c] == b.lk.bk[c]
    requires forall c :: c in b.binned && b.binned[c] != s && c in b.lk.idx ==> c in b'.lk.idx && b'.lk.idx[c] == b.lk.idx[c]
    requires forall i :: 2 <= i < NBINS ==> KeepsHeader(b, b', i)
    requires forall k :: k in b.ring && k != s ==> k in b'.ring && b'.ring[k] == b.ring[k]
    requires forall k :: k in b'.ring && k != s ==> k in b.ring
    ensures OnlySize(b, b', s)
  {
    hide TreeInv, BinsInv;
    forall c | c in b.binned && b.binned[c] != s ensures Keeps(b, b', c) {
      assert c in t.key && t.key[c] == b.binned[c];
      if Chained(b, c) { assert Bare(TreeOf(b), c); assert Bare(t, c); }
    }
    assert b'.sh == t.sh && b'.binned == t.key;
    forall k | k != s ensures k in b'.sh.depth <==> k in b.sh.depth { assert k in t.sh.depth <==> k in b.sh.depth; }
    forall c | c in b'.binned && b'.binned[c] != s ensures c in b.binned && b.binned[c] == b'.binned[c] {
      assert c in t.key && t.key[c] != s;
    }
  }

  function WithNode(b: Bins, x: int, s: nat, t: Tree): Bins {
    FromTree(t, b.lk.fd[x := x], b.lk.bk[x := x], b.lk.idx[x := TreeIndex(s)], b.ring[s := [x]])
  }

  lemma WithNodeTree(b: Bins, x: int, s: nat, t: Tree)
    requires BinsInv(b) && t.nd == TreeOf(b).nd[s := x] && s in t.sh.depth
    requires forall k {:trigger k in t.sh.depth} :: k != s ==> (k in t.sh.depth <==> k in b.sh.depth)
    ensures TreeOf(WithNode(b, x, s, t)) == t
  {
    hide TreeInv, Cycle;
    assert TreeOf(WithNode(b, x, s, t)).nd == t.nd;
  }

  /** insert_large_chunk when no node of the size exists */
  lemma InsertNode(b: Bins, x: int, s: nat, t: Tree)
    requires CanInsert(b, x, s) && TreeStep(b, t, s) && s !in b.sh.depth && s >= MIN_LARGE_SIZE
    requires t.key == b.binned[x := s] && t.nd == TreeOf(b).nd[s := x] && s in t.sh.depth
    ensures BinsInv(WithNode(b, x, s, t))
  {
    hide TreeInv, TreeOf, OnlySize, TreeIndex, ChainAt;
    var b' := WithNode(b, x, s, t);
    WithNodeTree(b, x, s, t);
    forall k | k in b.ring ensures k != s { assert RingAt(b, k); }
    forall c | c in b.binned ensures c != x && b.binned[c] != s { assert HomeAt(b, c); }
    NodeRing(b, x, s, t);
    forall i | 2 <= i < NBINS ensures KeepsHeader(b, b', i) {}
    TreeStepKeeps(b, t, s, b');
    Rebin(b, b', s);
  }

  /** The ring of a new tree node. */
  lemma NodeRing(b: Bins, x: int, s: nat, t: Tree)
    requires x >= HEAP_MIN && s % 8 == 0 && s >= MIN_LARGE_SIZE && t.key == b.binned[x := s] && s in t.sh.depth
    ensures RingAt(WithNode(b, x, s, t), s) && ChainAt(WithNode(b, x, s, t), s)
  {
    hide TreeOf, TreeIndex;
    var b' := WithNode(b, x, s, t);
    assert b'.ring[s] == [x];
    assert LinkedAt(b'.lk.fd, b'.lk.bk, [x], 0);
    assert Member(b', s, x);
  }

  function WithoutNode(b: Bins, s: nat, t: Tree): Bins {
    FromTree(t, b.lk.fd, b.lk.bk, b.lk.idx, b.ring - {s})
  }

  /** unlink_large_chunk for a tree node that is the only chunk of its size */
  lemma UnlinkNode(b: Bins, s: nat, t: Tree)
    requires TreeStep(b, t, s) && s in b.sh.depth && s in b.ring && |b.ring[s]| == 1
    requires t.key == b.binned - {b.ring[s][0]} && t.nd == TreeOf(b).nd - {s} && s !in t.sh.depth
    ensures BinsInv(WithoutNode(b, s, t))
  {
    hide TreeInv, OnlySize, TreeIndex, Cycle;
    var b' := WithoutNode(b, s, t);
    NodeIs(b, s);
    assert TreeOf(b').nd == t.nd;
    forall c | c in b'.binned ensures b'.binned[c] != s { assert HomeAt(b, c); }
    forall i | 2 <= i < NBINS ensures KeepsHeader(b, b', i) {}
    TreeStepKeeps(b, t, s, b');
    Rebin(b, b', s);
  }

  /** The ring of s once its head is unlinked and its last member heads it. */
  function Promoted(r: seq<int>): seq<int>
    requires |r| > 1
  {
    [r[|r| - 1]] + r[1..|r| - 1]
  }

  function WithoutHead(b: Bins, s: nat, t: Tree): Bins
    requires s in b.ring && |b.ring[s]| > 1 && b.ring[s][0] in b.lk.fd && b.ring[s][0] in b.lk.bk
  {
    var x := b.ring[s][0];
    var f, p := b.lk.fd[x], b.lk.bk[x];
    FromTree(t, b.lk.fd[p := f], b.lk.bk[f := p], b.lk.idx, b.ring[s := Promoted(b.ring[s])])
  }

  lemma PromotedRing(fd: map<int, int>, bk: map<int, int>, r: seq<int>)
    requires |r| > 1 && Cycle(fd, bk, r) && NoDup(r) && r[0] in fd && r[0] in bk
    ensures bk[r[0]] == r[|r| - 1] && fd[r[0]] == r[1]
    ensures Cycle(fd[bk[r[0]] := fd[r[0]]], bk[fd[r[0]] := bk[r[0]]], Promoted(r))
    ensures NoDup(Promoted(r))
    ensures forall c :: c in Promoted(r) <==> c in r && c != r[0]
  {
    hide Cycle, NoDup, RemoveAt, Promoted;
    CycleRemove(fd, bk, r, 0);
    PromotedSeq(r);
    CycleRotate(fd[bk[r[0]] := fd[r[0]]], bk[fd[r[0]] := bk[r[0]]], RemoveAt(r, 0));
  }

  lemma PromotedSeq(r: seq<int>)
    requires |r| > 1
    ensures var q := RemoveAt(r, 0); |q| == |r| - 1 && [q[|q| - 1]] + q[..|q| - 1] == Promoted(r)
    ensures NoDup(r) ==> forall c :: c in Promoted(r) <==> c in r && c != r[0]
  {
    var q := RemoveAt(r, 0);
    assert q == r[1..];
    forall c | c in r && c != r[0] ensures c in Promoted(r) {
      var i :| 0 <= i < |r| && r[i] == c;
      if i < |r| - 1 { assert Promoted(r)[i] == c; }
    }
  }

  /** unlink_large_chunk for a tree node with other chunks of its size: the last one takes its place */
  lemma UnlinkHead(b: Bins, s: nat, t: Tree)
    requires TreeStep(b, t, s) && s in b.sh.depth && s in b.ring && |b.ring[s]| > 1
    requires b.ring[s][0] in b.lk.fd && b.ring[s][0] in b.lk.bk
    requires t.key == b.binned - {b.ring[s][0]}
    requires t.nd == TreeOf(b).nd[s := b.ring[s][|b.ring[s]| - 1]] && s in t.sh.depth
    requires forall c :: c in b.binned && Bare(TreeOf(b), c) && c != b.ring[s][|b.ring[s]| - 1] ==> Bare(t, c)
    ensures BinsInv(WithoutHead(b, s, t))
  {
    hide TreeInv, OnlySize, TreeIndex, Cycle;
    var b' := WithoutHead(b, s, t);
    NodeIs(b, s);
    ChainMembers(b, s);
    var r := b.ring[s];
    PromotedRing(b.lk.fd, b.lk.bk, r);
    assert TreeOf(b').nd == t.nd;
    HeadMembers(b, s, t);
    forall c | c in b'.binned && b'.binned[c] == s ensures HomeAt(b', c) { assert HomeAt(b, c); }
    assert Member(b, s, r[|r| - 1]) && Member(b, s, r[1]);
    forall i | 2 <= i < NBINS ensures KeepsHeader(b, b', i) {}
    TreeStepKeeps(b, t, s, b');
    Rebin(b, b', s);
  }

  lemma HeadMembers(b: Bins, s: nat, t: Tree)
    requires TreeStep(b, t, s) && s in b.sh.depth && s in b.ring && |b.ring[s]| > 1
    requires b.ring[s][0] in b.lk.fd && b.ring[s][0] in b.lk.bk
    requires t.key == b.binned - {b.ring[s][0]} && s in t.sh.depth
    requires forall c :: c in b.binned && Bare(TreeOf(b), c) && c != b.ring[s][|b.ring[s]| - 1] ==> Bare(t, c)
    ensures RingAt(WithoutHead(b, s, t), s) && ChainAt(WithoutHead(b, s, t), s)
  {
    hide TreeInv, OnlySize, TreeIndex, Cycle;
    var b' := WithoutHead(b, s, t);
    ChainMembers(b, s);
    var r := b.ring[s];
    PromotedRing(b.lk.fd, b.lk.bk, r);
    forall k | 0 <= k < |b'.ring[s]|
      ensures Member(b', s, b'.ring[s][k])
      ensures b'.ring[s][k] in b'.lk.idx && b'.lk.idx[b'.ring[s][k]] == TreeIndex(s)
      ensures k > 0 ==> Chained(b', b'.ring[s][k])
    {
      if k == 0 { assert Member(b, s, r[|r| - 1]); }
      else {
        assert b'.ring[s][k] == r[k];
        assert Member(b, s, r[k]);
        assert Chained(b, r[k]);
        assert Bare(TreeOf(b), r[k]);
        assert Bare(t, r[k]);
      }
    }
  }
}

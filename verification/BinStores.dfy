/**
 * How the stores of the bin macros act: each series of link writes in memory is matched
 * with the change it makes to the abstract bins.
 */
module BinStores {
  import opened SizeClass
  import opened Rings
  import opened Trie
  import opened TreeLinks
  import opened Bins
  import opened Bitmap
  import opened ChunkMemory

  /** The bitmaps mark exactly the nonempty bins. */
  ghost predicate MapsOk(smallmap: bv32, treemap: bv32, b: Bins) {
    && |b.roots| == NBINS
    && (forall i {:trigger Bit(treemap, i)} :: 0 <= i < NBINS ==> (Bit(treemap, i) <==> b.roots[i] != 0))
    && (forall i {:trigger Bit(smallmap, i)} :: 0 <= i < NBINS ==>
          (Bit(smallmap, i) <==> 8 * i in b.ring && b.ring[8 * i] != []))
  }

  ghost predicate TableOk(m: Memory, smallmap: bv32, treemap: bv32, b: Bins) {
    && BinsInv(b) && MapsOk(smallmap, treemap, b)
    && Rep(m, b.lk, b.binned) && Spaced(b.binned) && Heads(m, b.binned)
  }

  /** Words that a chunk of size s at x needs when it is binned. */
  ghost predicate HasWords(m: Memory, x: int, s: nat) {
    && x + 8 in m && x + 12 in m
    && (s >= MIN_LARGE_SIZE ==> x + 16 in m && x + 20 in m && x + 24 in m && x + 28 in m)
  }

  ghost predicate CanBin(m: Memory, b: Bins, x: int, s: nat) {
    && x !in b.binned && Spaced(b.binned[x := s]) && HeadAt(m, x, s) && HasWords(m, x, s)
  }

  // ---------------------------------------------------------------- a series of stores

  /** Memory and links after some link stores, seen against where they started. */
  ghost predicate Tracks(m0: Memory, m: Memory, lk: Links, sizes: map<int, nat>) {
    Rep(m, lk, sizes) && Spaced(sizes) && LinksOnly(m0, m, sizes)
  }

  lemma Track(m0: Memory, m: Memory, lk: Links, sizes: map<int, nat>, p: int, f: Field, v: int)
    requires Tracks(m0, m, lk, sizes) && HasField(sizes, p, f)
    ensures Tracks(m0, m[p + Offset(f) := v], SetLink(lk, p, f, v), sizes)
  {
    hide *;
    TrackParts(m0, m, lk, sizes, p, f, v);
  }

  lemma TrackParts(m0: Memory, m: Memory, lk: Links, sizes: map<int, nat>, p: int, f: Field, v: int)
    requires Tracks(m0, m, lk, sizes) && HasField(sizes, p, f)
    ensures Tracks(m0, m[p + Offset(f) := v], SetLink(lk, p, f, v), sizes)
  {
    hide SetLink, LinksOnly;
    assert p + Offset(f) in m by {
      if p in sizes { assert Stored(m, lk, p, sizes[p]); }
      else { var i :| 0 <= i < NBINS && p == Sentinel(i); assert Header(m, lk, i); }
    }
    Store(m, lk, sizes, p, f, v);
    StoreLinksOnly(m0, m, sizes, p, f, v);
  }

  lemma TrackStart(m: Memory, b: Bins, x: int, s: nat)
    requires Rep(m, b.lk, b.binned) && CanBin(m, b, x, s)
    ensures Tracks(m, m, Adopted(m, b.lk, x, s), b.binned[x := s])
  {
    assert x in b.binned[x := s];
    Adopt(m, b.lk, b.binned, x, s);
  }

  lemma IsHeader(sizes: map<int, nat>, i: nat)
    requires i < NBINS
    ensures HasField(sizes, Sentinel(i), Fd) && HasField(sizes, Sentinel(i), Bk)
  {}

  // ---------------------------------------------------------------- small chunks

  function SmallInserted(m: Memory, h: int, f: int, x: int): Memory {
    m[h + 8 := x][f + 12 := x][x + 8 := f][x + 12 := h]
  }

  lemma InsertSmallStores(m: Memory, b: Bins, x: int, s: nat)
    requires Rep(m, b.lk, b.binned) && CanBin(m, b, x, s) && BinsInv(b)
    requires IsSmall(s) && s in b.ring && Sentinel(s / 8) in b.lk.fd
    ensures Tracks(m, SmallInserted(m, Sentinel(s / 8), SmallFirst(b, s), x), WithSmall(b, x, s).lk, b.binned[x := s])
  {
    hide BinsInv, Rep, LinksOnly, Adopted, Tracks, SetLink, WithSmall, SmallFirst;
    var h, f := Sentinel(s / 8), SmallFirst(b, s);
    var sizes := b.binned[x := s];
    IsHeader(sizes, s / 8);
    SmallFirstIs(b, s);
    TrackStart(m, b, x, s);
    var l0 := Adopted(m, b.lk, x, s);
    Track(m, m, l0, sizes, h, Fd, x);
    var m1, l1 := m[h + 8 := x], SetLink(l0, h, Fd, x);
    Track(m, m1, l1, sizes, f, Bk, x);
    var m2, l2 := m1[f + 12 := x], SetLink(l1, f, Bk, x);
    Track(m, m2, l2, sizes, x, Fd, f);
    var m3, l3 := m2[x + 8 := f], SetLink(l2, x, Fd, f);
    Track(m, m3, l3, sizes, x, Bk, h);
    SmallLinks(m, b, x, s);
  }

  lemma SmallLinks(m: Memory, b: Bins, x: int, s: nat)
    requires HasWords(m, x, s) && IsSmall(s) && s in b.ring && Sentinel(s / 8) in b.lk.fd
    ensures var h, f := Sentinel(s / 8), SmallFirst(b, s);
      SetLink(SetLink(SetLink(SetLink(Adopted(m, b.lk, x, s), h, Fd, x), f, Bk, x), x, Fd, f), x, Bk, h)
        == WithSmall(b, x, s).lk
  {
    hide SmallFirst;
  }

  lemma SmallFirstIs(b: Bins, s: nat)
    requires BinsInv(b) && IsSmall(s) && s in b.ring && Sentinel(s / 8) in b.lk.fd
    ensures var f := SmallFirst(b, s); if b.ring[s] == [] then f == Sentinel(s / 8) else f == b.ring[s][0] && f in b.binned && b.binned[f] == s
  {
    hide TreeInv, Cycle, TreeOf;
    if b.ring[s] != [] { SmallNeighbours(b, s, 0); }
  }

  lemma SmallReady(m: Memory, b: Bins, s: nat)
    requires BinsInv(b) && Rep(m, b.lk, b.binned) && IsSmall(s) && s >= MIN_CHUNK_SIZE && s % 8 == 0
    ensures s in b.ring && Sentinel(s / 8) in b.lk.fd && Sentinel(s / 8) in b.lk.bk
    ensures Sentinel(s / 8) + 8 in m && m[Sentinel(s / 8) + 8] == b.lk.fd[Sentinel(s / 8)]
  {
    hide TreeInv, Cycle, TreeOf;
    SmallRing(b, s / 8);
    assert 8 * (s / 8) == s;
    assert Header(m, b.lk, s / 8);
  }

  lemma MarkSmall(smallmap: bv32, treemap: bv32, b: Bins, b': Bins, i: nat)
    requires MapsOk(smallmap, treemap, b) && i < NBINS && b'.roots == b.roots
    requires 8 * i in b'.ring && b'.ring[8 * i] != []
    requires forall j :: 0 <= j < NBINS && j != i ==> (8 * j in b'.ring <==> 8 * j in b.ring) && (8 * j in b.ring ==> b'.ring[8 * j] == b.ring[8 * j])
    ensures MapsOk(MarkBit(smallmap, i), treemap, b')
    ensures Bit(smallmap, i) ==> MapsOk(smallmap, treemap, b')
  {
    hide Bit, MarkBit, ClearBit;
    forall j | 0 <= j < NBINS
      ensures Bit(MarkBit(smallmap, i), j) <==> 8 * j in b'.ring && b'.ring[8 * j] != []
    {
      UpdateBits(smallmap, i, j);
    }
  }

  lemma ClearSmall(smallmap: bv32, treemap: bv32, b: Bins, b': Bins, i: nat)
    requires MapsOk(smallmap, treemap, b) && i < NBINS && b'.roots == b.roots
    requires 8 * i in b.ring && b.ring[8 * i] != [] && 8 * i in b'.ring
    requires forall j :: 0 <= j < NBINS && j != i ==> (8 * j in b'.ring <==> 8 * j in b.ring) && (8 * j in b.ring ==> b'.ring[8 * j] == b.ring[8 * j])
    ensures b'.ring[8 * i] == [] ==> MapsOk(ClearBit(smallmap, i), treemap, b')
    ensures b'.ring[8 * i] != [] ==> MapsOk(smallmap, treemap, b')
  {
    hide Bit, MarkBit, ClearBit;
    assert Bit(smallmap, i);
    forall j | 0 <= j < NBINS
      ensures Bit(ClearBit(smallmap, i), j) <==> j != i && 8 * j in b'.ring && b'.ring[8 * j] != []
    {
      UpdateBits(smallmap, i, j);
    }
  }

  lemma TrackedHeads(m: Memory, m': Memory, b: Bins, lk': Links, sizes: map<int, nat>)
    requires Heads(m, sizes) && Tracks(m, m', lk', sizes)
    ensures Heads(m', sizes)
  {
    hide Heads, Rep, LinksOnly;
    HeadsFrame(m, m', sizes);
  }

  lemma HeadsWith(m: Memory, sizes: map<int, nat>, x: int, s: nat)
    requires Heads(m, sizes) && HeadAt(m, x, s)
    ensures Heads(m, sizes[x := s])
  {
    var sizes' := sizes[x := s];
    forall p | p in sizes' ensures HeadAt(m, p, sizes'[p]) { if p != x { assert HeadAt(m, p, sizes[p]); } }
  }

  lemma InsertSmallTable(m: Memory, smallmap: bv32, treemap: bv32, b: Bins, x: int, s: nat)
    requires TableOk(m, smallmap, treemap, b) && CanBin(m, b, x, s) && IsSmall(s)
    ensures s in b.ring && Sentinel(s / 8) in b.lk.fd
    ensures Sentinel(s / 8) + 8 in m && m[Sentinel(s / 8) + 8] == b.lk.fd[Sentinel(s / 8)]
    ensures Bit(smallmap, s / 8) <==> b.ring[s] != []
    ensures var m' := SmallInserted(m, Sentinel(s / 8), SmallFirst(b, s), x);
      && LinksOnly(m, m', b.binned[x := s])
      && TableOk(m', if Bit(smallmap, s / 8) then smallmap else MarkBit(smallmap, s / 8), treemap, WithSmall(b, x, s))
  {
    hide BinsInv, Rep, LinksOnly, SmallInserted, Bit, MarkBit, ClearBit;
    assert x in b.binned[x := s];
    SmallReady(m, b, s);
    assert 8 * (s / 8) == s;
    InsertSmallStores(m, b, x, s);
    InsertSmall(b, x, s);
    MarkSmall(smallmap, treemap, b, WithSmall(b, x, s), s / 8);
    HeadsWith(m, b.binned, x, s);
    TrackedHeads(m, SmallInserted(m, Sentinel(s / 8), SmallFirst(b, s), x), b, WithSmall(b, x, s).lk, b.binned[x := s]);
  }

  /** Where a binned chunk is, and its fd and bk words. */
  lemma Locate(m: Memory, b: Bins, x: int) returns (k: nat)
    requires BinsInv(b) && Rep(m, b.lk, b.binned) && Heads(m, b.binned) && x in b.binned
    ensures b.binned[x] in b.ring && k < |b.ring[b.binned[x]]| && b.ring[b.binned[x]][k] == x
    ensures x in b.lk.fd && x in b.lk.bk && x + 8 in m && m[x + 8] == b.lk.fd[x] && x + 12 in m && m[x + 12] == b.lk.bk[x]
    ensures HeadAt(m, x, b.binned[x])
    ensures b.binned[x] >= MIN_CHUNK_SIZE && b.binned[x] % 8 == 0
    ensures b.binned[x] >= MIN_LARGE_SIZE ==> b.binned[x] in b.sh.depth && TreeFields(m, b.lk, x)
  {
    hide TreeInv, Cycle, TreeOf;
    assert HomeAt(b, x);
    assert RingAt(b, b.binned[x]);
    assert Stored(m, b.lk, x, b.binned[x]);
    k :| 0 <= k < |b.ring[b.binned[x]]| && b.ring[b.binned[x]][k] == x;
    assert HeadAt(m, x, b.binned[x]);
  }

  /** Dropping a chunk from the tracked set. */
  lemma DropChunk(m: Memory, m': Memory, lk': Links, sizes: map<int, nat>, x: int)
    requires Tracks(m, m', lk', sizes) && Heads(m, sizes)
    ensures Rep(m', lk', sizes - {x}) && Spaced(sizes - {x}) && Heads(m', sizes - {x})
  {
    hide Rep, LinksOnly;
    HeadsFrame(m, m', sizes);
    Forget(m', lk', sizes, x);
    var sizes' := sizes - {x};
    forall p | p in sizes' ensures HeadAt(m', p, sizes'[p]) { assert HeadAt(m', p, sizes[p]); }
    forall p, q | p in sizes' && q in sizes' ensures Apart(sizes', p, q) { assert Apart(sizes, p, q); }
  }

  function Joined(m: Memory, f: int, p: int): Memory {
    if f == p then m else m[f + 12 := p][p + 8 := f]
  }

  lemma UnlinkSmallStores(m: Memory, b: Bins, s: nat, k: nat)
    requires Rep(m, b.lk, b.binned) && Spaced(b.binned) && BinsInv(b)
    requires IsSmall(s) && s in b.ring && k < |b.ring[s]| && b.ring[s][k] in b.lk.fd && b.ring[s][k] in b.lk.bk
    ensures var f, p := b.lk.fd[b.ring[s][k]], b.lk.bk[b.ring[s][k]];
      Tracks(m, Joined(m, f, p), WithoutSmall(b, s, k).lk, b.binned)
  {
    hide BinsInv, Rep, Tracks, LinksOnly;
    var f, p := b.lk.fd[b.ring[s][k]], b.lk.bk[b.ring[s][k]];
    assert Tracks(m, m, b.lk, b.binned) by { TrackNothing(m, b.lk, b.binned); }
    if f != p {
      SmallEnds(b, s, k);
      Track(m, m, b.lk, b.binned, f, Bk, p);
      Track(m, m[f + 12 := p], SetLink(b.lk, f, Bk, p), b.binned, p, Fd, f);
    }
  }

  lemma TrackNothing(m: Memory, lk: Links, sizes: map<int, nat>)
    requires Rep(m, lk, sizes) && Spaced(sizes)
    ensures Tracks(m, m, lk, sizes)
  {}

  lemma SmallEnds(b: Bins, s: nat, k: nat)
    requires BinsInv(b) && IsSmall(s) && s in b.ring && k < |b.ring[s]| && b.ring[s][k] in b.lk.fd && b.ring[s][k] in b.lk.bk
    ensures HasField(b.binned, b.lk.fd[b.ring[s][k]], Bk) && HasField(b.binned, b.lk.bk[b.ring[s][k]], Fd)
  {
    hide TreeInv, Cycle, TreeOf;
    SmallNeighbours(b, s, k);
    IsHeader(b.binned, s / 8);
    assert RingAt(b, s);
    var r := [Sentinel(s / 8)] + b.ring[s];
    forall j | 0 < j < |r| ensures Member(b, s, r[j]) { assert r[j] == b.ring[s][j - 1]; }
  }

  lemma UnlinkSmallTable(m: Memory, smallmap: bv32, treemap: bv32, b: Bins, s: nat, k: nat)
    requires TableOk(m, smallmap, treemap, b) && IsSmall(s) && s in b.ring && k < |b.ring[s]|
    requires b.ring[s][k] in b.lk.fd && b.ring[s][k] in b.lk.bk
    ensures var f, p := b.lk.fd[b.ring[s][k]], b.lk.bk[b.ring[s][k]]; var m' := Joined(m, f, p);
      && LinksOnly(m, m', b.binned)
      && TableOk(m', if f == p then ClearBit(smallmap, s / 8) else smallmap, treemap, WithoutSmall(b, s, k))
  {
    hide BinsInv, Rep, LinksOnly, Bit, MarkBit, ClearBit, Joined;
    UnlinkSmallStores(m, b, s, k);
    UnlinkSmall(b, s, k);
    SmallNeighbours(b, s, k);
    ClearSmall(smallmap, treemap, b, WithoutSmall(b, s, k), s / 8);
    var f, p := b.lk.fd[b.ring[s][k]], b.lk.bk[b.ring[s][k]];
    DropChunk(m, Joined(m, f, p), WithoutSmall(b, s, k).lk, b.binned, b.ring[s][k]);
  }

  // ---------------------------------------------------------------- inserting large chunks

  /** One step of the walk that insert_large_chunk and bin_find make. */
  lemma WalkNext(b: Bins, s: nat, a: nat)
    requires BinsInv(b) && a in b.sh.depth && TreeSize(s) && s != a && Same(s, a, b.sh.depth[a])
    requires s in b.sh.depth ==> b.sh.depth[s] >= b.sh.depth[a]
    ensures Node(TreeOf(b), a)
    ensures b.sh.depth[a] < Width(s) && 0 <= Turn(s, b.sh.depth[a]) < 2
    ensures var c := Slot(TreeOf(b), TreeOf(b).nd[a], Turn(s, b.sh.depth[a]));
      && (c != 0 ==>
            && c in b.binned && b.binned[c] in b.sh.depth && b.binned[c] in b.ring && |b.ring[b.binned[c]]| > 0
            && b.ring[b.binned[c]][0] == c && b.sh.depth[b.binned[c]] == b.sh.depth[a] + 1
            && Same(s, b.binned[c], b.sh.depth[a] + 1)
            && (s in b.sh.depth ==> b.sh.depth[s] >= b.sh.depth[a] + 1))
      && (c == 0 ==> s !in b.sh.depth)
  {
    hide TreeInv, BinsInv, Same, Turn, Width, TreeIndex, TreeSize, TreeOf;
    var t := TreeOf(b);
    TreePart(b);
    var d := b.sh.depth[a];
    At(t, a);
    SameSym(s, a, d);
    if d == Width(s) { SameFull(s, a); assert false; }
    TurnRange(s, d);
    var e := Turn(s, d);
    var c := Slot(t, t.nd[a], e);
    if s in b.sh.depth {
      var w := WalkStep(b.sh, s, a);
      At(t, w);
      ChildUnder(b.sh, w, a, e);
    }
    if c != 0 {
      var a' := b.binned[c];
      ChildUnder(b.sh, a', a, e);
      SameSym(a', a, d);
      SameTrans(s, a, a', d);
      SameStep(s, a', d);
      NodeIs(b, a');
      if s in b.sh.depth {
        var w := WalkStep(b.sh, s, a);
      }
    }
  }

  lemma TreeParts(b: Bins)
    ensures TreeOf(b).left == b.lk.left && TreeOf(b).right == b.lk.right && TreeOf(b).par == b.lk.par && TreeOf(b).sh == b.sh
    ensures TreeOf(b).roots == b.roots
  {}

  lemma TreePart(b: Bins)
    requires BinsInv(b)
    ensures TreeInv(TreeOf(b)) && WellFormed(b.sh) && TreeOf(b).sh == b.sh && TreeOf(b).key == b.binned && TreeOf(b).roots == b.roots
    ensures TreeOf(b).left == b.lk.left && TreeOf(b).right == b.lk.right && TreeOf(b).par == b.lk.par
    ensures |b.roots| == NBINS
  {
    hide WellFormed;
  }

  /** X->index = i; X->child[0] = X->child[1] = 0 */
  function Blank(m: Memory, x: int, i: int): Memory {
    m[x + 28 := i][x + 16 := 0][x + 20 := 0]
  }

  function BlankLinks(m: Memory, lk: Links, x: int, s: nat, i: int): Links
    requires HasWords(m, x, s) && s >= MIN_LARGE_SIZE
  {
    SetLink(SetLink(SetLink(Adopted(m, lk, x, s), x, Idx, i), x, Left, 0), x, Right, 0)
  }

  lemma BlankStores(m: Memory, b: Bins, x: int, s: nat, i: int)
    requires Rep(m, b.lk, b.binned) && CanBin(m, b, x, s) && s >= MIN_LARGE_SIZE
    ensures Tracks(m, Blank(m, x, i), BlankLinks(m, b.lk, x, s, i), b.binned[x := s])
  {
    hide Rep, LinksOnly, Adopted, Tracks, SetLink;
    var sizes := b.binned[x := s];
    TrackStart(m, b, x, s);
    var l0 := Adopted(m, b.lk, x, s);
    Track(m, m, l0, sizes, x, Idx, i);
    Track(m, m[x + 28 := i], SetLink(l0, x, Idx, i), sizes, x, Left, 0);
    Track(m, m[x + 28 := i][x + 16 := 0], SetLink(SetLink(l0, x, Idx, i), x, Left, 0), sizes, x, Right, 0);
  }

  lemma BlankLinksAre(m: Memory, lk: Links, x: int, s: nat, i: int)
    requires HasWords(m, x, s) && s >= MIN_LARGE_SIZE
    ensures BlankLinks(m, lk, x, s, i)
      == Links(lk.fd[x := m[x + 8]], lk.bk[x := m[x + 12]], lk.left[x := 0], lk.right[x := 0], lk.par[x := m[x + 24]], lk.idx[x := i])
  {}

  /** What a walk reads at the node of size a, after the new chunk's fields were blanked. */
  lemma ReadNode(m: Memory, b: Bins, x: int, s: nat, i: int, a: nat)
    requires BinsInv(b) && Rep(m, b.lk, b.binned) && Heads(m, b.binned) && CanBin(m, b, x, s) && s >= MIN_LARGE_SIZE
    requires a in b.sh.depth
    ensures a in b.ring && |b.ring[a]| > 0
    ensures var t := b.ring[a][0]; var m1 := Blank(m, x, i);
      && t in b.binned && b.binned[t] == a && t != x
      && t + 4 in m1 && HeadSize(m1[t + 4]) == a
      && t in b.lk.fd && t in b.lk.left && t in b.lk.right
      && t + 8 in m1 && m1[t + 8] == b.lk.fd[t]
      && t + 16 in m1 && m1[t + 16] == b.lk.left[t]
      && t + 20 in m1 && m1[t + 20] == b.lk.right[t]
  {
    hide BinsInv, Rep, LinksOnly, Blank, Heads, BlankLinks;
    NodeIs(b, a);
    var t, m1, sizes := b.ring[a][0], Blank(m, x, i), b.binned[x := s];
    BlankStores(m, b, x, s, i);
    BlankLinksAre(m, b.lk, x, s, i);
    HeadsWith(m, b.binned, x, s);
    HeadsFrame(m, m1, sizes);
    HeadOf(m1, sizes, t);
    FieldsOf(m1, BlankLinks(m, b.lk, x, s, i), sizes, t);
    FieldsOf(m, b.lk, b.binned, t);
  }

  lemma HeadOf(m: Memory, sizes: map<int, nat>, p: int)
    requires Heads(m, sizes) && p in sizes
    ensures p + 4 in m && HeadSize(m[p + 4]) == sizes[p]
  {
    assert HeadAt(m, p, sizes[p]);
  }

  lemma FieldsOf(m: Memory, lk: Links, sizes: map<int, nat>, p: int)
    requires Rep(m, lk, sizes) && p in sizes
    ensures RingFields(m, lk, p)
    ensures sizes[p] >= MIN_LARGE_SIZE ==> TreeFields(m, lk, p)
  {
    assert Stored(m, lk, p, sizes[p]);
  }

  lemma RootStores(m: Memory, b: Bins, x: int, s: nat)
    requires Rep(m, b.lk, b.binned) && CanBin(m, b, x, s) && TreeSize(s) && BinsInv(b) && TreeIndex(s) < NBINS
    ensures |b.roots| == NBINS
    ensures Tracks(m, Blank(m, x, TreeIndex(s))[x + 24 := RootAddr(TreeIndex(s))][x + 8 := x][x + 12 := x],
                   WithNode(b, x, s, AttachedRoot(TreeOf(b), s, x)).lk, b.binned[x := s])
  {
    hide BinsInv, Rep, LinksOnly, Tracks, TreeOf, SetLink, BlankLinks, Blank, TreeIndex;
    TreePart(b);
    var sizes, i := b.binned[x := s], TreeIndex(s);
    BlankStores(m, b, x, s, i);
    var m1, l1 := Blank(m, x, i), BlankLinks(m, b.lk, x, s, i);
    Track(m, m1, l1, sizes, x, Par, RootAddr(i));
    var m2, l2 := m1[x + 24 := RootAddr(i)], SetLink(l1, x, Par, RootAddr(i));
    Track(m, m2, l2, sizes, x, Fd, x);
    Track(m, m2[x + 8 := x], SetLink(l2, x, Fd, x), sizes, x, Bk, x);
    RootLinks(m, b, x, s);
  }

  lemma RootLinks(m: Memory, b: Bins, x: int, s: nat)
    requires HasWords(m, x, s) && TreeSize(s) && TreeIndex(s) < |b.roots|
    ensures SetLink(SetLink(SetLink(BlankLinks(m, b.lk, x, s, TreeIndex(s)), x, Par, RootAddr(TreeIndex(s))), x, Fd, x), x, Bk, x)
      == WithNode(b, x, s, AttachedRoot(TreeOf(b), s, x)).lk
  {
    hide TreeIndex, BlankLinks;
    BlankLinksAre(m, b.lk, x, s, TreeIndex(s));
  }

  lemma LeafStores(m: Memory, b: Bins, x: int, s: nat, p: nat)
    requires Rep(m, b.lk, b.binned) && CanBin(m, b, x, s) && TreeSize(s) && BinsInv(b)
    requires CanAttach(TreeOf(b), s, x, p) && p in b.ring && |b.ring[p]| > 0 && p in b.sh.depth && b.sh.depth[p] < Width(s)
    ensures p in TreeOf(b).nd
    ensures Tracks(m, Blank(m, x, TreeIndex(s))[b.ring[p][0] + 16 + 4 * Turn(s, b.sh.depth[p]) := x]
                        [x + 24 := b.ring[p][0]][x + 8 := x][x + 12 := x],
                   WithNode(b, x, s, Attached(TreeOf(b), s, x, p)).lk, b.binned[x := s])
  {
    hide BinsInv, Rep, LinksOnly, Tracks, TreeOf, SetLink, BlankLinks, Blank, TreeIndex, Turn, Width, CanAttach;
    TreePart(b);
    NodeIs(b, p);
    var sizes, i := b.binned[x := s], TreeIndex(s);
    var n, f := b.ring[p][0], if Turn(s, b.sh.depth[p]) == 0 then Left else Right;
    TurnRange(s, b.sh.depth[p]);
    BlankStores(m, b, x, s, i);
    var m1, l1 := Blank(m, x, i), BlankLinks(m, b.lk, x, s, i);
    Track(m, m1, l1, sizes, n, f, x);
    var m2, l2 := m1[n + Offset(f) := x], SetLink(l1, n, f, x);
    Track(m, m2, l2, sizes, x, Par, n);
    var m3, l3 := m2[x + 24 := n], SetLink(l2, x, Par, n);
    Track(m, m3, l3, sizes, x, Fd, x);
    Track(m, m3[x + 8 := x], SetLink(l3, x, Fd, x), sizes, x, Bk, x);
    assert n + Offset(f) == n + 16 + 4 * Turn(s, b.sh.depth[p]);
    LeafLinks(m, b, x, s, p, f);
  }

  lemma LeafLinks(m: Memory, b: Bins, x: int, s: nat, p: nat, f: Field)
    requires HasWords(m, x, s) && TreeSize(s) && p in TreeOf(b).nd && p in b.sh.depth && b.sh.depth[p] < Width(s)
    requires f == (if Turn(s, b.sh.depth[p]) == 0 then Left else Right)
    requires x != TreeOf(b).nd[p]
    ensures var n := TreeOf(b).nd[p];
      SetLink(SetLink(SetLink(SetLink(BlankLinks(m, b.lk, x, s, TreeIndex(s)), n, f, x), x, Par, n), x, Fd, x), x, Bk, x)
        == WithNode(b, x, s, Attached(TreeOf(b), s, x, p)).lk
  {
    hide TreeIndex, BlankLinks, Turn, Width, TreeOf;
    assert TreeOf(b).left == b.lk.left && TreeOf(b).right == b.lk.right && TreeOf(b).par == b.lk.par && TreeOf(b).sh == b.sh by { TreeParts(b); }
    BlankLinksAre(m, b.lk, x, s, TreeIndex(s));
    var n := TreeOf(b).nd[p];
    Overwritten(b.lk.fd, x, m[x + 8], x, x, x);
    Overwritten(b.lk.bk, x, m[x + 12], x, x, x);
    Overwritten(b.lk.par, x, m[x + 24], x, n, n);
  }

  lemma ChainStores(m: Memory, b: Bins, x: int, s: nat)
    requires Rep(m, b.lk, b.binned) && CanBin(m, b, x, s) && TreeSize(s) && BinsInv(b)
    requires s in b.sh.depth && s in b.ring && |b.ring[s]| > 0 && b.ring[s][0] in b.lk.fd
    ensures var t := b.ring[s][0]; var f := b.lk.fd[t];
      Tracks(m, Blank(m, x, TreeIndex(s))[t + 8 := x][f + 12 := x][x + 8 := f][x + 12 := t][x + 24 := 0],
             WithChained(b, x, s).lk, b.binned[x := s])
  {
    hide BinsInv, Rep, LinksOnly, Tracks, TreeOf, SetLink, BlankLinks, Blank, TreeIndex, WithChained;
    NodeIs(b, s);
    var t, i, sizes := b.ring[s][0], TreeIndex(s), b.binned[x := s];
    var f := b.lk.fd[t];
    ChainNext(b, s);
    BlankStores(m, b, x, s, i);
    var m1, l1 := Blank(m, x, i), BlankLinks(m, b.lk, x, s, i);
    Track(m, m1, l1, sizes, t, Fd, x);
    var m2, l2 := m1[t + 8 := x], SetLink(l1, t, Fd, x);
    Track(m, m2, l2, sizes, f, Bk, x);
    var m3, l3 := m2[f + 12 := x], SetLink(l2, f, Bk, x);
    Track(m, m3, l3, sizes, x, Fd, f);
    var m4, l4 := m3[x + 8 := f], SetLink(l3, x, Fd, f);
    Track(m, m4, l4, sizes, x, Bk, t);
    Track(m, m4[x + 12 := t], SetLink(l4, x, Bk, t), sizes, x, Par, 0);
    ChainLinks(m, b, x, s);
  }

  lemma ChainNext(b: Bins, s: nat)
    requires BinsInv(b) && s in b.sh.depth && s in b.ring && |b.ring[s]| > 0 && b.ring[s][0] in b.lk.fd
    ensures b.lk.fd[b.ring[s][0]] in b.binned
  {
    hide TreeInv, TreeOf, Cycle;
    ChainMembers(b, s);
    CycleStep(b.lk.fd, b.lk.bk, b.ring[s], 0);
  }

  lemma ChainLinks(m: Memory, b: Bins, x: int, s: nat)
    requires HasWords(m, x, s) && TreeSize(s) && s in b.ring && |b.ring[s]| > 0 && b.ring[s][0] in b.lk.fd
    ensures var t := b.ring[s][0]; var f := b.lk.fd[t];
      SetLink(SetLink(SetLink(SetLink(SetLink(BlankLinks(m, b.lk, x, s, TreeIndex(s)), t, Fd, x), f, Bk, x), x, Fd, f), x, Bk, t), x, Par, 0)
        == WithChained(b, x, s).lk
  {
    hide TreeIndex, BlankLinks;
    BlankLinksAre(m, b.lk, x, s, TreeIndex(s));
    var t := b.ring[s][0];
    var f := b.lk.fd[t];
    Overwritten(b.lk.fd, x, m[x + 8], t, x, f);
    Overwritten(b.lk.bk, x, m[x + 12], f, x, t);
    Overwritten(b.lk.par, x, m[x + 24], x, 0, 0);
  }

  lemma Overwritten(m: map<int, int>, x: int, u: int, h: int, v: int, f: int)
    ensures m[x := u][h := v][x := f] == m[h := v][x := f]
    ensures m[x := u][x := f] == m[x := f]
  {}

  lemma LocateIn(m: Memory, smallmap: bv32, treemap: bv32, b: Bins, x: int) returns (k: nat)
    requires TableOk(m, smallmap, treemap, b) && x in b.binned
    ensures b.binned[x] in b.ring && k < |b.ring[b.binned[x]]| && b.ring[b.binned[x]][k] == x
    ensures x in b.lk.fd && x in b.lk.bk && x + 8 in m && m[x + 8] == b.lk.fd[x] && x + 12 in m && m[x + 12] == b.lk.bk[x]
  {
    hide BinsInv, Rep, Heads, MapsOk;
    k := Locate(m, b, x);
  }

  /** A marked small bin has a first chunk, and that chunk's bk is the bin header. */
  lemma FirstOf(m: Memory, smallmap: bv32, treemap: bv32, b: Bins, i: nat)
    requires TableOk(m, smallmap, treemap, b) && 2 <= i < NBINS && Bit(smallmap, i)
    ensures Sentinel(i) + 8 in m && 8 * i in b.ring && b.ring[8 * i] != []
    ensures var p := m[Sentinel(i) + 8];
      && p == b.ring[8 * i][0] && p in b.binned && b.binned[p] == 8 * i
      && p in b.lk.bk && b.lk.bk[p] == Sentinel(i)
  {
    hide BinsInv, Rep, Heads, Bit, Cycle;
    assert 8 * i in b.ring && b.ring[8 * i] != [];
    SmallReady(m, b, 8 * i);
    SmallNeighbours(b, 8 * i, 0);
  }

  // ---------------------------------------------------------------- whole insertions

  lemma MarkTree(smallmap: bv32, treemap: bv32, b: Bins, b': Bins, i: nat)
    requires MapsOk(smallmap, treemap, b) && i < NBINS && |b'.roots| == NBINS
    requires forall j :: 0 <= j < NBINS && j != i ==> b'.roots[j] == b.roots[j]
    requires forall j :: 0 <= j < NBINS ==> (8 * j in b'.ring <==> 8 * j in b.ring) && (8 * j in b.ring ==> b'.ring[8 * j] == b.ring[8 * j])
    ensures b'.roots[i] != 0 ==> MapsOk(smallmap, MarkBit(treemap, i), b')
    ensures b'.roots[i] == 0 ==> MapsOk(smallmap, ClearBit(treemap, i), b')
    ensures (b'.roots[i] != 0 <==> b.roots[i] != 0) ==> MapsOk(smallmap, treemap, b')
  {
    hide Bit, MarkBit, ClearBit;
    forall j | 0 <= j < NBINS
      ensures Bit(MarkBit(treemap, i), j) <==> j == i || b'.roots[j] != 0
      ensures Bit(ClearBit(treemap, i), j) <==> j != i && b'.roots[j] != 0
    {
      UpdateBits(treemap, i, j);
    }
  }

  lemma LargeRings(b: Bins, s: nat)
    requires s >= MIN_LARGE_SIZE
    ensures forall j :: 0 <= j < NBINS ==> 8 * j != s
  {}

  lemma StepRoot(b: Bins, x: int, s: nat)
    requires BinsInv(b) && s !in b.sh.depth && TreeSize(s) && x !in b.binned && x >= HEAP_MIN
    requires TreeIndex(s) < NBINS == |b.roots| && b.roots[TreeIndex(s)] == 0
    ensures TreeStep(b, AttachedRoot(TreeOf(b), s, x), s)
  {
    hide TreeInv, BinsInv, TreeIndex, TreeSize, TreeOf;
    TreePart(b);
    AttachRoot(TreeOf(b), s, x);
  }

  lemma StepLeaf(b: Bins, x: int, s: nat, p: nat)
    requires BinsInv(b) && CanAttach(TreeOf(b), s, x, p) && p in TreeOf(b).nd && p in b.sh.depth && b.sh.depth[p] < Width(s)
    ensures TreeStep(b, Attached(TreeOf(b), s, x, p), s)
  {
    hide TreeInv, BinsInv, TreeIndex, TreeSize, TreeOf, Turn, Width, Same;
    TreePart(b);
    AttachLeaf(TreeOf(b), s, x, p);
    var t := Attached(TreeOf(b), s, x, p);
    forall c | c in b.binned && b.binned[c] != s && Bare(TreeOf(b), c) ensures Bare(t, c) {
      AttachedBare(TreeOf(b), s, x, p, c);
    }
  }

  lemma InsertRootTable(m: Memory, smallmap: bv32, treemap: bv32, b: Bins, x: int, s: nat)
    requires TableOk(m, smallmap, treemap, b) && CanBin(m, b, x, s) && TreeSize(s)
    requires TreeIndex(s) < NBINS && b.roots[TreeIndex(s)] == 0
    ensures var i := TreeIndex(s);
      var m' := Blank(m, x, i)[x + 24 := RootAddr(i)][x + 8 := x][x + 12 := x];
      var b' := WithNode(b, x, s, AttachedRoot(TreeOf(b), s, x));
      && LinksOnly(m, m', b.binned[x := s]) && b'.binned == b.binned[x := s] && b'.roots == b.roots[i := x]
      && TableOk(m', smallmap, MarkBit(treemap, i), b')
  {
    hide BinsInv, Rep, LinksOnly, Blank, MarkBit, ClearBit, TreeIndex, TreeOf, Bit, Heads;
    TreePart(b);
    var i, sizes := TreeIndex(s), b.binned[x := s];
    var m' := Blank(m, x, i)[x + 24 := RootAddr(i)][x + 8 := x][x + 12 := x];
    var b' := WithNode(b, x, s, AttachedRoot(TreeOf(b), s, x));
    assert x in sizes;
    RootNotStored(b, s);
    RootStores(m, b, x, s);
    StepRoot(b, x, s);
    InsertNode(b, x, s, AttachedRoot(TreeOf(b), s, x));
    LargeRings(b, s);
    MarkTree(smallmap, treemap, b, b', i);
    HeadsWith(m, b.binned, x, s);
    TrackedHeads(m, m', b, b'.lk, sizes);
  }

  /** An empty tree holds no size. */
  lemma RootNotStored(b: Bins, s: nat)
    requires BinsInv(b) && TreeSize(s) && TreeIndex(s) < NBINS == |b.roots| && b.roots[TreeIndex(s)] == 0
    ensures s !in b.sh.depth
  {
    hide BinsInv, TreeInv, TreeOf, TreeIndex, TreeSize, Width, Same, Turn;
    if s in b.sh.depth {
      TreePart(b);
      RootOf(TreeOf(b), s);
    }
  }

  lemma RootOf(t: Tree, s: nat)
    requires TreeInv(t) && s in t.sh.depth
    ensures TreeIndex(s) < |t.roots| && t.roots[TreeIndex(s)] != 0
  {
    hide TreeInv, WellFormed, TreeIndex, TreeSize, Width, Turn;
    WellFormedOf(t);
    var a := Ancestor(t.sh, s, 0);
    At(t, a);
  }

  lemma WellFormedOf(t: Tree)
    requires TreeInv(t)
    ensures WellFormed(t.sh) && |t.roots| == NBINS && t.nd.Keys == t.sh.depth.Keys
  {}

  lemma InsertLeafTable(m: Memory, smallmap: bv32, treemap: bv32, b: Bins, x: int, s: nat, p: nat)
    requires TableOk(m, smallmap, treemap, b) && CanBin(m, b, x, s)
    requires CanAttach(TreeOf(b), s, x, p) && p in b.ring && |b.ring[p]| > 0 && p in b.sh.depth && b.sh.depth[p] < Width(s)
    requires p in TreeOf(b).nd
    ensures var i := TreeIndex(s); var n := b.ring[p][0];
      var m' := Blank(m, x, i)[n + 16 + 4 * Turn(s, b.sh.depth[p]) := x][x + 24 := n][x + 8 := x][x + 12 := x];
      var b' := WithNode(b, x, s, Attached(TreeOf(b), s, x, p));
      && LinksOnly(m, m', b.binned[x := s]) && b'.binned == b.binned[x := s] && b'.roots == b.roots
      && TableOk(m', smallmap, treemap, b')
  {
    hide BinsInv, Rep, LinksOnly, Blank, MarkBit, ClearBit, TreeIndex, TreeOf, Bit, Turn, Width, Same, Heads;
    var i, sizes := TreeIndex(s), b.binned[x := s];
    var n := b.ring[p][0];
    var m' := Blank(m, x, i)[n + 16 + 4 * Turn(s, b.sh.depth[p]) := x][x + 24 := n][x + 8 := x][x + 12 := x];
    var b' := WithNode(b, x, s, Attached(TreeOf(b), s, x, p));
    assert x in sizes;
    TreePart(b);
    LeafStores(m, b, x, s, p);
    StepLeaf(b, x, s, p);
    InsertNode(b, x, s, Attached(TreeOf(b), s, x, p));
    LargeRings(b, s);
    MarkTree(smallmap, treemap, b, b', 0);
    HeadsWith(m, b.binned, x, s);
    TrackedHeads(m, m', b, b'.lk, sizes);
  }

  lemma InsertChainTable(m: Memory, smallmap: bv32, treemap: bv32, b: Bins, x: int, s: nat)
    requires TableOk(m, smallmap, treemap, b) && CanBin(m, b, x, s) && TreeSize(s)
    requires s in b.sh.depth && s in b.ring && |b.ring[s]| > 0 && b.ring[s][0] in b.lk.fd
    ensures var t := b.ring[s][0]; var f := b.lk.fd[t];
      var m' := Blank(m, x, TreeIndex(s))[t + 8 := x][f + 12 := x][x + 8 := f][x + 12 := t][x + 24 := 0];
      && LinksOnly(m, m', b.binned[x := s])
      && TableOk(m', smallmap, treemap, WithChained(b, x, s))
      && WithChained(b, x, s).binned == b.binned[x := s] && WithChained(b, x, s).roots == b.roots
  {
    hide BinsInv, Rep, LinksOnly, Blank, MarkBit, ClearBit, TreeIndex, TreeOf, Bit, Heads;
    var t := b.ring[s][0];
    var f := b.lk.fd[t];
    var m' := Blank(m, x, TreeIndex(s))[t + 8 := x][f + 12 := x][x + 8 := f][x + 12 := t][x + 24 := 0];
    assert x in b.binned[x := s];
    ChainStores(m, b, x, s);
    InsertChained(b, x, s);
    LargeRings(b, s);
    MarkTree(smallmap, treemap, b, WithChained(b, x, s), 0);
    HeadsWith(m, b.binned, x, s);
    TrackedHeads(m, m', b, WithChained(b, x, s).lk, b.binned[x := s]);
  }

  /** The walk of insert_large_chunk has reached the node of size a, whose chunk is t. */
  ghost predicate Walking(b: Bins, s: nat, a: nat, t: int, key: nat) {
    && a in b.sh.depth && a in b.ring && |b.ring[a]| > 0 && t == b.ring[a][0]
    && TreeSize(s) && TreeIndex(s) < NBINS && Same(s, a, b.sh.depth[a])
    && key == KeyAt(s, b.sh.depth[a])
    && (s in b.sh.depth ==> b.sh.depth[s] >= b.sh.depth[a])
  }

  lemma WalkStart(b: Bins, s: nat)
    requires BinsInv(b) && TreeSize(s) && TreeIndex(s) < NBINS == |b.roots| && b.roots[TreeIndex(s)] != 0
    ensures b.roots[TreeIndex(s)] in b.binned
    ensures Walking(b, s, b.binned[b.roots[TreeIndex(s)]], b.roots[TreeIndex(s)], KeyAt(s, 0))
  {
    hide BinsInv, TreeInv, TreeOf, TreeIndex, TreeSize, Width, Turn, KeyAt, Same;
    TreePart(b);
    RootedAt(TreeOf(b), TreeIndex(s));
    var a := b.binned[b.roots[TreeIndex(s)]];
    NodeIs(b, a);
    SameRoot(s, a);
  }

  lemma RootedAt(t: Tree, i: nat)
    requires TreeInv(t) && i < NBINS
    ensures Rooted(t, i)
  {}

  lemma WalkOn(b: Bins, s: nat, a: nat, t: int, key: nat)
    requires BinsInv(b) && Walking(b, s, a, t, key) && a != s
    ensures key / 0x8000_0000 == 0 || key / 0x8000_0000 == 1
    ensures t in b.lk.left && t in b.lk.right && b.sh.depth[a] < Width(s) && Turn(s, b.sh.depth[a]) == key / 0x8000_0000
    ensures a in TreeOf(b).nd
    ensures var c := if key / 0x8000_0000 == 0 then b.lk.left[t] else b.lk.right[t];
      if c != 0 then c in b.binned && Walking(b, s, b.binned[c], c, (key * 2) % WORD_SPAN) && b.sh.depth[b.binned[c]] == b.sh.depth[a] + 1
      else s !in b.sh.depth && forall x :: x !in b.binned && x >= HEAP_MIN ==> CanAttach(TreeOf(b), s, x, a)
  {
    hide BinsInv, TreeInv, TreeIndex, TreeSize, Width, Turn, KeyAt, Same, TreeOf, WellFormed;
    TreePart(b);
    NodeIs(b, a);
    WalkNext(b, s, a);
    KeyTurn(s, b.sh.depth[a]);
    KeyNext(s, b.sh.depth[a]);
    At(TreeOf(b), a);
  }

  lemma KeyNext(s: nat, d: nat)
    requires TreeIndex(s) < NBINS
    ensures KeyAt(s, d + 1) == (KeyAt(s, d) * 2) % WORD_SPAN
  {}

  lemma DepthBound(b: Bins, a: nat)
    requires BinsInv(b) && a in b.sh.depth
    ensures b.sh.depth[a] <= 32
  {
    hide BinsInv, TreeInv, TreeOf, WellFormed, TreeIndex, Turn, Same;
    TreePart(b);
    At(TreeOf(b), a);
    TreeIndexRange(a);
  }

  // ---------------------------------------------------------------- unlinking large chunks

  ghost predicate NodesIn(t: Tree, sizes: map<int, nat>) {
    forall s {:trigger t.nd[s]} :: s in t.sh.depth && s in t.nd ==> t.nd[s] in sizes && sizes[t.nd[s]] >= MIN_LARGE_SIZE
  }

  ghost predicate Holds(lk: Links, t: Tree) {
    lk.left == t.left && lk.right == t.right && lk.par == t.par
  }

  /** The parent's child slot that holds x, or the root, is set to r. */
  function RelinkedUp(m: Memory, isRoot: bool, x: int, xp: int, r: int): Memory {
    if isRoot then m else if xp + 16 in m && m[xp + 16] == x then m[xp + 16 := r] else m[xp + 20 := r]
  }

  function UpLinks(lk: Links, t: Tree, k: nat, r: int): Links
    requires Hung(t, k)
  {
    if t.sh.depth[k] == 0 then lk
    else SetLink(lk, t.nd[t.sh.up[k]], if Turn(k, t.sh.depth[t.sh.up[k]]) == 0 then Left else Right, r)
  }

  lemma RelinkUpStores(m0: Memory, m: Memory, lk: Links, sizes: map<int, nat>, t: Tree, k: nat, r: int)
    requires Tracks(m0, m, lk, sizes) && TreeInv(t) && NodesIn(t, sizes) && Holds(lk, t) && k in t.sh.depth
    ensures Hung(t, k) && TreeIndex(k) < |t.roots|
    ensures var x := t.nd[k]; var xp := t.par[x]; var isRoot := t.roots[TreeIndex(k)] == x;
      && (isRoot <==> t.sh.depth[k] == 0)
      && (!isRoot ==> xp + 16 in m && xp + 20 in m)
      && Tracks(m0, RelinkedUp(m, isRoot, x, xp, r), UpLinks(lk, t, k, r), sizes)
  {
    hide Same, Turn, Width, TreeSize, TreeIndex, TreeInv, WellFormed, Tracks, SetLink;
    HangPlace(t, k);
    if t.sh.depth[k] > 0 {
      var p := t.sh.up[k];
      var xp := t.nd[p];
      RepOf(m0, m, lk, sizes);
      FieldsOf(m, lk, sizes, xp);
      Track(m0, m, lk, sizes, xp, if Turn(k, t.sh.depth[p]) == 0 then Left else Right, r);
    }
  }

  lemma RepOf(m0: Memory, m: Memory, lk: Links, sizes: map<int, nat>)
    requires Tracks(m0, m, lk, sizes)
    ensures Rep(m, lk, sizes) && Spaced(sizes)
  {}

  /** A leaf that nothing replaces. */
  lemma DetachStores(m0: Memory, m: Memory, lk: Links, sizes: map<int, nat>, t: Tree, k: nat)
    requires Tracks(m0, m, lk, sizes) && TreeInv(t) && NodesIn(t, sizes) && Holds(lk, t) && k in t.sh.depth && Hung(t, k)
    ensures UpLinks(lk, t, k, 0) == lk.(left := Detached(t, k).left, right := Detached(t, k).right, par := Detached(t, k).par)
    ensures TreeIndex(k) < |t.roots|
    ensures Detached(t, k).roots == if t.sh.depth[k] == 0 then t.roots[TreeIndex(k) := 0] else t.roots
  {
    hide Same, Turn, Width, TreeSize, TreeIndex, TreeInv, WellFormed, Tracks;
    HangPlace(t, k);
  }

  /** The parent and child fields of the replacement r and of the children it takes over. */
  function RelinkedDown(m: Memory, x: int, xp: int, r: int): Memory {
    var m1 := m[r + 24 := xp];
    var m2 := if x + 16 in m1 && m1[x + 16] != 0 then m1[r + 16 := m1[x + 16]][m1[x + 16] + 24 := r] else m1;
    if x + 20 in m2 && m2[x + 20] != 0 then m2[r + 20 := m2[x + 20]][m2[x + 20] + 24 := r] else m2
  }

  function DownLinks(lk: Links, xp: int, r: int, c0: int, c1: int): Links {
    var l1 := SetLink(lk, r, Par, xp);
    var l2 := if c0 != 0 then SetLink(SetLink(l1, r, Left, c0), c0, Par, r) else l1;
    if c1 != 0 then SetLink(SetLink(l2, r, Right, c1), c1, Par, r) else l2
  }

  lemma RelinkDownStores(m0: Memory, m: Memory, lk: Links, sizes: map<int, nat>, x: int, xp: int, r: int)
    requires Tracks(m0, m, lk, sizes)
    requires x in sizes && sizes[x] >= MIN_LARGE_SIZE && r in sizes && sizes[r] >= MIN_LARGE_SIZE && x != r
    requires x in lk.left && x in lk.right
    requires lk.left[x] != 0 ==> lk.left[x] in sizes && sizes[lk.left[x]] >= MIN_LARGE_SIZE
    requires lk.right[x] != 0 ==> lk.right[x] in sizes && sizes[lk.right[x]] >= MIN_LARGE_SIZE
    ensures x + 16 in m && x + 20 in m
    ensures Tracks(m0, RelinkedDown(m, x, xp, r), DownLinks(lk, xp, r, lk.left[x], lk.right[x]), sizes)
  {
    hide Tracks, Rep, Spaced;
    RepOf(m0, m, lk, sizes);
    FieldsOf(m, lk, sizes, x);
    Track(m0, m, lk, sizes, r, Par, xp);
    var m1, l1 := m[r + 24 := xp], SetLink(lk, r, Par, xp);
    RepOf(m0, m1, l1, sizes);
    FieldsOf(m1, l1, sizes, x);
    var c0 := lk.left[x];
    var m2, l2 := m1, l1;
    if c0 != 0 {
      Track(m0, m1, l1, sizes, r, Left, c0);
      Track(m0, m1[r + 16 := c0], SetLink(l1, r, Left, c0), sizes, c0, Par, r);
      m2, l2 := m1[r + 16 := c0][c0 + 24 := r], SetLink(SetLink(l1, r, Left, c0), c0, Par, r);
    }
    RepOf(m0, m2, l2, sizes);
    FieldsOf(m2, l2, sizes, x);
    var c1 := lk.right[x];
    assert m2[x + 20] == c1;
    if c1 != 0 {
      Track(m0, m2, l2, sizes, r, Right, c1);
      Track(m0, m2[r + 20 := c1], SetLink(l2, r, Right, c1), sizes, c1, Par, r);
    }
  }

  lemma UpLinksAre(lk: Links, t: Tree, k: nat, r: int)
    requires Holds(lk, t) && Hung(t, k)
    ensures UpLinks(lk, t, k, r) == lk.(left := Repointed(t, k, r).left, right := Repointed(t, k, r).right)
  {
    hide Turn, Width, TreeIndex;
  }

  lemma DownLinksAre(lk: Links, xp: int, r: int, c0: int, c1: int)
    requires r in lk.left && r in lk.right && lk.left[r] == 0 && lk.right[r] == 0
    ensures DownLinks(lk, xp, r, c0, c1).left == lk.left[r := c0]
    ensures DownLinks(lk, xp, r, c0, c1).right == lk.right[r := c1]
    ensures DownLinks(lk, xp, r, c0, c1) ==
      lk.(left := lk.left[r := c0], right := lk.right[r := c1],
          par := var p1 := lk.par[r := xp];
                 var p2 := if c0 != 0 then p1[c0 := r] else p1;
                 if c1 != 0 then p2[c1 := r] else p2)
  {
    if c0 == 0 { SetSame(lk.left, r); }
    if c1 == 0 { SetSame(lk.right, r); }
  }

  lemma SetSame(m: map<int, int>, k: int)
    requires k in m
    ensures m[k := m[k]] == m
  {}

  lemma RehangLinks(lk: Links, t: Tree, k: nat, rk: nat, r: int)
    requires CanRehang(t, k, rk, r) && Holds(lk, t)
    requires r in t.left && r in t.right && t.left[r] == 0 && t.right[r] == 0
    ensures Hung(t, k)
    ensures var l1 := UpLinks(lk, t, k, r); var x := t.nd[k];
      && x in l1.left && x in l1.right && l1.left[x] == t.left[x] && l1.right[x] == t.right[x]
      && DownLinks(l1, t.par[x], r, t.left[x], t.right[x])
           == lk.(left := Rehung(t, k, rk, r).left, right := Rehung(t, k, rk, r).right, par := Rehung(t, k, rk, r).par)
  {
    hide Same, Turn, Width, TreeSize, TreeIndex, TreeInv, WellFormed, Renamed, UpLinks, DownLinks;
    HangPlace(t, k);
    if t.sh.depth[k] > 0 { OtherNode(t, k, rk, r, t.sh.up[k]); }
    UpLinksAre(lk, t, k, r);
    DownLinksAre(UpLinks(lk, t, k, r), t.par[t.nd[k]], r, t.left[t.nd[k]], t.right[t.nd[k]]);
  }

  /** Replacing the node of size k by chunk r: all its stores together. */
  lemma RehangStores(m0: Memory, m: Memory, lk: Links, sizes: map<int, nat>, t: Tree, k: nat, rk: nat, r: int, t': Tree)
    requires Tracks(m0, m, lk, sizes) && NodesIn(t, sizes) && Holds(lk, t)
    requires CanRehang(t, k, rk, r) && r in sizes && sizes[r] >= MIN_LARGE_SIZE
    requires r in t.left && r in t.right && t.left[r] == 0 && t.right[r] == 0
    requires Hung(t, k) && t' == Rehung(t, k, rk, r)
    ensures TreeIndex(k) < |t.roots|
    ensures var x := t.nd[k]; var xp := t.par[x]; var isRoot := t.roots[TreeIndex(k)] == x;
      && xp != 0 && (!isRoot ==> xp + 16 in m && xp + 20 in m) && x + 16 in m && x + 20 in m
      && Tracks(m0, RelinkedDown(RelinkedUp(m, isRoot, x, xp, r), x, xp, r),
                lk.(left := t'.left, right := t'.right, par := t'.par), sizes)
      && t'.roots == if isRoot then t.roots[TreeIndex(k) := r] else t.roots
  {
    hide Same, Turn, Width, TreeSize, TreeIndex, TreeInv, WellFormed, Renamed, Tracks, UpLinks, DownLinks, RelinkedUp, RelinkedDown;
    HangPlace(t, k);
    RelinkUpStores(m0, m, lk, sizes, t, k, r);
    RehangLinks(lk, t, k, rk, r);
    var x := t.nd[k];
    KidsIn(t, k, sizes);
    var m1 := RelinkedUp(m, t.roots[TreeIndex(k)] == x, x, t.par[x], r);
    RelinkDownStores(m0, m1, UpLinks(lk, t, k, r), sizes, x, t.par[x], r);
    RepOf(m0, m, lk, sizes);
    FieldsOf(m, lk, sizes, x);
  }

  lemma KidsIn(t: Tree, k: nat, sizes: map<int, nat>)
    requires TreeInv(t) && NodesIn(t, sizes) && k in t.sh.depth && Hung(t, k)
    ensures t.nd[k] in sizes && sizes[t.nd[k]] >= MIN_LARGE_SIZE
    ensures var c := t.left[t.nd[k]]; c != 0 ==> c in sizes && sizes[c] >= MIN_LARGE_SIZE
    ensures var c := t.right[t.nd[k]]; c != 0 ==> c in sizes && sizes[c] >= MIN_LARGE_SIZE
  {
    hide Same, Turn, Width, TreeSize, TreeIndex, TreeInv, WellFormed;
    At(t, k);
    assert t.nd[k] in sizes;
    if t.left[t.nd[k]] != 0 { KidBelow(t, k, 0); }
    if t.right[t.nd[k]] != 0 { KidBelow(t, k, 1); }
  }

  lemma BinNodes(b: Bins)
    requires BinsInv(b)
    ensures NodesIn(TreeOf(b), b.binned) && Holds(b.lk, TreeOf(b))
  {
    hide BinsInv, TreeInv, TreeOf;
    TreePart(b);
    forall s | s in TreeOf(b).sh.depth && s in TreeOf(b).nd
      ensures TreeOf(b).nd[s] in b.binned && b.binned[TreeOf(b).nd[s]] >= MIN_LARGE_SIZE
    {
      NodeIs(b, s);
    }
  }

  // ---- the three ways a tree node leaves

  lemma StepDetach(b: Bins, s: nat)
    requires BinsInv(b) && s in b.sh.depth && Leaf(b.sh, s)
    ensures Hung(TreeOf(b), s) && s in b.ring && |b.ring[s]| > 0
    ensures |b.ring[s]| == 1 ==> TreeStep(b, Detached(TreeOf(b), s), s)
    ensures var t := Detached(TreeOf(b), s);
      && t.key == b.binned - {b.ring[s][0]} && t.nd == TreeOf(b).nd - {s} && s !in t.sh.depth
      && TreeInv(t) && NodesIn(t, b.binned)
  {
    hide BinsInv, TreeInv, TreeOf, TreeIndex, TreeSize, Turn, Width, Same, Placed;
    TreePart(b);
    NodeIs(b, s);
    At(TreeOf(b), s);
    DetachLeaf(TreeOf(b), s);
    BinNodes(b);
    var t := Detached(TreeOf(b), s);
    if |b.ring[s]| == 1 {
      forall c | c in b.binned && b.binned[c] != s && Bare(TreeOf(b), c) ensures Bare(t, c) { DetachedBare(TreeOf(b), s, c); }
    }
  }

  lemma StepPromote(b: Bins, s: nat)
    requires BinsInv(b) && s in b.sh.depth && s in b.ring && |b.ring[s]| > 1
    ensures var r := b.ring[s][|b.ring[s]| - 1];
      && CanRehang(TreeOf(b), s, s, r) && r in b.binned && b.binned[r] == s
      && Bare(TreeOf(b), r) && Hung(TreeOf(b), s)
      && TreeStep(b, Rehung(TreeOf(b), s, s, r), s)
      && var t := Rehung(TreeOf(b), s, s, r);
      && t.key == b.binned - {b.ring[s][0]} && t.nd == TreeOf(b).nd[s := r] && s in t.sh.depth
      && (forall c :: c in b.binned && Bare(TreeOf(b), c) && c != r ==> Bare(t, c))
  {
    hide BinsInv, TreeInv, TreeOf, TreeIndex, TreeSize, Turn, Width, Same, Placed, WellFormed;
    var r := b.ring[s][|b.ring[s]| - 1];
    TreePart(b);
    NodeIs(b, s);
    LastChained(b, s);
    At(TreeOf(b), s);
    RenameSelf(b.sh, s);
    Rehang(TreeOf(b), s, s, r);
    var t := Rehung(TreeOf(b), s, s, r);
    forall c | c in b.binned && Bare(TreeOf(b), c) && c != r ensures Bare(t, c) { RehungBare(TreeOf(b), s, s, r, c); }
    assert t.key == b.binned - {b.ring[s][0]};
  }

  lemma RenameSelf(sh: Shape, s: nat)
    requires WellFormed(sh) && s in sh.depth
    ensures CanRename(sh, s, s)
    ensures Renamed(sh, s, s).depth == sh.depth
  {
    assert Placed(sh, s);
  }

  lemma LastChained(b: Bins, s: nat)
    requires BinsInv(b) && s in b.sh.depth && s in b.ring && |b.ring[s]| > 1
    ensures var r := b.ring[s][|b.ring[s]| - 1];
      && r != b.ring[s][0] && r >= HEAP_MIN && r in b.binned && b.binned[r] == s && Bare(TreeOf(b), r)
  {
    hide TreeInv, Cycle, TreeIndex;
    ChainMembers(b, s);
    assert Member(b, s, b.ring[s][|b.ring[s]| - 1]);
    assert Chained(b, b.ring[s][|b.ring[s]| - 1]);
  }
}

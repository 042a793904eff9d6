/**
 * Word-addressed memory and the link fields that free chunks keep in it.
 * A chunk at p has its head at p + 4; a free one keeps fd, bk at p + 8, p + 12 and, if
 * large, the tree fields up to p + 28, inside the space a client would use.
 */
module ChunkMemory {
  import opened SizeClass
  import opened TreeLinks
  import opened Bins

  type Memory = map<int, int>

  datatype Field = Fd | Bk | Left | Right | Par | Idx

  function Offset(f: Field): int {
    match f
    case Fd => 8
    case Bk => 12
    case Left => 16
    case Right => 20
    case Par => 24
    case Idx => 28
  }

  function SetLink(lk: Links, p: int, f: Field, v: int): Links {
    match f
    case Fd => lk.(fd := lk.fd[p := v])
    case Bk => lk.(bk := lk.bk[p := v])
    case Left => lk.(left := lk.left[p := v])
    case Right => lk.(right := lk.right[p := v])
    case Par => lk.(par := lk.par[p := v])
    case Idx => lk.(idx := lk.idx[p := v])
  }

  ghost predicate RingFields(m: Memory, lk: Links, p: int) {
    && p + 8 in m && p in lk.fd && m[p + 8] == lk.fd[p]
    && p + 12 in m && p in lk.bk && m[p + 12] == lk.bk[p]
  }

  ghost predicate TreeFields(m: Memory, lk: Links, p: int) {
    && p + 16 in m && p in lk.left && m[p + 16] == lk.left[p]
    && p + 20 in m && p in lk.right && m[p + 20] == lk.right[p]
    && p + 24 in m && p in lk.par && m[p + 24] == lk.par[p]
    && p + 28 in m && p in lk.idx && m[p + 28] == lk.idx[p]
  }

  ghost predicate Stored(m: Memory, lk: Links, p: int, s: nat) {
    RingFields(m, lk, p) && (s >= MIN_LARGE_SIZE ==> TreeFields(m, lk, p))
  }

  ghost predicate Header(m: Memory, lk: Links, i: nat) {
    RingFields(m, lk, Sentinel(i))
  }

  /** The links lk are what memory m holds in the chunks of `sizes` and in the bin headers. */
  ghost predicate Rep(m: Memory, lk: Links, sizes: map<int, nat>) {
    && (forall p {:trigger Stored(m, lk, p, sizes[p])} :: p in sizes ==> Stored(m, lk, p, sizes[p]))
    && (forall i {:trigger Header(m, lk, i)} :: 0 <= i < NBINS ==> Header(m, lk, i))
  }

  ghost predicate Apart(sizes: map<int, nat>, p: int, q: int)
    requires p in sizes && q in sizes
  {
    p == q || p + sizes[p] <= q || q + sizes[q] <= p
  }

  /** The chunks of `sizes` do not overlap and lie above the bin headers. */
  ghost predicate Spaced(sizes: map<int, nat>) {
    && (forall p :: p in sizes ==> p >= HEAP_MIN && p % 8 == 0 && sizes[p] >= MIN_CHUNK_SIZE && sizes[p] % 8 == 0)
    && (forall p, q {:trigger Apart(sizes, p, q)} :: p in sizes && q in sizes ==> Apart(sizes, p, q))
  }

  /** Field f may be written at p: p is a bin header, or a chunk large enough to have it. */
  ghost predicate HasField(sizes: map<int, nat>, p: int, f: Field) {
    || (p in sizes && (f.Fd? || f.Bk? || sizes[p] >= MIN_LARGE_SIZE))
    || ((f.Fd? || f.Bk?) && exists i :: 0 <= i < NBINS && p == Sentinel(i))
  }

  lemma StoreOther(m: Memory, lk: Links, sizes: map<int, nat>, p: int, f: Field, v: int, q: int)
    requires Rep(m, lk, sizes) && Spaced(sizes) && HasField(sizes, p, f) && q in sizes
    ensures Stored(m[p + Offset(f) := v], SetLink(lk, p, f, v), q, sizes[q])
  {
    assert Stored(m, lk, q, sizes[q]);
    if p in sizes { assert Apart(sizes, p, q); }
  }

  lemma StoreHeader(m: Memory, lk: Links, sizes: map<int, nat>, p: int, f: Field, v: int, i: nat)
    requires Rep(m, lk, sizes) && Spaced(sizes) && HasField(sizes, p, f) && i < NBINS
    ensures Header(m[p + Offset(f) := v], SetLink(lk, p, f, v), i)
  {
    assert Header(m, lk, i);
  }

  /** Writing one link field changes that field of that chunk and no other link. */
  lemma Store(m: Memory, lk: Links, sizes: map<int, nat>, p: int, f: Field, v: int)
    requires Rep(m, lk, sizes) && Spaced(sizes) && HasField(sizes, p, f)
    ensures Rep(m[p + Offset(f) := v], SetLink(lk, p, f, v), sizes)
  {
    var m', lk' := m[p + Offset(f) := v], SetLink(lk, p, f, v);
    forall q | q in sizes ensures Stored(m', lk', q, sizes[q]) { StoreOther(m, lk, sizes, p, f, v, q); }
    forall i | 0 <= i < NBINS ensures Header(m', lk', i) { StoreHeader(m, lk, sizes, p, f, v, i); }
  }

  /** The links of chunk x as they happen to be in memory. */
  function Adopted(m: Memory, lk: Links, x: int, s: nat): Links
    requires x + 8 in m && x + 12 in m
    requires s >= MIN_LARGE_SIZE ==> x + 16 in m && x + 20 in m && x + 24 in m && x + 28 in m
  {
    var lk1 := lk.(fd := lk.fd[x := m[x + 8]], bk := lk.bk[x := m[x + 12]]);
    if s >= MIN_LARGE_SIZE then
      lk1.(left := lk.left[x := m[x + 16]], right := lk.right[x := m[x + 20]],
           par := lk.par[x := m[x + 24]], idx := lk.idx[x := m[x + 28]])
    else lk1
  }

  lemma Adopt(m: Memory, lk: Links, sizes: map<int, nat>, x: int, s: nat)
    requires Rep(m, lk, sizes) && x !in sizes && x >= HEAP_MIN
    requires x + 8 in m && x + 12 in m
    requires s >= MIN_LARGE_SIZE ==> x + 16 in m && x + 20 in m && x + 24 in m && x + 28 in m
    ensures Rep(m, Adopted(m, lk, x, s), sizes[x := s])
  {
    var lk' := Adopted(m, lk, x, s);
    var sizes' := sizes[x := s];
    forall q | q in sizes' ensures Stored(m, lk', q, sizes'[q]) {
      if q != x { assert Stored(m, lk, q, sizes[q]); }
    }
    forall i | 0 <= i < NBINS ensures Header(m, lk', i) { assert Header(m, lk, i); }
  }

  lemma Forget(m: Memory, lk: Links, sizes: map<int, nat>, x: int)
    requires Rep(m, lk, sizes)
    ensures Rep(m, lk, sizes - {x})
  {
    forall q | q in sizes && q != x ensures Stored(m, lk, q, (sizes - {x})[q]) { assert Stored(m, lk, q, sizes[q]); }
  }

  /** a is a word of a link field of a chunk of `sizes`, or of a bin header. */
  ghost predicate LinkWord(sizes: map<int, nat>, a: int) {
    a < HEAP_MIN || exists p :: p in sizes && InLinks(sizes, p, a)
  }

  ghost predicate InLinks(sizes: map<int, nat>, p: int, a: int)
    requires p in sizes
  {
    p + 8 <= a < p + 32 && a < p + sizes[p]
  }

  /** Memory changed in link words only. */
  ghost predicate LinksOnly(m: Memory, m': Memory, sizes: map<int, nat>) {
    && m'.Keys == m.Keys
    && (forall a {:trigger m'[a]} :: a in m && !LinkWord(sizes, a) ==> m'[a] == m[a])
  }

  lemma StoreLinksOnly(m0: Memory, m: Memory, sizes: map<int, nat>, p: int, f: Field, v: int)
    requires LinksOnly(m0, m, sizes) && HasField(sizes, p, f) && p + Offset(f) in m
    requires p in sizes ==> sizes[p] >= MIN_CHUNK_SIZE
    ensures LinksOnly(m0, m[p + Offset(f) := v], sizes)
  {
    assert LinkWord(sizes, p + Offset(f)) by {
      if p in sizes { assert InLinks(sizes, p, p + Offset(f)); }
    }
  }

  /** chunksize of a head word */
  function HeadSize(h: int): int { h / 8 * 8 }

  ghost predicate HeadAt(m: Memory, p: int, s: nat) {
    p + 4 in m && HeadSize(m[p + 4]) == s
  }

  ghost predicate Heads(m: Memory, sizes: map<int, nat>) {
    forall p {:trigger HeadAt(m, p, sizes[p])} :: p in sizes ==> HeadAt(m, p, sizes[p])
  }

  lemma HeadsFrame(m: Memory, m': Memory, sizes: map<int, nat>)
    requires Spaced(sizes) && Heads(m, sizes) && LinksOnly(m, m', sizes)
    ensures Heads(m', sizes)
  {
    forall p | p in sizes ensures HeadAt(m', p, sizes[p]) {
      assert HeadAt(m, p, sizes[p]);
      HeadNotLink(sizes, p);
    }
  }

  lemma HeadNotLink(sizes: map<int, nat>, p: int)
    requires Spaced(sizes) && p in sizes
    ensures !LinkWord(sizes, p + 4)
  {
    forall q | q in sizes ensures !InLinks(sizes, q, p + 4) { assert Apart(sizes, p, q); }
  }
}

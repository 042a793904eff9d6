/**
 * Sizes, alignment and bin indices: the pure expressions of the allocator
 * (4-byte words, 8-byte alignment, no footers).
 */
module SizeClass {
  import opened Arithmetic

  const MAX_SIZE_T := 0xFFFF_FFFF
  const WORD_SPAN := 0x1_0000_0000
  const MIN_CHUNK_SIZE := 16
  const CHUNK_OVERHEAD := 4
  const MIN_LARGE_SIZE := 256
  const MAX_SMALL_REQUEST := 244
  const MIN_REQUEST := 11
  const MAX_REQUEST := 0xFFFF_FFC0
  const NBINS := 32

  /** pad_request: add the head word and round up to 8, in 32-bit arithmetic. */
  function PadRequest(bytes: nat): nat {
    ((bytes + CHUNK_OVERHEAD + 7) % WORD_SPAN) / 8 * 8
  }

  function RequestToSize(bytes: nat): nat {
    if bytes < MIN_REQUEST then MIN_CHUNK_SIZE else PadRequest(bytes)
  }

  lemma RequestFits(bytes: nat)
    requires bytes < MAX_REQUEST
    ensures RequestToSize(bytes) % 8 == 0 && RequestToSize(bytes) >= MIN_CHUNK_SIZE
    ensures bytes + CHUNK_OVERHEAD <= RequestToSize(bytes) < WORD_SPAN
    ensures RequestToSize(bytes) < bytes + CHUNK_OVERHEAD + 8 || RequestToSize(bytes) == MIN_CHUNK_SIZE
    ensures bytes <= MAX_SMALL_REQUEST <==> RequestToSize(bytes) < MIN_LARGE_SIZE
  {
  }

  predicate IsSmall(s: nat) { s / 8 < NBINS }

  function SmallIndex(s: nat): nat { s / 8 }

  /** Shifting right by n, one bit at a time. */
  function Shr(s: nat, n: nat): nat {
    if n == 0 then s else Shr(s, n - 1) / 2
  }

  /** Position of the highest set bit. */
  function Log2(x: nat): (k: nat)
    requires x > 0
    ensures Shr(x, k) == 1
  {
    if x == 1 then 0 else Log2Step(x); Log2(x / 2) + 1
  }

  lemma {:induction false} ShrHalf(x: nat, k: nat)
    ensures Shr(x, k + 1) == Shr(x / 2, k)
  {
    if k > 0 { ShrHalf(x, k - 1); }
  }

  lemma Log2Step(x: nat)
    requires x > 1
    ensures forall k: nat :: Shr(x / 2, k) == Shr(x, k + 1)
  {
    forall k: nat { ShrHalf(x, k); }
  }

  /** compute_tree_index */
  function TreeIndex(s: nat): nat {
    var x := Shr(s, 8);
    if x == 0 then 0
    else if x > 0xFFFF then 31
    else
      var k := Log2(x);
      2 * k + Shr(s, k + 7) % 2
  }

  function Pow2(n: nat): nat { if n == 0 then 1 else 2 * Pow2(n - 1) }

  /** minsize_for_tree_index */
  function MinSize(i: nat): nat {
    Pow2(i / 2 + 8) + (i % 2) * Pow2(i / 2 + 7)
  }

  lemma HalvedBounds(s: nat, a: nat, p: nat)
    requires a * p <= s < (a + 1) * p
    ensures (a / 2) * (2 * p) <= s < (a / 2 + 1) * (2 * p)
  {
    var b := a / 2;
    assert b * (2 * p) == (2 * b) * p;
    assert (b + 1) * (2 * p) == (2 * b + 2) * p;
    if a == 2 * b {
      assert (a + 2) * p == (a + 1) * p + p;
    } else {
      assert a * p == (2 * b) * p + p;
    }
  }

  lemma {:induction false} ShrBounds(s: nat, n: nat)
    ensures Shr(s, n) * Pow2(n) <= s < (Shr(s, n) + 1) * Pow2(n)
  {
    if n > 0 {
      ShrBounds(s, n - 1);
      HalvedBounds(s, Shr(s, n - 1), Pow2(n - 1));
    }
  }

  lemma {:induction false} ShrShr(s: nat, m: nat, n: nat)
    ensures Shr(Shr(s, m), n) == Shr(s, m + n)
  {
    if n > 0 { ShrShr(s, m, n - 1); }
  }

  lemma {:induction false} ShrMonotone(s: nat, t: nat, n: nat)
    requires s <= t
    ensures Shr(s, n) <= Shr(t, n)
  {
    if n > 0 { ShrMonotone(s, t, n - 1); }
  }

  lemma {:induction false} Pow2Monotone(m: nat, n: nat)
    requires m <= n
    ensures 0 < Pow2(m) <= Pow2(n)
  {
    if n > 0 {
      if m < n { Pow2Monotone(m, n - 1); } else { Pow2Monotone(m - 1, n - 1); }
    }
  }

  lemma Pow2Values()
    ensures Pow2(7) == 0x80 && Pow2(8) == 0x100 && Pow2(16) == 0x1_0000
    ensures Pow2(22) == 0x40_0000 && Pow2(23) == 0x80_0000 && Pow2(24) == 0x100_0000
    ensures Pow2(31) == 0x8000_0000 && Pow2(32) == WORD_SPAN
  {
    assert Pow2(4) == 16;
    assert Pow2(10) == 1024;
    assert Pow2(20) == 0x10_0000;
    assert Pow2(28) == 0x1000_0000;
  }

  /** The range of a tree index: [MinSize(i), MinSize(i + 1)), the last one open above. */
  lemma TreeIndexRange(s: nat)
    requires s >= MIN_LARGE_SIZE
    ensures TreeIndex(s) < NBINS
    ensures MinSize(TreeIndex(s)) <= s
    ensures TreeIndex(s) < NBINS - 1 ==> s < MinSize(TreeIndex(s) + 1)
    ensures TreeIndex(s) < NBINS - 1 ==> Shr(s, TreeIndex(s) / 2 + 7) == 2 + TreeIndex(s) % 2
  {
    hide MinSize, Pow2;
    Pow2Values();
    var x := Shr(s, 8);
    ShrBounds(s, 8);
    assert x > 0;
    if x > 0xFFFF {
      LastMinSize();
    } else {
      var k := Log2(x);
      ShrBounds(x, k);
      if k >= 16 { Pow2Monotone(16, k); assert false; }
      ShrShr(s, 8, k);
      LastTwoBits(s, k);
    }
  }

  /** The two trees of a power of two. */
  lemma MinSizeForms(k: nat)
    ensures Pow2(k + 7) > 0 && Pow2(k + 8) == 2 * Pow2(k + 7) && Pow2(k + 9) == 4 * Pow2(k + 7)
    ensures MinSize(2 * k) == 2 * Pow2(k + 7) && MinSize(2 * k + 1) == 3 * Pow2(k + 7) && MinSize(2 * k + 2) == 4 * Pow2(k + 7)
  {
    Pow2Monotone(0, k + 7);
    DivUnique(2 * k, k, 2, 0);
    DivUnique(2 * k + 1, k, 2, 1);
    DivUnique(2 * k + 2, k + 1, 2, 0);
  }

  lemma LastMinSize()
    ensures MinSize(31) == 0xC0_0000
  {
    Pow2Values();
  }

  lemma LastTwoBits(s: nat, k: nat)
    requires Shr(s, k + 8) == 1 && k < 16
    ensures var i := 2 * k + Shr(s, k + 7) % 2;
      && Shr(s, k + 7) == 2 + i % 2 && i / 2 == k && i < 32
      && MinSize(i) <= s < MinSize(i + 1)
  {
    hide MinSize, Pow2;
    var a := Shr(s, k + 7);
    assert a / 2 == 1;
    assert a == 2 || a == 3;
    ShrBounds(s, k + 7);
    MinSizeForms(k);
    DivUnique(2 * k, k, 2, 0);
    DivUnique(2 * k + 1, k, 2, 1);
  }

  lemma MinSizeStep(i: nat)
    ensures MinSize(i) <= MinSize(i + 1)
  {
    hide MinSize, Pow2;
    MinSizeForms(i / 2);
    assert i == 2 * (i / 2) || i == 2 * (i / 2) + 1;
  }

  lemma {:induction false} MinSizeMonotone(i: nat, j: nat)
    requires i <= j
    ensures MinSize(i) <= MinSize(j)
    decreases j - i
  {
    hide MinSize;
    if i < j {
      MinSizeStep(i);
      MinSizeMonotone(i + 1, j);
    }
  }

  /** Any chunk of a later tree is larger than any chunk of an earlier one. */
  lemma TreeOrder(s: nat, t: nat)
    requires s >= MIN_LARGE_SIZE && t >= MIN_LARGE_SIZE
    requires TreeIndex(s) < TreeIndex(t)
    ensures s < t
  {
    TreeIndexRange(s);
    TreeIndexRange(t);
    MinSizeMonotone(TreeIndex(s) + 1, TreeIndex(t));
  }

  // ---------------------------------------------------------------- trie keys

  /** Number of size bits that the tree of size s resolves (bit_for_tree_index + 1). */
  function Width(s: nat): nat {
    if TreeIndex(s) == NBINS - 1 then 32 else TreeIndex(s) / 2 + 7
  }

  /** s and t live in the same tree and agree on its first d resolved bits. */
  predicate Same(s: nat, t: nat, d: nat) {
    TreeIndex(s) == TreeIndex(t) && d <= Width(s) && Shr(s, Width(s) - d) == Shr(t, Width(s) - d)
  }

  /** The child slot that a walk for size s takes below depth d. */
  function Turn(s: nat, d: nat): nat
    requires d < Width(s)
  {
    Shr(s, Width(s) - 1 - d) % 2
  }

  predicate TreeSize(s: nat) { MIN_LARGE_SIZE <= s < WORD_SPAN }

  lemma SameRoot(s: nat, t: nat)
    requires TreeSize(s) && TreeSize(t) && TreeIndex(s) == TreeIndex(t)
    ensures Same(s, t, 0)
  {
    TreeIndexRange(s);
    TreeIndexRange(t);
    if TreeIndex(s) == NBINS - 1 {
      Pow2Values();
      ShrBounds(s, 32);
      ShrBounds(t, 32);
    }
  }

  lemma SameTrans(s: nat, t: nat, u: nat, d: nat)
    requires Same(s, t, d) && Same(t, u, d)
    ensures Same(t, s, d) && Same(s, u, d) && Same(u, s, d)
    ensures Width(s) == Width(t) == Width(u) && d <= Width(s)
  {}

  lemma SameSym(s: nat, t: nat, d: nat)
    requires Same(s, t, d)
    ensures Same(t, s, d) && Width(s) == Width(t) && d <= Width(s)
  {}

  lemma {:induction false} SameLess(s: nat, t: nat, d: nat, e: nat)
    requires Same(s, t, d) && e <= d
    ensures Same(s, t, e)
    decreases d - e
  {
    if e < d { SameLess(s, t, d, e + 1); }
  }

  lemma SameStep(s: nat, t: nat, d: nat)
    requires Same(s, t, d) && d < Width(s)
    ensures d < Width(t)
    ensures Same(s, t, d + 1) <==> Turn(s, d) == Turn(t, d)
  {
    assert Shr(s, Width(s) - d) == Shr(s, Width(s) - d - 1) / 2;
    assert Shr(t, Width(s) - d) == Shr(t, Width(s) - d - 1) / 2;
  }

  lemma SameFull(s: nat, t: nat)
    requires Same(s, t, Width(s))
    ensures s == t
  {}

  lemma TurnOrder(s: nat, t: nat, d: nat)
    requires Same(s, t, d) && d < Width(s) && Turn(s, d) < Turn(t, d)
    ensures s < t
  {
    SameStep(s, t, d);
    if t <= s { ShrMonotone(t, s, Width(s) - 1 - d); }
  }

  lemma SameTurn(s: nat, t: nat, d: nat, e: nat)
    requires Same(s, t, d) && e < d
    ensures e < Width(s) && e < Width(t) && Turn(s, e) == Turn(t, e)
  {
    SameLess(s, t, d, e + 1);
    SameLess(s, t, e + 1, e);
    SameStep(s, t, e);
  }

  // ---------------------------------------------------------------- the shifted key of a walk

  /** leftshift_for_tree_index */
  function LeftShift(i: nat): nat
    requires i < NBINS
  {
    if i == NBINS - 1 then 0 else 31 - (i / 2 + 6)
  }

  /** The key word after d steps: size << leftshift, then one left shift for each step. */
  function KeyAt(s: nat, d: nat): nat
    requires TreeIndex(s) < NBINS
  {
    if d == 0 then (s * Pow2(LeftShift(TreeIndex(s)))) % WORD_SPAN else (KeyAt(s, d - 1) * 2) % WORD_SPAN
  }

  lemma Distribute(e: nat, q: nat, r: nat, p: nat)
    requires r < q && p > 0
    ensures (e * q + r) * p == e * (q * p) + r * p
    ensures r * p < q * p
  {
    assert (e * q + r) * p == (e * q) * p + r * p;
  }

  lemma MulMod(s: nat, q: nat, p: nat)
    requires q > 0 && p > 0
    ensures q * p > 0 && (s * p) % (q * p) == (s % q) * p
  {
    var k, r := s / q, s % q;
    assert s == k * q + r;
    assert s * p == k * (q * p) + r * p by { assert (k * q + r) * p == (k * q) * p + r * p; }
    assert r * p < q * p;
    DivUnique(s * p, k, q * p, r * p);
  }

  lemma {:induction false} Pow2Add(m: nat, n: nat)
    ensures Pow2(m) * Pow2(n) == Pow2(m + n)
  {
    if m > 0 {
      Pow2Add(m - 1, n);
      assert Pow2(m) * Pow2(n) == 2 * (Pow2(m - 1) * Pow2(n));
    }
  }

  lemma ModTop(s: nat, w: nat)
    requires w > 0
    ensures Pow2(w) > 0 && Pow2(w - 1) > 0
    ensures s % Pow2(w) == (Shr(s, w - 1) % 2) * Pow2(w - 1) + s % Pow2(w - 1)
  {
    Pow2Monotone(0, w);
    Pow2Monotone(0, w - 1);
    ShrBounds(s, w - 1);
    TopOf(s, Shr(s, w - 1), Pow2(w - 1));
  }

  lemma TopOf(s: nat, a: nat, p: nat)
    requires p > 0 && a * p <= s < (a + 1) * p
    ensures s % p == s - a * p && s % (2 * p) == (a % 2) * p + (s - a * p)
  {
    var r, e := s - a * p, a % 2;
    assert (a + 1) * p == a * p + p;
    DivUnique(s, a, p, r);
    Halved(a, p);
    if e == 1 { assert e * p == p; } else { assert e * p == 0; }
    DivUnique(s, a / 2, 2 * p, e * p + r);
  }

  lemma Halved(a: nat, p: nat)
    ensures a * p == (a / 2) * (2 * p) + (a % 2) * p
  {
    var h, e := a / 2, a % 2;
    assert a == 2 * h + e;
    assert (2 * h + e) * p == (2 * h) * p + e * p;
    assert (2 * h) * p == h * (2 * p);
  }

  lemma {:induction false} KeyForm(s: nat, d: nat)
    requires TreeIndex(s) < NBINS && d <= Width(s)
    ensures Pow2(Width(s) - d) > 0
    ensures KeyAt(s, d) == (s % Pow2(Width(s) - d)) * Pow2(32 - Width(s) + d)
  {
    Pow2Values();
    var w := Width(s) - d;
    Pow2Monotone(0, w);
    Pow2Monotone(0, 32 - w);
    Pow2Add(w, 32 - w);
    if d == 0 {
      assert LeftShift(TreeIndex(s)) == 32 - w;
      MulMod(s, Pow2(w), Pow2(32 - w));
    } else {
      KeyForm(s, d - 1);
      KeyStep(s, w, Pow2(w), Pow2(32 - w), KeyAt(s, d - 1));
    }
  }

  lemma DoubleKey(k: nat, e: nat, q: nat, r: nat, h: nat)
    requires k == (e * q + r) * h && r < q && h > 0 && q * (2 * h) == WORD_SPAN
    ensures (k * 2) % WORD_SPAN == r * (2 * h)
  {
    Distribute(e, q, r, 2 * h);
    assert ((e * q + r) * h) * 2 == (e * q + r) * (2 * h);
    DivUnique(k * 2, e, WORD_SPAN, r * (2 * h));
  }

  lemma TopKey(k: nat, e: nat, q: nat, r: nat, p: nat)
    requires k == (e * q + r) * p && r < q && p > 0 && q * p == 0x8000_0000
    ensures k / 0x8000_0000 == e
  {
    Distribute(e, q, r, p);
    TopDigit(k, e, r * p);
  }

  lemma KeyStep(s: nat, w: nat, q: nat, p: nat, k: nat)
    requires w < 32 && q == Pow2(w) && p == Pow2(32 - w) && q > 0 && p > 0 && q * p == WORD_SPAN
    requires Pow2(w + 1) > 0 && k == (s % Pow2(w + 1)) * Pow2(31 - w)
    ensures (k * 2) % WORD_SPAN == (s % q) * p
  {
    ModTop(s, w + 1);
    assert p == 2 * Pow2(31 - w);
    hide Pow2, Shr;
    DoubleKey(k, Shr(s, w) % 2, q, s % q, Pow2(31 - w));
  }

  /** The top bit of the key word is the child slot that the walk takes. */
  lemma KeyTurn(s: nat, d: nat)
    requires TreeIndex(s) < NBINS && d < Width(s)
    ensures KeyAt(s, d) / 0x8000_0000 == Turn(s, d)
  {
    hide Pow2, Shr, KeyAt, Width, TreeIndex;
    var w := Width(s) - d;
    WidthBound(s);
    KeyForm(s, d);
    ModTop(s, w);
    Pow2Monotone(0, 32 - w);
    Pow2Add(w - 1, 32 - w);
    Pow2Values();
    TopKey(KeyAt(s, d), Turn(s, d), Pow2(w - 1), s % Pow2(w - 1), Pow2(32 - w));
  }

  lemma WidthBound(s: nat)
    requires TreeIndex(s) < NBINS
    ensures 0 < Width(s) <= 32
  {}

  lemma TopDigit(k: nat, e: nat, r: nat)
    requires k == e * 0x8000_0000 + r && r < 0x8000_0000
    ensures k / 0x8000_0000 == e
  {}
}

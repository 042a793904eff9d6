/**
 * Bin bitmaps: one bit per bin in a 32-bit word, and the bit tricks that search them.
 */
module Bitmap {

  /** A bin index as a shift count. */
  function Count(i: nat): (b: bv6)
    requires i < 32
    ensures b < 32 && b as nat == i
  {
    if i == 0 then 0 else Count(i - 1) + 1
  }

  predicate BitAt(x: bv32, b: bv6)
    requires b < 32
  {
    (x >> b) & 1 == 1
  }

  function MaskAt(b: bv6): bv32
    requires b < 32
  {
    1 << b
  }

  /** Bin i is marked in map x. */
  predicate Bit(x: bv32, i: nat)
    requires i < 32
  {
    BitAt(x, Count(i))
  }

  /** idx2bit */
  function Mask(i: nat): bv32
    requires i < 32
  {
    MaskAt(Count(i))
  }

  function ShiftRight(x: bv32, i: nat): bv32
    requires i < 32
  {
    ShiftAt(x, Count(i))
  }

  function ShiftAt(x: bv32, b: bv6): bv32
    requires b < 32
  {
    x >> b
  }

  function AboveAt(x: bv32, b: bv6): bv32
    requires b < 32
  {
    (ShiftAt(x, b) << b) & LeftBits(MaskAt(b))
  }

  /** least_bit */
  function LeastBit(x: bv32): bv32 { x & -x }

  /** left_bits */
  function LeftBits(x: bv32): bv32 { (x << 1) | -(x << 1) }

  /** compute_bit2idx, the portable form */
  function BitIndex(x: bv32): bv32 {
    var y := x - 1;
    var k1 := (y >> 12) & 16;
    var y1 := y >> (k1 as bv6);
    var k2 := (y1 >> 5) & 8;
    var y2 := y1 >> (k2 as bv6);
    var k3 := (y2 >> 2) & 4;
    var y3 := y2 >> (k3 as bv6);
    var k4 := (y3 >> 1) & 2;
    var y4 := y3 >> (k4 as bv6);
    var k5 := y4 & 1;
    k1 + k2 + k3 + k4 + k5 + (y4 >> (k5 as bv6))
  }

  lemma CountOrder(i: nat, j: nat)
    requires i < 32 && j < 32
    ensures Count(i) == Count(j) <==> i == j
    ensures Count(i) < Count(j) <==> i < j
  {}

  // y is x with bit a set, with bit a cleared, and the part of x above bit a.

  predicate IsMarked(y: bv32, x: bv32, m: bv32) { y == x | m }
  predicate IsCleared(y: bv32, x: bv32, m: bv32) { y == x & !m }
  predicate IsAbove(y: bv32, x: bv32, m: bv32) { y == LeftBits(m) & x }

  lemma MarkedAt(y: bv32, x: bv32, a: bv6, b: bv6)
    requires a < 32 && b < 32 && IsMarked(y, x, MaskAt(a))
    ensures BitAt(y, b) <==> a == b || BitAt(x, b)
  {}

  lemma ClearedAt(y: bv32, x: bv32, a: bv6, b: bv6)
    requires a < 32 && b < 32 && IsCleared(y, x, MaskAt(a))
    ensures BitAt(y, b) <==> a != b && BitAt(x, b)
  {}

  lemma LeftAt(y: bv32, x: bv32, a: bv6, b: bv6)
    requires a < 32 && b < 32 && IsAbove(y, x, MaskAt(a))
    ensures BitAt(y, b) <==> b > a && BitAt(x, b)
  {}

  /** mark_smallmap, mark_treemap */
  function MarkBit(x: bv32, i: nat): bv32
    requires i < 32
  {
    x | Mask(i)
  }

  /** clear_smallmap, clear_treemap */
  function ClearBit(x: bv32, i: nat): bv32
    requires i < 32
  {
    x & !Mask(i)
  }

  /** left_bits(idx2bit(i)) & x */
  function LaterBits(x: bv32, i: nat): bv32
    requires i < 32
  {
    LeftBits(Mask(i)) & x
  }

  /** Marking and clearing a bin changes its own bit only; left_bits keeps the bins above it. */
  lemma UpdateBits(x: bv32, i: nat, j: nat)
    requires i < 32 && j < 32
    ensures Bit(MarkBit(x, i), j) <==> i == j || Bit(x, j)
    ensures Bit(ClearBit(x, i), j) <==> i != j && Bit(x, j)
    ensures Bit(LaterBits(x, i), j) <==> j > i && Bit(x, j)
  {
    hide *;
    MaskIs(i);
    BitIs(x, j);
    CountOrder(i, j);
    BitIs(MarkBit(x, i), j);
    BitIs(ClearBit(x, i), j);
    BitIs(LaterBits(x, i), j);
    UpdateForms(x, i);
    MarkedAt(MarkBit(x, i), x, Count(i), Count(j));
    ClearedAt(ClearBit(x, i), x, Count(i), Count(j));
    LeftAt(LaterBits(x, i), x, Count(i), Count(j));
  }

  lemma UpdateForms(x: bv32, i: nat)
    requires i < 32
    ensures IsMarked(MarkBit(x, i), x, Mask(i)) && IsCleared(ClearBit(x, i), x, Mask(i)) && IsAbove(LaterBits(x, i), x, Mask(i))
  {
    hide *;
    MarkForm(x, i);
    ClearForm(x, i);
    LaterForm(x, i);
  }

  lemma MarkForm(x: bv32, i: nat)
    requires i < 32
    ensures IsMarked(MarkBit(x, i), x, Mask(i))
  {
    hide Mask;
  }

  lemma ClearForm(x: bv32, i: nat)
    requires i < 32
    ensures IsCleared(ClearBit(x, i), x, Mask(i))
  {
    hide Mask;
  }

  lemma LaterForm(x: bv32, i: nat)
    requires i < 32
    ensures IsAbove(LaterBits(x, i), x, Mask(i))
  {
    hide Mask, LeftBits;
  }

  lemma MaskIs(i: nat)
    requires i < 32
    ensures Mask(i) == MaskAt(Count(i))
  {}

  lemma BitIs(x: bv32, i: nat)
    requires i < 32
    ensures Bit(x, i) <==> BitAt(x, Count(i))
  {}

  /** compute_bit2idx of least_bit: the lowest marked bin. */
  function FirstBit(x: bv32): nat { BitIndex(LeastBit(x)) as nat }

  lemma LeastAt(x: bv32, b: bv6)
    requires x != 0 && b < 32
    ensures BitIndex(LeastBit(x)) < 32 && BitAt(x, BitIndex(LeastBit(x)) as bv6)
    ensures b < BitIndex(LeastBit(x)) as bv6 ==> !BitAt(x, b)
  {}

  lemma CountOf(v: bv32)
    requires v < 32
    ensures v as nat < 32 && Count(v as nat) == v as bv6
  {}

  lemma FirstSteps(x: bv32, j: nat, n: nat, v: bv32, b: bv6)
    requires x != 0 && j < 32 && v == BitIndex(LeastBit(x)) && n == v as nat && b == Count(j)
    ensures n < 32 && BitAt(x, Count(n)) && (j < n ==> !BitAt(x, b))
  {
    hide *;
    LeastAt(x, b);
    CountOf(v);
    CountOrder(j, n);
  }

  /** The bit trick finds what a scan from bin 0 upwards finds. */
  lemma FirstBitSpec(x: bv32)
    requires x != 0
    ensures FirstBit(x) < 32 && Bit(x, FirstBit(x))
    ensures forall j :: 0 <= j < FirstBit(x) ==> !Bit(x, j)
  {
    hide BitAt, Count, BitIndex, LeastBit;
    FirstSteps(x, 0, FirstBit(x), BitIndex(LeastBit(x)), Count(0));
    forall j | 0 <= j < FirstBit(x) ensures !Bit(x, j) {
      FirstSteps(x, j, FirstBit(x), BitIndex(LeastBit(x)), Count(j));
    }
  }

  lemma ZeroAt(x: bv32, b: bv6)
    requires b < 32 && BitAt(x, b)
    ensures x != 0
  {}

  lemma ZeroMap(x: bv32, j: nat)
    requires j < 32 && Bit(x, j)
    ensures x != 0
  {
    hide BitAt, Count;
    ZeroAt(x, Count(j));
  }

  lemma ShiftedLow(x: bv32, a: bv6)
    requires a < 32
    ensures ShiftAt(x, a) & 1 == 1 <==> BitAt(x, a)
    ensures a < 31 ==> (ShiftAt(x, a) & 3 != 0 <==> BitAt(x, a) || BitAt(x, a + 1))
    ensures a == 31 ==> (ShiftAt(x, a) & 3 != 0 <==> BitAt(x, a))
  {}

  lemma ShiftedBackRaw(x: bv32, a: bv6, b: bv6)
    requires a < 32 && b < 32
    ensures BitAt(((x >> a) << a) & LeftBits(MaskAt(a)), b) <==> b > a && BitAt(x, b)
  {}

  lemma AboveIs(x: bv32, a: bv6)
    requires a < 32
    ensures AboveAt(x, a) == ((x >> a) << a) & LeftBits(MaskAt(a))
  {}

  lemma ShiftedBack(x: bv32, a: bv6, b: bv6)
    requires a < 32 && b < 32
    ensures BitAt(AboveAt(x, a), b) <==> b > a && BitAt(x, b)
  {
    hide *;
    ShiftedBackRaw(x, a, b);
    AboveIs(x, a);
  }

  lemma ShiftedZero(x: bv32, a: bv6, b: bv6)
    requires a < 32 && b < 32
    ensures b >= a && BitAt(x, b) ==> ShiftAt(x, a) != 0
  {}

  lemma ShiftedSome(x: bv32, a: bv6)
    requires a < 32
    ensures ShiftAt(x, a) != 0 && !BitAt(x, a) ==> AboveAt(x, a) != 0
  {}

  lemma CountNext(i: nat)
    requires i < 31
    ensures Count(i + 1) == Count(i) + 1 && Count(i) < 31
  {}

  lemma ShiftedSteps(x: bv32, i: nat, j: nat, a: bv6, b: bv6)
    requires i < 32 && j < 32 && a == Count(i) && b == Count(j)
    ensures ShiftAt(x, a) & 1 == 1 <==> BitAt(x, a)
    ensures ShiftAt(x, a) & 3 != 0 <==> BitAt(x, a) || (i < 31 && BitAt(x, Count(i + 1)))
    ensures ShiftAt(x, a) != 0 && !BitAt(x, a) ==> AboveAt(x, a) != 0
    ensures BitAt(AboveAt(x, a), b) <==> j > i && BitAt(x, b)
    ensures j >= i && BitAt(x, b) ==> ShiftAt(x, a) != 0
  {
    hide *;
    ShiftedLow(x, a);
    ShiftedBack(x, a, b);
    ShiftedZero(x, a, b);
    ShiftedSome(x, a);
    CountOrder(i, j);
    if i < 31 { CountNext(i); } else { Count31(); }
  }

  lemma Count31()
    ensures Count(31) == 31
  {
    assert Count(31) as nat == 31;
  }

  /** leftbits of dlmalloc: the marked bins strictly above idx. */
  function Above(x: bv32, i: nat): bv32
    requires i < 32
  {
    AboveAt(x, Count(i))
  }

  /** smallbits = smallmap >> idx, and the bins above idx recovered from it. */
  lemma ShiftedBits(x: bv32, i: nat, j: nat)
    requires i < 32 && j < 32
    ensures ShiftRight(x, i) & 1 == 1 <==> Bit(x, i)
    ensures ShiftRight(x, i) & 3 != 0 <==> Bit(x, i) || (i < 31 && Bit(x, i + 1))
    ensures ShiftRight(x, i) != 0 && !Bit(x, i) ==> Above(x, i) != 0
    ensures Bit(Above(x, i), j) <==> j > i && Bit(x, j)
    ensures j >= i && Bit(x, j) ==> ShiftRight(x, i) != 0
  {
    hide BitAt, MaskAt, Count, LeftBits, AboveAt, ShiftAt;
    ShiftedSteps(x, i, j, Count(i), Count(j));
  }
}

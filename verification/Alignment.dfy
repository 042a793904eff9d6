/**
 * Alignments: the power of two that a requested alignment is rounded to, and the aligned
 * spot that memalign finds inside a chunk.
 */
module Alignment {
  import opened Arithmetic
  import opened SizeClass

  /** Zero, or a power of two: the test that internal_memalign makes. */
  predicate SingleBit(x: bv32) { x & (x - 1) == 0 }

  predicate IsPower(x: bv32) { x != 0 && SingleBit(x) }

  /** The loop variable of the rounding after k rounds, in 32 bits. */
  function Rounds(k: nat): bv32 {
    if k == 0 then 16 else Rounds(k - 1) << 1
  }

  const LAST := 27

  lemma RoundsLast()
    ensures Rounds(LAST) == 0x8000_0000
  {
    assert Rounds(3) == 0x80;
    assert Rounds(6) == 0x400;
    assert Rounds(9) == 0x2000;
    assert Rounds(12) == 0x1_0000;
    assert Rounds(15) == 0x8_0000;
    assert Rounds(18) == 0x40_0000;
    assert Rounds(21) == 0x200_0000;
    assert Rounds(24) == 0x1000_0000;
  }

  lemma {:induction false} RoundsSingle(k: nat)
    ensures SingleBit(Rounds(k))
  {
    hide SingleBit;
    if k == 0 {
      SixteenSingle();
    } else {
      RoundsSingle(k - 1);
      ShiftSingle(Rounds(k - 1));
    }
  }

  lemma SixteenSingle()
    ensures SingleBit(16)
  {}

  lemma ShiftSingle(y: bv32)
    requires SingleBit(y)
    ensures SingleBit(y << 1)
  {}

  lemma {:induction false} RoundsPower(k: nat)
    requires k <= LAST
    ensures IsPower(Rounds(k))
    decreases LAST - k
  {
    hide SingleBit;
    RoundsSingle(k);
    if k < LAST {
      RoundsPower(k + 1);
    } else {
      RoundsLast();
    }
  }

  predicate AtMost(x: bv32, y: bv32) { x <= y }

  /** Half of y is less than x. */
  predicate HalfBelow(y: bv32, x: bv32) { y >> 1 < x }

  /** The first power from round k on that is at least x. */
  function Doubled(k: nat, x: bv32): bv32
    requires k <= LAST
    decreases LAST - k
  {
    if k == LAST || AtMost(x, Rounds(k)) then Rounds(k) else Doubled(k + 1, x)
  }

  /** The alignment memalign works with. */
  function Used(x: bv32): bv32
    requires x <= 0x8000_0000
  {
    if x < 16 then 16 else Doubled(0, x)
  }

  lemma {:induction false} DoubledLeast(k: nat, x: bv32)
    requires k <= LAST && AtMost(x, 0x8000_0000)
    ensures var r := Doubled(k, x); IsPower(r) && AtMost(x, r) && (r == Rounds(k) || HalfBelow(r, x))
    decreases LAST - k
  {
    hide IsPower, AtMost, HalfBelow;
    RoundsPower(k);
    if k == LAST {
      RoundsLast();
    } else if !AtMost(x, Rounds(k)) {
      DoubledLeast(k + 1, x);
      ShiftBack(Rounds(k), x);
    }
  }

  lemma ShiftBack(a: bv32, x: bv32)
    requires !AtMost(x, a) && AtMost(x, 0x8000_0000)
    ensures HalfBelow(a << 1, x)
  {}

  /** r is the least power of two that is at least 16 and at least x. */
  ghost predicate LeastPower(x: bv32, r: bv32) {
    && IsPower(r) && x <= r && 16 <= r
    && forall y :: IsPower(y) && y >= x && y >= 16 ==> r <= y
  }

  lemma UsedLeast(x: bv32)
    requires x <= 0x8000_0000
    ensures LeastPower(x, Used(x))
  {
    hide IsPower, LeastPower, HalfBelow, AtMost, Doubled;
    Bound(x);
    if AtMost(16, x) {
      DoubledLeast(0, x);
      PowerLeast(x, Doubled(0, x));
    } else {
      PowerLeast(x, 16);
    }
  }

  lemma Bound(x: bv32)
    ensures x <= 0x8000_0000 <==> AtMost(x, 0x8000_0000)
    ensures x < 16 <==> !AtMost(16, x)
  {}

  lemma PowerLeast(x: bv32, r: bv32)
    requires if AtMost(16, x) then IsPower(r) && AtMost(x, r) && (r == 16 || HalfBelow(r, x)) else r == 16
    ensures LeastPower(x, r)
  {
    SixteenSingle();
    if AtMost(16, x) {
      forall y | IsPower(y) && y >= x && y >= 16 ensures r <= y { PowersApart(r, x, y); }
    }
  }

  lemma PowersApart(r: bv32, x: bv32, y: bv32)
    requires IsPower(r) && IsPower(y) && y >= x && y >= 16 && (r == 16 || HalfBelow(r, x))
    ensures r <= y
  {}

  /** A power of two from 16 on is its own alignment. */
  lemma PowerUsed(x: bv32)
    requires IsPower(x) && 16 <= x <= 0x8000_0000
    ensures Used(x) == x
  {
    UsedLeast(x);
    SamePower(x, Used(x));
  }

  lemma SamePower(x: bv32, r: bv32)
    requires IsPower(x) && x >= 16 && LeastPower(x, r)
    ensures r == x
  {}

  /** internal_memalign: the alignment rounded up. */
  method RoundAlignment(alignment: bv32) returns (a: bv32)
    requires alignment <= 0x8000_0000
    ensures a == Used(alignment)
  {
    hide IsPower, SingleBit, Used, Doubled, Rounds, AtMost;
    a := alignment;
    Bound(alignment);
    if !AtMost(16, a) {
      a := 16;
    }
    UsedFrom(alignment, a);
    if !SingleBit(a) {
      var b: bv32 := 16;
      ghost var k := 0;
      NoRound();
      while !AtMost(a, b)
        invariant k <= LAST && b == Rounds(k) && Doubled(k, a) == Used(alignment)
        decreases LAST - k
      {
        NextRound(k, a);
        b := b << 1;
        k := k + 1;
      }
      LastRound(k, a);
      a := b;
    }
  }

  lemma UsedFrom(x: bv32, a: bv32)
    requires x <= 0x8000_0000 && a == if !AtMost(16, x) then 16 else x
    ensures AtMost(a, 0x8000_0000) && Used(x) == if SingleBit(a) then a else Doubled(0, a)
  {
    hide Doubled, Rounds;
    SixteenSingle();
    if x >= 16 && SingleBit(x) { PowerUsed(x); }
  }

  lemma NoRound()
    ensures Rounds(0) == 16
  {}

  lemma NextRound(k: nat, a: bv32)
    requires k <= LAST && !AtMost(a, Rounds(k)) && AtMost(a, 0x8000_0000)
    ensures k < LAST && Doubled(k + 1, a) == Doubled(k, a) && Rounds(k + 1) == Rounds(k) << 1
  {
    hide AtMost;
    RoundsLast();
  }

  lemma LastRound(k: nat, a: bv32)
    requires k <= LAST && AtMost(a, Rounds(k))
    ensures Doubled(k, a) == Rounds(k)
  {
    hide AtMost;
  }

  // ---------------------------------------------------------------- above 2^31

  function AtLeast16(x: bv32): bv32 { if !AtMost(16, x) then 16 else x }

  /** The rounding of internal_memalign ends: no loop is needed, or some round reaches x. */
  ghost predicate RoundingEnds(x: bv32) {
    SingleBit(AtLeast16(x)) || exists k: nat {:trigger Reached(x, k)} :: Reached(x, k)
  }

  /** The loop condition fails after k rounds. */
  predicate Reached(x: bv32, k: nat) { AtMost(AtLeast16(x), Rounds(k)) }

  lemma {:induction false} NeverReached(x: bv32, k: nat)
    requires !AtMost(x, 0x8000_0000)
    ensures !Reached(x, k) && !SingleBit(AtLeast16(x))
  {
    RoundsSingle(k);
    SingleBelow(Rounds(k), x);
  }

  /** No power of two lies above 2^31. */
  lemma SingleBelow(y: bv32, x: bv32)
    requires x > 0x8000_0000 && SingleBit(y)
    ensures y < x && !SingleBit(x) && AtLeast16(x) == x
  {}

  lemma ReachedLast(x: bv32)
    requires AtMost(x, 0x8000_0000)
    ensures Reached(x, LAST)
  {
    hide Rounds;
    RoundsLast();
  }

  /** For alignments above 2^31, and only for those, the rounding runs forever. */
  lemma RoundingEndsIff(x: bv32)
    ensures RoundingEnds(x) <==> x <= 0x8000_0000
  {
    hide SingleBit, AtLeast16, Reached, AtMost;
    Bound(x);
    if AtMost(x, 0x8000_0000) {
      ReachedLast(x);
    } else {
      forall k: nat ensures !Reached(x, k) { NeverReached(x, k); }
      NeverReached(x, 0);
    }
  }

  /** As a number, a power of two from 16 on is a multiple of 16. */
  lemma PowerNumber(x: bv32)
    requires IsPower(x) && x >= 16
    ensures 16 <= x as int && x as int % 16 == 0
  {
    LowZero(x);
    assert x as int == (x >> 4) as int * 16;
  }

  lemma LowZero(x: bv32)
    requires IsPower(x) && x >= 16
    ensures x & 15 == 0 && (x >> 4) << 4 == x
  {}

  lemma UsedNumber(x: bv32)
    requires x <= 0x8000_0000
    ensures Used(x) as int >= 16 && Used(x) as int % 16 == 0
  {
    UsedLeast(x);
    LeastNumber(x, Used(x));
  }

  lemma LeastNumber(x: bv32, r: bv32)
    requires LeastPower(x, r)
    ensures r as int >= 16 && r as int % 16 == 0
  {
    PowerNumber(r);
  }

  /** Up to the next multiple of n. */
  function RoundUp(x: nat, n: nat): int
    requires n > 0
  {
    (x + n - 1) / n * n
  }

  predicate Divides(n: nat, x: int) { n > 0 && x % n == 0 }

  lemma RoundUpNext(x: nat, n: nat)
    requires n >= 16 && n % 16 == 0 && Aligned(x) && !Divides(n, x)
    ensures Divides(n, RoundUp(x, n)) && x + 8 <= RoundUp(x, n) <= x + n - 8 && Aligned(RoundUp(x, n))
  {
    var q := (x + n - 1) / n;
    RoundUpRange(x, n);
    Multiple(q, n);
    AlignedTimes(q, n);
    AlignedApart(x, RoundUp(x, n));
    AlignedSum(x, n);
    AlignedApart(RoundUp(x, n), x + n);
  }

  lemma RoundUpRange(x: nat, n: nat)
    requires n >= 16 && x % n != 0
    ensures x < RoundUp(x, n) < x + n
  {
    var q := (x + n - 1) / n;
    assert x + n - 1 == q * n + (x + n - 1) % n;
    Multiple(q, n);
  }

  /**
   * Where memalign puts the block in a chunk whose own block is at mem: the first aligned
   * spot that leaves room for a chunk of its own before it.
   */
  function Spot(mem: nat, n: nat): int
    requires n > 0
  {
    var br := RoundUp(mem, n);
    if br - mem >= MIN_CHUNK_SIZE then br else br + n
  }

  lemma SpotFits(mem: nat, n: nat)
    requires n >= 16 && n % 16 == 0 && Aligned(mem) && !Divides(n, mem)
    ensures Divides(n, Spot(mem, n)) && Aligned(Spot(mem, n)) && mem + MIN_CHUNK_SIZE <= Spot(mem, n) <= mem + n + 8
  {
    hide RoundUp, Divides;
    RoundUpNext(mem, n);
    NextMultiple(RoundUp(mem, n), n);
    AlignedSteps(mem, RoundUp(mem, n));
  }

  lemma AlignedSteps(x: int, y: int)
    requires Aligned(x) && Aligned(y) && x < y
    ensures y == x + 8 || y >= x + 16
  {
    AlignedSum(x, 8);
    if y > x + 8 { AlignedApart(x + 8, y); }
  }

  lemma NextMultiple(x: int, n: nat)
    requires Divides(n, x) && Aligned(x) && n % 16 == 0
    ensures Divides(n, x + n) && Aligned(x + n)
  {
    Multiple(x / n + 1, n);
    assert (x / n + 1) * n == x + n;
    AlignedTimes(n / 16 * 2, 8);
    AlignedSum(x, n);
  }

  /** Address mem is a multiple of the alignment used, unless every block has it anyway. */
  predicate Meets(mem: int, alignment: bv32)
    requires alignment <= 0x8000_0000
  {
    alignment > 8 ==> var n := Used(alignment) as int; n > 0 && mem % n == 0
  }
}

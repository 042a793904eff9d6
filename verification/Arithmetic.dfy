/**
 * Quotients, remainders and multiples.
 */
module Arithmetic {

  function Min(a: int, b: int): int { if a < b then a else b }

  lemma MulOrder(a: int, b: int, m: nat)
    requires a <= b
    ensures a * m <= b * m
  {}

  /** The quotient and the remainder are the only ones. */
  lemma DivUnique(a: int, q: int, b: int, r: int)
    requires b > 0 && a == q * b + r && 0 <= r < b
    ensures a / b == q && a % b == r
  {
    var d := a / b;
    assert a == d * b + a % b;
    if d < q { MulOrder(d + 1, q, b); }
    if q < d { MulOrder(q + 1, d, b); }
  }

  lemma Multiple(q: int, n: int)
    requires n > 0
    ensures (q * n) % n == 0
  {
    DivUnique(q * n, q, n, 0);
  }

  /** A multiple of the alignment of blocks. */
  predicate Aligned(x: int) { x % 8 == 0 }

  /** A multiple of the size of a word. */
  predicate Worded(x: int) { x % 4 == 0 }

  lemma AlignedSum(x: int, y: int)
    ensures Aligned(x) && Aligned(y) ==> Aligned(x + y) && Aligned(x - y)
  {
    if Aligned(x) && Aligned(y) {
      Multiple(x / 8 + y / 8, 8);
      Multiple(x / 8 - y / 8, 8);
    }
  }

  lemma WordedSum(x: int, y: int)
    ensures Worded(x) && Worded(y) ==> Worded(x + y) && Worded(x - y)
  {
    if Worded(x) && Worded(y) {
      Multiple(x / 4 + y / 4, 4);
      Multiple(x / 4 - y / 4, 4);
    }
  }

  lemma AlignedWorded(x: int)
    ensures Aligned(x) ==> Worded(x)
  {
    if Aligned(x) { Multiple(2 * (x / 8), 4); }
  }

  /** A multiple of an aligned number. */
  lemma AlignedTimes(q: int, n: int)
    requires Aligned(n)
    ensures Aligned(q * n)
  {
    var h := n / 8;
    assert q * n == (q * h) * 8 by { assert n == h * 8; }
    Multiple(q * h, 8);
  }

  lemma AlignedApart(x: int, y: int)
    requires Aligned(x) && Aligned(y) && x < y
    ensures x + 8 <= y
  {}

  lemma AlignedEven(x: int)
    requires Aligned(x)
    ensures x % 2 == 0
  {
    Multiple(4 * (x / 8), 2);
  }
}

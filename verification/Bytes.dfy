/**
 * The bytes of word memory, lowest first in each word.
 */
module Bytes {
  import opened ChunkMemory

  function WordOf(a: int): int { a - a % 4 }

  /** Byte k of word x. */
  function Byte(x: int, k: nat): (v: int)
    ensures 0 <= v < 256
    decreases k
  {
    if k == 0 then x % 256 else Byte(x / 256, k - 1)
  }

  /** Word x with its byte k replaced by v. */
  function WithByte(x: int, k: nat, v: int): int
    decreases k
  {
    if k == 0 then x / 256 * 256 + v else WithByte(x / 256, k - 1, v) * 256 + x % 256
  }

  lemma {:induction false} WordBytes(x: int, k: nat, v: int, j: nat)
    requires 0 <= v < 256
    ensures Byte(WithByte(x, k, v), j) == if j == k then v else Byte(x, j)
    decreases k
  {
    if k == 0 {
      Digits(x / 256, v);
    } else {
      Digits(WithByte(x / 256, k - 1, v), x % 256);
      if j > 0 { WordBytes(x / 256, k - 1, v, j - 1); }
    }
  }

  lemma Digits(y: int, d: int)
    requires 0 <= d < 256
    ensures (y * 256 + d) / 256 == y && (y * 256 + d) % 256 == d
  {}

  // ---------------------------------------------------------------- bytes in memory

  function ByteAt(m: Memory, a: int): (v: int)
    requires WordOf(a) in m
    ensures 0 <= v < 256
  {
    Byte(m[WordOf(a)], a % 4)
  }

  function SetByte(m: Memory, a: int, v: int): Memory
    requires WordOf(a) in m
  {
    m[WordOf(a) := WithByte(m[WordOf(a)], a % 4, v)]
  }

  /** A byte store changes that byte and no other. */
  lemma ByteStored(m: Memory, a: int, v: int, c: int)
    requires WordOf(a) in m && WordOf(c) in m && 0 <= v < 256
    ensures ByteAt(SetByte(m, a, v), c) == if c == a then v else ByteAt(m, c)
  {
    hide Byte, WithByte;
    if WordOf(a) == WordOf(c) { WordBytes(m[WordOf(a)], a % 4, v, c % 4); }
  }
}

/**
 * memmove over an array of bytes, addresses being its indices and words four bytes.
 */
module Memmove {

  const WORD := 4
  const BIG_BLOCK := 16

  /** The bytes of s from src on, put at dst. */
  function Moved(s: seq<int>, dst: nat, src: nat, n: nat): (r: seq<int>)
    requires dst + n <= |s| && src + n <= |s|
    ensures |r| == |s|
  {
    s[..dst] + s[src..src + n] + s[dst + n..]
  }

  /** After k bytes of a forward copy that cannot run into its own source. */
  ghost predicate Forward(s: seq<int>, m: array<int>, dst: nat, src: nat, n: nat, k: nat)
    reads m
  {
    && m.Length == |s| && dst + n <= |s| && src + n <= |s| && k <= n && (dst <= src || src + n <= dst)
    && forall i {:trigger m[i]} :: 0 <= i < |s| ==> m[i] == if dst <= i < dst + k then s[src + (i - dst)] else s[i]
  }

  /** *dst++ = *src++ for one byte. */
  method CopyByte(m: array<int>, dst: nat, src: nat, n: nat, k: nat, ghost s: seq<int>)
    requires Forward(s, m, dst, src, n, k) && k < n
    modifies m
    ensures Forward(s, m, dst, src, n, k + 1)
  {
    m[dst + k] := m[src + k];
  }

  /** *aligned_dst++ = *aligned_src++: a word is loaded before it is stored. */
  method CopyWord(m: array<int>, dst: nat, src: nat, n: nat, k: nat, ghost s: seq<int>)
    requires Forward(s, m, dst, src, n, k) && k + WORD <= n
    modifies m
    ensures Forward(s, m, dst, src, n, k + WORD)
  {
    var b0, b1, b2, b3 := m[src + k], m[src + k + 1], m[src + k + 2], m[src + k + 3];
    m[dst + k] := b0;
    m[dst + k + 1] := b1;
    m[dst + k + 2] := b2;
    m[dst + k + 3] := b3;
  }

  /** The aligned loops: four words at a time, then one. */
  method CopyWords(m: array<int>, dst: nat, src: nat, n: nat, ghost s: seq<int>) returns (k: nat)
    requires Forward(s, m, dst, src, n, 0)
    modifies m
    ensures Forward(s, m, dst, src, n, k) && n - k < WORD
  {
    k := 0;
    while n - k >= BIG_BLOCK
      invariant Forward(s, m, dst, src, n, k)
    {
      CopyWord(m, dst, src, n, k, s);
      CopyWord(m, dst, src, n, k + WORD, s);
      CopyWord(m, dst, src, n, k + 2 * WORD, s);
      CopyWord(m, dst, src, n, k + 3 * WORD, s);
      k := k + BIG_BLOCK;
    }
    while n - k >= WORD
      invariant Forward(s, m, dst, src, n, k)
    {
      CopyWord(m, dst, src, n, k, s);
      k := k + WORD;
    }
  }

  /** The backward loop, when the destination starts inside the source. */
  method CopyBackward(m: array<int>, dst: nat, src: nat, n: nat)
    requires src < dst < src + n && dst + n <= m.Length
    modifies m
    ensures m[..] == Moved(old(m[..]), dst, src, n)
  {
    ghost var s := m[..];
    var k := n;
    while k > 0
      invariant 0 <= k <= n
      invariant forall i {:trigger m[i]} :: 0 <= i < |s| ==> m[i] == if dst + k <= i < dst + n then s[src + (i - dst)] else s[i]
    {
      k := k - 1;
      m[dst + k] := m[src + k];
    }
  }

  /** The byte loop, from k on. */
  method CopyBytes(m: array<int>, dst: nat, src: nat, n: nat, from: nat, ghost s: seq<int>)
    requires Forward(s, m, dst, src, n, from)
    modifies m
    ensures Forward(s, m, dst, src, n, n)
  {
    var k := from;
    while k < n
      invariant Forward(s, m, dst, src, n, k)
    {
      CopyByte(m, dst, src, n, k, s);
      k := k + 1;
    }
  }

  /** The forward loops: words if there are enough bytes and both ends are aligned, then bytes. */
  method CopyForward(m: array<int>, dst: nat, src: nat, n: nat)
    requires dst + n <= m.Length && src + n <= m.Length && (dst <= src || src + n <= dst)
    modifies m
    ensures m[..] == Moved(old(m[..]), dst, src, n)
  {
    ghost var s := m[..];
    var k := 0;
    if n >= BIG_BLOCK && src % WORD == 0 && dst % WORD == 0 {
      k := CopyWords(m, dst, src, n, s);
    }
    CopyBytes(m, dst, src, n, k, s);
    Whole(s, m, dst, src, n);
  }

  lemma Whole(s: seq<int>, m: array<int>, dst: nat, src: nat, n: nat)
    requires Forward(s, m, dst, src, n, n)
    ensures m[..] == Moved(s, dst, src, n)
  {
    forall i | 0 <= i < |s| ensures m[..][i] == Moved(s, dst, src, n)[i] { MovedAt(s, dst, src, n, i); }
  }

  /**
   * memmove: the destination gets the bytes the source had, however the two overlap and
   * whatever their alignment, and nothing else changes.
   */
  method MemMove(m: array<int>, dst: nat, src: nat, length: nat)
    requires dst + length <= m.Length && src + length <= m.Length
    modifies m
    ensures m[..] == Moved(old(m[..]), dst, src, length)
  {
    if src < dst && dst < src + length {
      CopyBackward(m, dst, src, length);
    } else {
      CopyForward(m, dst, src, length);
    }
  }

  /** Byte i after a move, for every byte of memory. */
  lemma MovedAt(s: seq<int>, dst: nat, src: nat, n: nat, i: nat)
    requires dst + n <= |s| && src + n <= |s| && i < |s|
    ensures Moved(s, dst, src, n)[i] == if dst <= i < dst + n then s[src + (i - dst)] else s[i]
  {}
}

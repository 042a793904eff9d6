/**
 * A pipe: a ring buffer behind a bounded first-in first-out queue of bytes.
 */
module Pipes {
  import opened Arithmetic

  const UINT_SPAN := 0x1_0000_0000

  /** Position x on a ring of length n. */
  function At(x: int, n: int): int { if x < n then x else x - n }

  /** The k bytes of the ring b from position r on. */
  ghost function Ring(b: seq<int>, r: int, k: int): (s: seq<int>)
    requires 0 <= r < |b| && 0 <= k <= |b|
    ensures |s| == k
  {
    if r + k <= |b| then b[r..r + k] else b[r..] + b[..r + k - |b|]
  }

  lemma RingSplit(b: seq<int>, r: int, k: int, j: int)
    requires 0 <= r < |b| && 0 <= j <= k <= |b|
    ensures Ring(b, r, k)[..j] == Ring(b, r, j)
    ensures At(r + j, |b|) < |b| && Ring(b, r, k)[j..] == Ring(b, At(r + j, |b|), k - j)
  {}

  /** t with d in place of what was at position `at`. */
  ghost function Patched(t: seq<int>, at: nat, d: seq<int>): (r: seq<int>)
    requires at + |d| <= |t|
    ensures |r| == |t|
  {
    t[..at] + d + t[at + |d|..]
  }

  lemma PatchedAt(t: seq<int>, at: nat, d: seq<int>, k: nat)
    requires at + |d| <= |t| && k < |t|
    ensures Patched(t, at, d)[k] == if at <= k < at + |d| then d[k - at] else t[k]
  {}

  lemma PatchTwice(t: seq<int>, all: seq<int>, i: nat, k: nat)
    requires i + k <= |all| && i + k <= |t|
    ensures Patched(Patched(t, 0, all[..i]), i, all[i..][..k]) == Patched(t, 0, all[..i + k])
    ensures all[i..][k..] == all[i + k..]
  {
    var t1 := Patched(t, 0, all[..i]);
    var x, y := Patched(t1, i, all[i..][..k]), Patched(t, 0, all[..i + k]);
    forall n | 0 <= n < |t| ensures x[n] == y[n] {
      PatchedAt(t, 0, all[..i], n);
      PatchedAt(t1, i, all[i..][..k], n);
      PatchedAt(t, 0, all[..i + k], n);
    }
  }

  lemma PatchFront(t: seq<int>, d: seq<int>)
    requires |d| <= |t|
    ensures Patched(t, 0, d)[..|d|] == d
  {}

  lemma PatchNone(t: seq<int>, at: nat, all: seq<int>)
    requires at <= |t|
    ensures Patched(t, at, all[..0]) == t && all[0..] == all
  {}

  lemma RingAt(b: seq<int>, r: int, k: int, i: int)
    requires 0 <= r < |b| && 0 <= i < k <= |b|
    ensures Ring(b, r, k)[i] == b[At(r + i, |b|)]
  {}

  /** Writing next to what is there, without running past the end of the buffer. */
  lemma RingPut(b: seq<int>, r: int, k: int, w: int, d: seq<int>)
    requires 0 <= r < |b| && 0 <= k && k + |d| <= |b| && w == At(r + k, |b|) && w + |d| <= |b|
    ensures Ring(Patched(b, w, d), r, k + |d|) == Ring(b, r, k) + d
  {
    hide Ring, Patched;
    var c := Patched(b, w, d);
    var x, y := Ring(c, r, k + |d|), Ring(b, r, k) + d;
    forall i | 0 <= i < |x| ensures x[i] == y[i] {
      RingAt(c, r, k + |d|, i);
      PatchedAt(b, w, d, At(r + i, |b|));
      if i < k { RingAt(b, r, k, i); }
    }
  }

  lemma ModAt(x: int, n: int)
    requires 0 <= x <= n && 0 < n
    ensures x % n == At(x, n)
  {}

  lemma SpansJoin(q: seq<int>, from: seq<int>, i: nat, k: nat)
    requires i + k <= |from|
    ensures q + from[..i] + from[i..][..k] == q + from[..i + k]
  {
    assert from[..i] + from[i..][..k] == from[..i + k];
  }

  method CopyIn(to: array<int>, at: nat, from: seq<int>, n: nat)
    requires at + n <= to.Length && n <= |from|
    modifies to
    ensures to[..] == Patched(old(to[..]), at, from[..n])
  {
    for i := 0 to n
      invariant forall k :: 0 <= k < to.Length ==> to[k] == if at <= k < at + i then from[k - at] else old(to[k])
    {
      to[at + i] := from[i];
    }
    forall k | 0 <= k < to.Length ensures to[k] == Patched(old(to[..]), at, from[..n])[k] {
      PatchedAt(old(to[..]), at, from[..n], k);
    }
  }

  datatype PipeOp = DoWrite(data: seq<int>) | DoRead(size: nat)

  class Pipe {
    var rpos: int
    var wpos: int
    var count: int
    const buf: array<int>

    ghost predicate Valid()
      reads this
    {
      && 0 < buf.Length && 0 <= rpos < buf.Length && 0 <= wpos < buf.Length && 0 <= count <= buf.Length
      && wpos == At(rpos + count, buf.Length)
    }

    /** The bytes written and not yet read, oldest first. */
    ghost function Contents(): (s: seq<int>)
      reads this, buf
      requires Valid()
      ensures |s| == count
    {
      Ring(buf[..], rpos, count)
    }

    constructor (capacity: nat)
      requires capacity > 0
      ensures Valid() && Contents() == [] && fresh(buf) && buf.Length == capacity
    {
      rpos, wpos, count := 0, 0, 0;
      buf := new int[capacity];
    }

    /** Pipe::Read into a caller's buffer: as much as there is, up to size, oldest first. */
    method Read(to: array<int>, size0: nat) returns (readBytes: nat)
      requires Valid() && to != buf && size0 <= to.Length && size0 + rpos < UINT_SPAN
      modifies this, to
      ensures Valid() && readBytes == Min(size0, |old(Contents())|)
      ensures to[..] == Patched(old(to[..]), 0, old(Contents())[..readBytes])
      ensures Contents() == old(Contents())[readBytes..]
    {
      hide Ring, Patched;
      readBytes := 0;
      PatchNone(to[..], 0, Contents());
      if count == 0 {
        return;
      }
      ghost var all, rest := Contents(), to[..];
      var size := size0;
      if rpos >= wpos {
        var rs := if size + rpos > buf.Length then buf.Length - rpos else size;
        readBytes := ReadSpan(to, 0, rs);
        size := size - rs;
      }
      var more := ReadRest(to, readBytes, size);
      PatchTwice(rest, all, readBytes, more);
      readBytes := readBytes + more;
    }

    /** The second half of Pipe::Read: what lies between the positions, once they are in order. */
    method ReadRest(to: array<int>, at: nat, size: nat) returns (more: nat)
      requires Valid() && to != buf && at + size <= to.Length && (rpos < wpos || size == 0 || count == 0)
      modifies this, to
      ensures Valid() && more == Min(size, |old(Contents())|) && Contents() == old(Contents())[more..]
      ensures to[..] == Patched(old(to[..]), at, old(Contents())[..more])
    {
      hide Ring, Patched;
      more := 0;
      PatchNone(to[..], at, Contents());
      if rpos < wpos {
        var rs := if size + rpos > wpos then wpos - rpos else size;
        more := ReadSpan(to, at, rs);
      }
    }

    /** memcpy of n bytes from the read position, which moves on. */
    method ReadSpan(to: array<int>, at: nat, n: nat) returns (done: nat)
      requires Valid() && to != buf && at + n <= to.Length && n <= count && rpos + n <= buf.Length
      modifies this, to
      ensures Valid() && done == n && Contents() == old(Contents())[n..] && wpos == old(wpos) && count == old(count) - n
      ensures to[..] == Patched(old(to[..]), at, old(Contents())[..n])
      ensures rpos == At(old(rpos) + n, buf.Length)
    {
      hide Ring, Patched;
      RingSplit(buf[..], rpos, count, n);
      RingSpan(buf[..], rpos, n);
      CopyIn(to, at, buf[rpos..], n);
      ModAt(rpos + n, buf.Length);
      rpos := (rpos + n) % buf.Length;
      count := count - n;
      done := n;
    }

    /** Pipe::write: as much as there is room for, appended. */
    method Write(from: seq<int>) returns (wBytes: nat)
      requires Valid() && |from| + wpos < UINT_SPAN
      modifies this, buf
      ensures Valid() && wBytes == Min(|from|, buf.Length - |old(Contents())|)
      ensures Contents() == old(Contents()) + from[..wBytes]
    {
      hide Ring, Patched;
      wBytes := 0;
      if count == buf.Length {
        return;
      }
      var size := |from|;
      if wpos >= rpos {
        var ws := if size + wpos > buf.Length then buf.Length - wpos else size;
        wBytes := WriteSpan(from, ws);
        size := size - ws;
      }
      if wpos < rpos {
        var ws := if size + wpos > rpos then rpos - wpos else size;
        ghost var half := wBytes;
        var more := WriteSpan(from[wBytes..], ws);
        wBytes := wBytes + more;
        SpansJoin(old(Contents()), from, half, ws);
      }
    }

    /** memcpy of n bytes to the write position, which moves on. */
    method WriteSpan(from: seq<int>, n: nat) returns (done: nat)
      requires Valid() && n <= |from| && wpos + n <= buf.Length && count + n <= buf.Length
      modifies this, buf
      ensures Valid() && done == n && Contents() == old(Contents()) + from[..n] && rpos == old(rpos) && count == old(count) + n
      ensures wpos == At(old(wpos) + n, buf.Length)
    {
      hide Ring, Patched;
      RingPut(buf[..], rpos, count, wpos, from[..n]);
      CopyIn(buf, wpos, from, n);
      ModAt(wpos + n, buf.Length);
      wpos := (wpos + n) % buf.Length;
      count := count + n;
      done := n;
    }

    /**
     * Any run of writes and reads, of any sizes: the pipe answers and ends as the queue does.
     */
    method Run(ops: seq<PipeOp>) returns (answers: seq<Answer>)
      requires Valid() && forall k :: 0 <= k < |ops| ==> Requested(ops[k]) + buf.Length <= UINT_SPAN
      modifies this, buf
      ensures Valid() && answers == Answers(old(Contents()), ops, buf.Length)
      ensures Contents() == Left(old(Contents()), ops, buf.Length)
    {
      hide Ring, Answers, Left;
      answers := [];
      ghost var start := Contents();
      NoOps(start, ops, buf.Length);
      for n := 0 to |ops|
        invariant Valid() && answers + Answers(Contents(), ops[n..], buf.Length) == Answers(start, ops, buf.Length)
        invariant Left(Contents(), ops[n..], buf.Length) == Left(start, ops, buf.Length)
      {
        NextOp(answers, Contents(), ops, n, buf.Length);
        ghost var before := Contents();
        var a := Perform(ops[n]);
        answers := answers + [a];
      }
      NoOps(Contents(), ops[|ops|..], buf.Length);
    }

    method Perform(op: PipeOp) returns (a: Answer)
      requires Valid() && Requested(op) + buf.Length <= UINT_SPAN
      modifies this, buf
      ensures Valid() && a == Reply(old(Contents()), op, buf.Length) && Contents() == Next(old(Contents()), op, buf.Length)
    {
      hide Ring, Patched;
      match op
      case DoWrite(data) =>
        var k := Write(data);
        a := Accepted(k);
      case DoRead(size) =>
        var to := new int[size];
        ghost var t := to[..];
        var k := Read(to, size);
        PatchFront(t, old(Contents())[..k]);
        a := Got(to[..k]);
    }
  }

  // ---------------------------------------------------------------- the queue

  datatype Answer = Accepted(n: nat) | Got(data: seq<int>)

  function Requested(op: PipeOp): nat { if op.DoWrite? then |op.data| else op.size }

  /** A queue of at most `cap` bytes answers: how much of the data it took, or its oldest bytes. */
  ghost function Reply(q: seq<int>, op: PipeOp, cap: nat): Answer
    requires |q| <= cap
  {
    match op
    case DoWrite(data) => Accepted(Min(|data|, cap - |q|))
    case DoRead(size) => Got(q[..Min(size, |q|)])
  }

  ghost function Next(q: seq<int>, op: PipeOp, cap: nat): (r: seq<int>)
    requires |q| <= cap
    ensures |r| <= cap
  {
    match op
    case DoWrite(data) => q + data[..Min(|data|, cap - |q|)]
    case DoRead(size) => q[Min(size, |q|)..]
  }

  ghost function Answers(q: seq<int>, ops: seq<PipeOp>, cap: nat): seq<Answer>
    requires |q| <= cap
    decreases |ops|
  {
    if ops == [] then [] else [Reply(q, ops[0], cap)] + Answers(Next(q, ops[0], cap), ops[1..], cap)
  }

  ghost function Left(q: seq<int>, ops: seq<PipeOp>, cap: nat): (r: seq<int>)
    requires |q| <= cap
    ensures |r| <= cap
    decreases |ops|
  {
    if ops == [] then q else Left(Next(q, ops[0], cap), ops[1..], cap)
  }

  lemma NoOps(q: seq<int>, ops: seq<PipeOp>, cap: nat)
    requires |q| <= cap
    ensures ops[0..] == ops && [] + Answers(q, ops, cap) == Answers(q, ops, cap)
    ensures ops == [] ==> Answers(q, ops, cap) == [] && Left(q, ops, cap) == q
  {}

  lemma NextOp(before: seq<Answer>, q: seq<int>, ops: seq<PipeOp>, n: nat, cap: nat)
    requires |q| <= cap && n < |ops|
    ensures var q' := Next(q, ops[n], cap);
      && before + Answers(q, ops[n..], cap) == before + [Reply(q, ops[n], cap)] + Answers(q', ops[n + 1..], cap)
      && Left(q, ops[n..], cap) == Left(q', ops[n + 1..], cap)
  {
    hide Reply, Next;
    assert ops[n..][1..] == ops[n + 1..];
    assert Answers(q, ops[n..], cap) == [Reply(q, ops[n], cap)] + Answers(Next(q, ops[n], cap), ops[n + 1..], cap);
  }

  /** All bytes that came out, and all that were taken in, in order. */
  ghost function Out(ops: seq<PipeOp>, answers: seq<Answer>): seq<int>
    requires |ops| == |answers|
  {
    if ops == [] then [] else (if answers[0].Got? then answers[0].data else []) + Out(ops[1..], answers[1..])
  }

  ghost function Taken(op: PipeOp, a: Answer): seq<int> {
    if op.DoWrite? && a.Accepted? && a.n <= |op.data| then op.data[..a.n] else []
  }

  ghost function In(ops: seq<PipeOp>, answers: seq<Answer>): seq<int>
    requires |ops| == |answers|
  {
    if ops == [] then [] else Taken(ops[0], answers[0]) + In(ops[1..], answers[1..])
  }

  /** What came out, with what is left, is what was there and what was taken in: in order, nothing lost, nothing twice. */
  lemma {:induction false} Conserved(q: seq<int>, ops: seq<PipeOp>, cap: nat)
    requires |q| <= cap
    ensures |Answers(q, ops, cap)| == |ops|
    ensures Out(ops, Answers(q, ops, cap)) + Left(q, ops, cap) == q + In(ops, Answers(q, ops, cap))
    decreases |ops|
  {
    if ops != [] {
      var op, rest, q' := ops[0], ops[1..], Next(q, ops[0], cap);
      Conserved(q', rest, cap);
      var a := Answers(q, ops, cap);
      assert a[1..] == Answers(q', rest, cap);
      var o, l, i := Out(rest, a[1..]), Left(q', rest, cap), In(rest, a[1..]);
      match op
      case DoWrite(data) =>
        var d := data[..Min(|data|, cap - |q|)];
        Joined([], o, l, q + d, i);
        assert q + d + i == q + (d + i);
      case DoRead(size) =>
        var k := Min(size, |q|);
        Joined(q[..k], o, l, q[k..], i);
        assert q[..k] + q[k..] == q;
    }
  }

  lemma Joined(x: seq<int>, o: seq<int>, l: seq<int>, q: seq<int>, i: seq<int>)
    requires o + l == q + i
    ensures (x + o) + l == (x + q) + i
  {
    assert (x + o) + l == x + (o + l);
    assert (x + q) + i == x + (q + i);
  }

  lemma RingSpan(b: seq<int>, r: int, k: int)
    requires 0 <= r < |b| && 0 <= k && r + k <= |b|
    ensures Ring(b, r, k) == b[r..][..k]
  {}
}

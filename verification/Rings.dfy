/**
 * Circular doubly linked lists threaded through the fd and bk fields of chunks and
 * bin headers.  A ring is described by the sequence of its members in fd order.
 */
module Rings {
  import opened Sequences

  function Next(k: nat, n: nat): nat {
    if k + 1 == n then 0 else k + 1
  }

  ghost predicate Linked(fd: map<int, int>, bk: map<int, int>, a: int, b: int) {
    && a in fd && b in bk
    && fd[a] == b && bk[b] == a
  }

  ghost predicate LinkedAt(fd: map<int, int>, bk: map<int, int>, r: seq<int>, k: nat)
    requires k < |r|
  {
    Linked(fd, bk, r[k], r[Next(k, |r|)])
  }

  /** fd and bk link the members of r into one cycle, in this order. */
  ghost predicate Cycle(fd: map<int, int>, bk: map<int, int>, r: seq<int>) {
    && |r| > 0
    && (forall k {:trigger LinkedAt(fd, bk, r, k)} :: 0 <= k < |r| ==> LinkedAt(fd, bk, r, k))
  }

  lemma CycleStep(fd: map<int, int>, bk: map<int, int>, r: seq<int>, k: nat)
    requires Cycle(fd, bk, r) && k < |r|
    ensures r[k] in fd && r[k] in bk && fd[r[k]] == r[Next(k, |r|)] && bk[r[k]] == r[Prev(k, |r|)]
  {
    assert LinkedAt(fd, bk, r, k) && LinkedAt(fd, bk, r, Prev(k, |r|));
  }

  function InsertFd(fd: map<int, int>, head: int, f: int, x: int): map<int, int> {
    fd[head := x][x := f]
  }

  function InsertBk(bk: map<int, int>, head: int, f: int, x: int): map<int, int> {
    bk[f := x][x := head]
  }

  /** Linking x in right after the head of a ring, whose first successor was f. */
  lemma CycleInsert(fd: map<int, int>, bk: map<int, int>, r: seq<int>, x: int, f: int)
    requires |r| > 0 && NoDup(r) && x !in r
    requires |r| == 1 ==> f == r[0]
    requires |r| > 1 ==> Cycle(fd, bk, r) && r[0] in fd && f == fd[r[0]]
    ensures Cycle(InsertFd(fd, r[0], f, x), InsertBk(bk, r[0], f, x), [r[0], x] + r[1..])
    ensures NoDup([r[0], x] + r[1..])
  {
    var r' := [r[0], x] + r[1..];
    var fd', bk' := InsertFd(fd, r[0], f, x), InsertBk(bk, r[0], f, x);
    assert forall k :: 2 <= k < |r'| ==> r'[k] == r[k - 1];
    if |r| > 1 { assert LinkedAt(fd, bk, r, 0); }
    forall k | 0 <= k < |r'|
      ensures LinkedAt(fd', bk', r', k)
    {
      if k >= 2 { assert LinkedAt(fd, bk, r, k - 1); }
    }
  }

  function Prev(k: nat, n: nat): nat {
    if k == 0 then if n == 0 then 0 else n - 1 else k - 1
  }

  /** Unlinking member k: its neighbours are joined. */
  lemma CycleRemove(fd: map<int, int>, bk: map<int, int>, r: seq<int>, k: nat)
    requires Cycle(fd, bk, r) && NoDup(r) && k < |r| && |r| > 1
    requires r[k] in fd && r[k] in bk
    ensures bk[r[k]] == r[Prev(k, |r|)] && fd[r[k]] == r[Next(k, |r|)]
    ensures Cycle(fd[bk[r[k]] := fd[r[k]]], bk[fd[r[k]] := bk[r[k]]], RemoveAt(r, k))
    ensures NoDup(RemoveAt(r, k))
  {
    var r' := RemoveAt(r, k);
    var n := |r|;
    assert LinkedAt(fd, bk, r, k);
    assert LinkedAt(fd, bk, r, Prev(k, n));
    var f, b := fd[r[k]], bk[r[k]];
    var fd', bk' := fd[b := f], bk[f := b];
    forall j | 0 <= j < |r'|
      ensures LinkedAt(fd', bk', r', j)
    {
      var i := if j < k then j else j + 1;
      assert r'[j] == r[i];
      assert LinkedAt(fd, bk, r, i);
    }
  }

  lemma CycleRotate(fd: map<int, int>, bk: map<int, int>, r: seq<int>)
    requires Cycle(fd, bk, r) && NoDup(r)
    ensures Cycle(fd, bk, [r[|r| - 1]] + r[..|r| - 1])
    ensures NoDup([r[|r| - 1]] + r[..|r| - 1])
  {
    var n := |r|;
    var r' := [r[n - 1]] + r[..n - 1];
    forall j | 0 <= j < n
      ensures LinkedAt(fd, bk, r', j)
    {
      var i := Prev(j, n);
      assert r'[j] == r[i];
      assert LinkedAt(fd, bk, r, i);
    }
  }

  lemma CycleFrame(fd: map<int, int>, bk: map<int, int>, fd': map<int, int>, bk': map<int, int>, r: seq<int>)
    requires Cycle(fd, bk, r)
    requires forall x :: x in r && x in fd ==> x in fd' && fd'[x] == fd[x]
    requires forall x :: x in r && x in bk ==> x in bk' && bk'[x] == bk[x]
    ensures Cycle(fd', bk', r)
  {
    forall k | 0 <= k < |r|
      ensures LinkedAt(fd', bk', r, k)
    {
      assert LinkedAt(fd, bk, r, k);
    }
  }
}

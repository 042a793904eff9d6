/**
 * The bitwise tries of free chunk sizes, as shapes: which sizes have a node, how
 * deep it sits, and which size is its parent's.  A node's position is determined by
 * its depth and the leading bits of its size.
 */
module Trie {
  import opened SizeClass

  datatype Shape = Shape(depth: map<nat, nat>, up: map<nat, nat>)

  ghost predicate Placed(sh: Shape, s: nat)
    requires s in sh.depth
  {
    && TreeSize(s)
    && sh.depth[s] <= Width(s)
    && (sh.depth[s] > 0 ==>
          && s in sh.up
          && sh.up[s] in sh.depth
          && sh.depth[sh.up[s]] == sh.depth[s] - 1
          && Same(sh.up[s], s, sh.depth[s] - 1))
  }

  /** No two nodes at one position. */
  ghost predicate Distinct(sh: Shape) {
    forall s, t {:trigger Same(s, t, sh.depth[s])} ::
      s in sh.depth && t in sh.depth && sh.depth[s] == sh.depth[t] && Same(s, t, sh.depth[s]) ==> s == t
  }

  ghost predicate WellFormed(sh: Shape) {
    && (forall s {:trigger Placed(sh, s)} :: s in sh.depth ==> Placed(sh, s))
    && Distinct(sh)
  }

  ghost predicate IsChild(sh: Shape, s: nat, p: nat, b: nat) {
    && s in sh.depth && sh.depth[s] > 0 && s in sh.up && sh.up[s] == p && p in sh.depth
    && sh.depth[p] < Width(s)
    && Turn(s, sh.depth[p]) == b
  }

  /** t is a, or a node below it. */
  ghost predicate Under(sh: Shape, t: nat, a: nat) {
    && t in sh.depth && a in sh.depth
    && sh.depth[a] <= sh.depth[t] && Same(t, a, sh.depth[a])
  }

  /** The node at depth d on the way from the root to s. */
  ghost function Ancestor(sh: Shape, s: nat, d: nat): (a: nat)
    requires WellFormed(sh) && s in sh.depth && d <= sh.depth[s]
    ensures a in sh.depth && sh.depth[a] == d && Same(s, a, d)
    ensures d < sh.depth[s] ==> a != s
    decreases sh.depth[s]
  {
    assert Placed(sh, s);
    if sh.depth[s] == d then s
    else
      var p := sh.up[s];
      var a := Ancestor(sh, p, d);
      SameLess(p, s, sh.depth[p], d);
      a
  }

  lemma ChildUnique(sh: Shape, s: nat, t: nat, p: nat, b: nat)
    requires WellFormed(sh) && IsChild(sh, s, p, b) && IsChild(sh, t, p, b)
    ensures s == t
  {
    assert Placed(sh, s) && Placed(sh, t);
    assert Same(s, t, sh.depth[p]);
    SameStep(s, t, sh.depth[p]);
  }

  /** Every node strictly under a is under exactly the child of a that its size selects. */
  lemma UnderSplit(sh: Shape, t: nat, a: nat) returns (c: nat)
    requires WellFormed(sh) && Under(sh, t, a) && t != a
    ensures sh.depth[a] < Width(t) && sh.depth[a] < sh.depth[t]
    ensures IsChild(sh, c, a, Turn(t, sh.depth[a])) && Under(sh, t, c)
  {
    hide Same, Turn, Width;
    var d := sh.depth[a];
    assert Placed(sh, t);
    if sh.depth[t] == d { assert false; }
    c := Ancestor(sh, t, d + 1);
    assert Placed(sh, c);
    SameLess(t, c, d + 1, d);
    var p := sh.up[c];
    SameSym(t, c, d);
    SameTrans(p, c, t, d);
    SameTrans(p, t, a, d);
    assert p == a;
    SameStep(t, c, d);
  }

  lemma ChildUnder(sh: Shape, c: nat, a: nat, b: nat)
    requires WellFormed(sh) && IsChild(sh, c, a, b)
    ensures Under(sh, c, a)
    ensures sh.depth[c] == sh.depth[a] + 1
  {
    assert Placed(sh, c);
  }

  lemma UnderTrans(sh: Shape, r: nat, s: nat, t: nat)
    requires WellFormed(sh) && Under(sh, r, s) && Under(sh, s, t)
    ensures Under(sh, r, t)
  {
    hide Same, Turn, Width;
    SameLess(r, s, sh.depth[s], sh.depth[t]);
    SameTrans(r, s, t, sh.depth[t]);
  }

  /**
   * A walk for `key` that has reached node a: if key is stored below, the child slot that
   * key selects holds the next node of the walk, and an empty slot means key is not stored.
   */
  lemma WalkStep(sh: Shape, key: nat, a: nat) returns (c: nat)
    requires WellFormed(sh) && a in sh.depth && key != a
    requires Same(key, a, sh.depth[a])
    requires key in sh.depth && sh.depth[key] >= sh.depth[a]
    ensures sh.depth[a] < Width(key)
    ensures IsChild(sh, c, a, Turn(key, sh.depth[a]))
    ensures Same(key, c, sh.depth[c]) && sh.depth[key] >= sh.depth[c]
  {
    c := UnderSplit(sh, key, a);
  }

  lemma RootUnder(sh: Shape, r: nat, t: nat)
    requires WellFormed(sh) && r in sh.depth && t in sh.depth
    requires sh.depth[r] == 0 && TreeIndex(r) == TreeIndex(t)
    ensures Under(sh, t, r)
  {
    assert Placed(sh, r) && Placed(sh, t);
    SameRoot(t, r);
  }

  // ------------------------------------------------------------------ smallest node

  /** The smaller sizes are under child 0. */
  lemma ChildOrder(sh: Shape, a: nat, c0: nat, t: nat)
    requires WellFormed(sh)
    requires IsChild(sh, c0, a, 0)
    requires Under(sh, t, a) && t != a && !Under(sh, t, c0)
    ensures c0 < t
  {
    var c := UnderSplit(sh, t, a);
    if Turn(t, sh.depth[a]) == 0 {
      ChildUnique(sh, c, c0, a, 0);
      assert false;
    }
    ChildUnder(sh, c0, a, 0);
    TurnOrder(c0, t, sh.depth[a]);
  }

  // ------------------------------------------------------------------ updates

  function WithLeaf(sh: Shape, s: nat, p: nat): Shape
    requires p in sh.depth
  {
    Shape(sh.depth[s := sh.depth[p] + 1], sh.up[s := p])
  }

  function WithRoot(sh: Shape, s: nat): Shape {
    Shape(sh.depth[s := 0], sh.up)
  }

  lemma NoClash(sh: Shape, s: nat, p: nat, t: nat)
    requires WellFormed(sh) && p in sh.depth && t in sh.depth && sh.depth[t] == sh.depth[p] + 1
    requires Same(s, p, sh.depth[p]) && sh.depth[p] < Width(s)
    requires Same(s, t, sh.depth[p] + 1)
    ensures IsChild(sh, t, p, Turn(s, sh.depth[p]))
  {
    hide Same, Turn, Width;
    var d := sh.depth[p];
    assert Placed(sh, t);
    SameLess(s, t, d + 1, d);
    SameTrans(sh.up[t], t, s, d) by { SameSym(s, t, d); }
    SameTrans(sh.up[t], s, p, d);
    SameStep(s, t, d);
  }

  lemma InsertLeaf(sh: Shape, s: nat, p: nat)
    requires WellFormed(sh) && p in sh.depth && s !in sh.depth && TreeSize(s)
    requires Same(s, p, sh.depth[p])
    requires sh.depth[p] < Width(s) ==> forall c :: !IsChild(sh, c, p, Turn(s, sh.depth[p]))
    ensures sh.depth[p] < Width(s)
    ensures WellFormed(WithLeaf(sh, s, p))
  {
    hide Same, Turn, Width, TreeIndex;
    SameSym(s, p, sh.depth[p]);
    if sh.depth[p] == Width(s) { SameFull(s, p); assert false; }
    var sh' := WithLeaf(sh, s, p);
    var d := sh.depth[p];
    forall t | t in sh'.depth
      ensures Placed(sh', t)
    {
      if t != s { assert Placed(sh, t); }
    }
    forall t | t in sh.depth && sh.depth[t] == d + 1
      ensures !Same(s, t, d + 1)
    {
      if Same(s, t, d + 1) { NoClash(sh, s, p, t); }
    }
    forall t | t in sh.depth && sh.depth[t] == d + 1
      ensures !Same(t, s, d + 1)
    {
      if Same(t, s, d + 1) { SameSym(t, s, d + 1); }
    }
    assert Distinct(sh');
  }

  lemma InsertRoot(sh: Shape, s: nat)
    requires WellFormed(sh) && s !in sh.depth && TreeSize(s)
    requires forall t :: t in sh.depth && sh.depth[t] == 0 ==> TreeIndex(t) != TreeIndex(s)
    ensures WellFormed(WithRoot(sh, s))
  {
    var sh' := WithRoot(sh, s);
    forall t | t in sh'.depth
      ensures Placed(sh', t)
    {
      if t != s { assert Placed(sh, t); }
    }
    assert Distinct(sh');
  }

  /** s has no node below it. */
  ghost predicate Leaf(sh: Shape, s: nat) {
    forall t :: t in sh.depth && sh.depth[t] > 0 && t in sh.up ==> sh.up[t] != s
  }

  function Without(sh: Shape, s: nat): Shape {
    Shape(sh.depth - {s}, sh.up - {s})
  }

  lemma RemoveLeaf(sh: Shape, s: nat)
    requires WellFormed(sh) && s in sh.depth && Leaf(sh, s)
    ensures WellFormed(Without(sh, s))
  {
    var sh' := Without(sh, s);
    forall t | t in sh'.depth
      ensures Placed(sh', t)
    {
      assert Placed(sh, t);
    }
    assert Distinct(sh');
  }

  /** Size r takes over the position of the node of size x. */
  function Renamed(sh: Shape, x: nat, r: nat): Shape
    requires x in sh.depth
  {
    var up0 := map k | k in sh.up && k != x :: if sh.up[k] == x then r else sh.up[k];
    Shape((sh.depth - {x})[r := sh.depth[x]], if x in sh.up then up0[r := sh.up[x]] else up0)
  }

  lemma RenamedAt(sh: Shape, x: nat, r: nat, k: nat)
    requires x in sh.depth && k != x && k != r
    ensures var sh' := Renamed(sh, x, r);
      && (k in sh'.depth <==> k in sh.depth) && (k in sh.depth ==> sh'.depth[k] == sh.depth[k])
      && (k in sh'.up <==> k in sh.up)
      && (k in sh.up ==> sh'.up[k] == if sh.up[k] == x then r else sh.up[k])
      && r in sh'.depth && sh'.depth[r] == sh.depth[x]
      && (x in sh.up ==> r in sh'.up && sh'.up[r] == sh.up[x])
  {}

  ghost predicate CanRename(sh: Shape, x: nat, r: nat) {
    && WellFormed(sh) && x in sh.depth
    && (r == x || r !in sh.depth)
    && TreeSize(r) && Same(r, x, sh.depth[x])
  }

  lemma RenamedPlaced(sh: Shape, x: nat, r: nat, t: nat)
    requires CanRename(sh, x, r) && t in Renamed(sh, x, r).depth
    ensures Placed(Renamed(sh, x, r), t)
  {
    hide Same, Turn, Width, TreeIndex, TreeSize;
    assert Placed(sh, x);
    if t in sh.depth { assert Placed(sh, t); }
    var dx := sh.depth[x];
    SameSym(r, x, dx);
    if t == r {
      if dx > 0 {
        SameLess(x, r, dx, dx - 1);
        SameTrans(sh.up[x], x, r, dx - 1);
      }
    } else if sh.depth[t] > 0 {
      if sh.up[t] == x {
        SameTrans(r, x, t, dx);
      }
    }
  }

  /** Any size that agrees with the position's bits may stand there, a leaf from below in particular. */
  lemma Rename(sh: Shape, x: nat, r: nat)
    requires CanRename(sh, x, r)
    ensures WellFormed(Renamed(sh, x, r))
  {
    hide Same, Turn, Width, TreeIndex, TreeSize;
    var sh' := Renamed(sh, x, r);
    forall t | t in sh'.depth ensures Placed(sh', t) { RenamedPlaced(sh, x, r, t); }
    forall s, t | s in sh'.depth && t in sh'.depth && sh'.depth[s] == sh'.depth[t] && Same(s, t, sh'.depth[s])
      ensures s == t
    {
      var d := sh'.depth[s];
      if s == r && t != r {
        SameTrans(x, r, t, d) by { SameSym(r, x, d); }
        assert false;
      }
      if t == r && s != r { SameTrans(s, r, x, d); assert false; }
    }
  }
}

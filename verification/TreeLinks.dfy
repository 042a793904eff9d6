/**
 * The tries as they lie in memory: child, parent and root pointers between chunk
 * addresses, tied to a Trie.Shape.  `nd` gives the chunk that is the node of a size,
 * `key` the size of a chunk.
 */
module TreeLinks {
  import opened SizeClass
  import opened Trie

  const HEAP_MIN := 4096

  /** Address of the header of tree bin i, which a root's parent field points at. */
  function RootAddr(i: nat): int { 512 + 4 * i }

  datatype Tree = Tree(
    left: map<int, int>, right: map<int, int>, par: map<int, int>,
    roots: seq<int>, key: map<int, nat>, nd: map<nat, int>, sh: Shape)

  function Slot(t: Tree, a: int, b: nat): int
    requires a in t.left && a in t.right
  {
    if b == 0 then t.left[a] else t.right[a]
  }

  ghost predicate Node(t: Tree, s: nat) {
    && s in t.nd
    && t.nd[s] in t.key && t.key[t.nd[s]] == s && t.nd[s] >= HEAP_MIN
    && t.nd[s] in t.left && t.nd[s] in t.right && t.nd[s] in t.par
  }

  /** The node of s hangs where its depth and bits say, and points back at its parent. */
  ghost predicate Hung(t: Tree, s: nat) {
    && Node(t, s) && s in t.sh.depth
    && if t.sh.depth[s] == 0 then
         && TreeIndex(s) < NBINS == |t.roots|
         && t.roots[TreeIndex(s)] == t.nd[s]
         && t.par[t.nd[s]] == RootAddr(TreeIndex(s))
       else
         && s in t.sh.up && t.sh.up[s] in t.sh.depth && Node(t, t.sh.up[s])
         && t.sh.depth[t.sh.up[s]] < Width(s)
         && t.par[t.nd[s]] == t.nd[t.sh.up[s]]
         && Slot(t, t.nd[t.sh.up[s]], Turn(s, t.sh.depth[t.sh.up[s]])) == t.nd[s]
  }

  /** Slot b of the node of s is empty or holds the child of s on side b. */
  ghost predicate Kid(t: Tree, s: nat, b: nat) {
    && Node(t, s)
    && var c := Slot(t, t.nd[s], b);
       c == 0 || (c in t.key && t.key[c] in t.nd && t.nd[t.key[c]] == c
                  && IsChild(t.sh, t.key[c], s, b))
  }

  ghost predicate Rooted(t: Tree, i: nat) {
    && i < |t.roots|
    && var c := t.roots[i];
       c == 0 || (c in t.key && t.key[c] in t.nd && t.nd[t.key[c]] == c
                  && t.key[c] in t.sh.depth && t.sh.depth[t.key[c]] == 0 && TreeIndex(t.key[c]) == i)
  }

  ghost predicate TreeInv(t: Tree) {
    && WellFormed(t.sh)
    && |t.roots| == NBINS
    && t.nd.Keys == t.sh.depth.Keys
    && (forall s {:trigger Hung(t, s)} :: s in t.sh.depth ==> Hung(t, s))
    && (forall s, b {:trigger Kid(t, s, b)} :: s in t.sh.depth && 0 <= b < 2 ==> Kid(t, s, b))
    && (forall i {:trigger Rooted(t, i)} :: 0 <= i < NBINS ==> Rooted(t, i))
  }

  lemma At(t: Tree, s: nat)
    requires TreeInv(t) && s in t.sh.depth
    ensures Placed(t.sh, s) && Hung(t, s) && Kid(t, s, 0) && Kid(t, s, 1)
    ensures s in t.nd && TreeSize(s)
  {
    hide Same, Turn, Width, TreeSize, TreeIndex;
    assert Hung(t, s) && Kid(t, s, 0) && Kid(t, s, 1) && Placed(t.sh, s);
  }

  ghost predicate KeepsNode(t: Tree, t': Tree, n: int) {
    && n in t.key && n in t'.key && t'.key[n] == t.key[n]
    && n in t.left && n in t'.left && t'.left[n] == t.left[n]
    && n in t.right && n in t'.right && t'.right[n] == t.right[n]
    && n in t.par && n in t'.par && t'.par[n] == t.par[n]
  }

  /** Only the fields of node chunks matter. */
  lemma TreeFrame(t: Tree, t': Tree)
    requires TreeInv(t) && t'.sh == t.sh && t'.nd == t.nd && t'.roots == t.roots
    requires forall s :: s in t.sh.depth && s in t.nd ==> KeepsNode(t, t', t.nd[s])
    ensures TreeInv(t')
  {
    hide Same, Turn, Width, TreeSize, TreeIndex, WellFormed;
    forall k | k in t'.sh.depth ensures Hung(t', k) {
      assert Hung(t, k);
      if t.sh.depth[k] > 0 { assert Hung(t, t.sh.up[k]); }
    }
    forall k, e | k in t'.sh.depth && 0 <= e < 2 ensures Kid(t', k, e) {
      assert Hung(t, k) && Kid(t, k, e);
      var c := Slot(t, t.nd[k], e);
      if c != 0 { assert Hung(t, t.key[c]); }
    }
    forall i | 0 <= i < NBINS ensures Rooted(t', i) {
      assert Rooted(t, i);
      if t.roots[i] != 0 { assert Hung(t, t.key[t.roots[i]]); }
    }
  }

  // ---------------------------------------------------------------- attaching a node

  function PutSlot(t: Tree, a: int, b: nat, v: int): Tree {
    if b == 0 then t.(left := t.left[a := v]) else t.(right := t.right[a := v])
  }

  /** The new leaf x of size s under the node of p. */
  function Attached(t: Tree, s: nat, x: int, p: nat): Tree
    requires p in t.nd && p in t.sh.depth && t.sh.depth[p] < Width(s)
  {
    PutSlot(t.(left := t.left[x := 0], right := t.right[x := 0], par := t.par[x := t.nd[p]],
               key := t.key[x := s], nd := t.nd[s := x], sh := WithLeaf(t.sh, s, p)),
            t.nd[p], Turn(s, t.sh.depth[p]), x)
  }

  lemma TurnRange(s: nat, d: nat)
    requires d < Width(s)
    ensures 0 <= Turn(s, d) < 2
  {}

  /** A free slot has no child in the shape. */
  lemma EmptySlot(t: Tree, p: nat, b: nat, c: nat)
    requires TreeInv(t) && p in t.sh.depth && Kid(t, p, b) && 0 <= b < 2
    requires Slot(t, t.nd[p], b) == 0
    ensures !IsChild(t.sh, c, p, b)
  {
    hide Same, Turn, Width;
    if c in t.sh.depth { assert Hung(t, c); }
  }

  ghost predicate CanAttach(t: Tree, s: nat, x: int, p: nat) {
    && TreeInv(t) && p in t.sh.depth && s !in t.sh.depth && TreeSize(s)
    && x !in t.key && x >= HEAP_MIN
    && Same(s, p, t.sh.depth[p])
    && t.sh.depth[p] < Width(s)
    && Kid(t, p, Turn(s, t.sh.depth[p])) && Slot(t, t.nd[p], Turn(s, t.sh.depth[p])) == 0
  }

  lemma AttachedHung(t: Tree, s: nat, x: int, p: nat, k: nat)
    requires CanAttach(t, s, x, p) && k in t.sh.depth
    ensures Hung(Attached(t, s, x, p), k)
  {
    hide Same, Turn, Width, TreeSize, TreeIndex, TreeInv, WellFormed;
    At(t, p);
    At(t, k);
    if t.sh.depth[k] > 0 {
      var q := t.sh.up[k];
      At(t, q);
      if q == p {
        var b := Turn(s, t.sh.depth[p]);
        TurnRange(s, t.sh.depth[p]);
        TurnRange(k, t.sh.depth[p]);
        EmptySlot(t, p, b, k);
      }
    }
  }

  lemma AttachedKid(t: Tree, s: nat, x: int, p: nat, k: nat, e: nat)
    requires CanAttach(t, s, x, p) && k in t.sh.depth && e < 2
    ensures Kid(Attached(t, s, x, p), k, e)
  {
    hide Same, Turn, Width, TreeSize, TreeIndex, TreeInv, WellFormed;
    TurnRange(s, t.sh.depth[p]);
    At(t, p);
    At(t, k);
  }

  /** Linking a chunk of a new size at the empty slot that its bits select. */
  lemma AttachLeaf(t: Tree, s: nat, x: int, p: nat)
    requires CanAttach(t, s, x, p)
    ensures TreeInv(Attached(t, s, x, p))
  {
    hide Same, Turn, Width, TreeSize, TreeIndex;
    var t' := Attached(t, s, x, p);
    var b := Turn(s, t.sh.depth[p]);
    TurnRange(s, t.sh.depth[p]);
    forall c ensures !IsChild(t.sh, c, p, b) { EmptySlot(t, p, b, c); }
    InsertLeaf(t.sh, s, p);
    assert Hung(t, p);
    assert Hung(t', s);
    forall k | k in t'.sh.depth ensures Hung(t', k) {
      if k != s { AttachedHung(t, s, x, p, k); }
    }
    forall k, e | k in t'.sh.depth && 0 <= e < 2 ensures Kid(t', k, e) {
      if k != s { AttachedKid(t, s, x, p, k, e); }
    }
    forall i | 0 <= i < NBINS ensures Rooted(t', i) { assert Rooted(t, i); }
  }

  function AttachedRoot(t: Tree, s: nat, x: int): Tree
    requires TreeIndex(s) < |t.roots|
  {
    t.(left := t.left[x := 0], right := t.right[x := 0], par := t.par[x := RootAddr(TreeIndex(s))],
       roots := t.roots[TreeIndex(s) := x],
       key := t.key[x := s], nd := t.nd[s := x], sh := WithRoot(t.sh, s))
  }

  ghost predicate CanRoot(t: Tree, s: nat, x: int) {
    && TreeInv(t) && s !in t.sh.depth && TreeSize(s) && x !in t.key && x >= HEAP_MIN
    && TreeIndex(s) < NBINS && t.roots[TreeIndex(s)] == 0
  }

  lemma AttachedRootAt(t: Tree, s: nat, x: int, k: nat)
    requires CanRoot(t, s, x) && k in t.sh.depth
    ensures var t' := AttachedRoot(t, s, x); Hung(t', k) && Kid(t', k, 0) && Kid(t', k, 1)
    ensures t.sh.depth[k] == 0 ==> TreeIndex(k) != TreeIndex(s)
  {
    hide Same, Turn, Width, TreeSize, TreeIndex, WellFormed, TreeInv;
    WellFormedIn(t);
    At(t, k);
    if t.sh.depth[k] > 0 { At(t, t.sh.up[k]); }
  }

  /** The first chunk of an empty tree becomes its root. */
  lemma AttachRoot(t: Tree, s: nat, x: int)
    requires CanRoot(t, s, x)
    ensures TreeInv(AttachedRoot(t, s, x))
  {
    hide Same, Turn, Width, TreeSize, TreeIndex;
    var t' := AttachedRoot(t, s, x);
    forall k | k in t.sh.depth && t.sh.depth[k] == 0 ensures TreeIndex(k) != TreeIndex(s) { AttachedRootAt(t, s, x, k); }
    InsertRoot(t.sh, s);
    assert Hung(t', s);
    forall k | k in t'.sh.depth ensures Hung(t', k) {
      if k != s { AttachedRootAt(t, s, x, k); }
    }
    forall k, e | k in t'.sh.depth && 0 <= e < 2 ensures Kid(t', k, e) {
      if k != s { AttachedRootAt(t, s, x, k); }
    }
    forall i | 0 <= i < NBINS ensures Rooted(t', i) { assert Rooted(t, i); }
  }

  // ---------------------------------------------------------------- detaching a leaf

  /** Whatever points down at the node of size x points at a instead. */
  function Repointed(t: Tree, x: nat, a: int): Tree
    requires Hung(t, x)
  {
    if t.sh.depth[x] == 0 then t.(roots := t.roots[TreeIndex(x) := a])
    else PutSlot(t, t.nd[t.sh.up[x]], Turn(x, t.sh.depth[t.sh.up[x]]), a)
  }

  /** The leaf of size s is cut off its parent (or its tree bin). */
  function Detached(t: Tree, s: nat): Tree
    requires Hung(t, s)
  {
    Repointed(t, s, 0).(key := t.key - {t.nd[s]}, nd := t.nd - {s}, sh := Without(t.sh, s))
  }

  /** What the cut does to the fields of another node's chunk n. */
  lemma DetachedFields(t: Tree, s: nat, n: int, e: nat)
    requires Hung(t, s) && n in t.left && n in t.right && n in t.par && e < 2
    ensures var t' := Detached(t, s);
      && n in t'.left && n in t'.right && n in t'.par && t'.par == t.par
      && Slot(t', n, e) == (
          if t.sh.depth[s] > 0 && n == t.nd[t.sh.up[s]] && (e == 0 <==> Turn(s, t.sh.depth[t.sh.up[s]]) == 0) then 0
          else Slot(t, n, e))
      && t'.key == t.key - {t.nd[s]} && t'.nd == t.nd - {s} && t'.sh == Without(t.sh, s)
      && t'.roots == if t.sh.depth[s] == 0 then t.roots[TreeIndex(s) := 0] else t.roots
  {}

  lemma DetachedHung(t: Tree, s: nat, k: nat)
    requires TreeInv(t) && s in t.sh.depth && Leaf(t.sh, s) && Hung(t, s) && k in t.sh.depth && k != s
    ensures Hung(Detached(t, s), k)
  {
    hide Same, Turn, Width, TreeSize, TreeIndex, TreeInv, WellFormed, Detached;
    At(t, k);
    At(t, s);
    DetachedFields(t, s, t.nd[k], 0);
    if t.sh.depth[k] > 0 {
      var q := t.sh.up[k];
      At(t, q);
      TurnRange(k, t.sh.depth[q]);
      DetachedFields(t, s, t.nd[q], Turn(k, t.sh.depth[q]));
      if t.sh.depth[s] > 0 { At(t, t.sh.up[s]); TurnRange(s, t.sh.depth[t.sh.up[s]]); }
    }
  }

  lemma DetachedKid(t: Tree, s: nat, k: nat, e: nat)
    requires TreeInv(t) && s in t.sh.depth && Leaf(t.sh, s) && Hung(t, s) && k in t.sh.depth && k != s && e < 2
    ensures Kid(Detached(t, s), k, e)
  {
    hide Same, Turn, Width, TreeSize, TreeIndex, TreeInv, WellFormed, Detached;
    At(t, k);
    At(t, s);
    DetachedFields(t, s, t.nd[k], e);
    if t.sh.depth[s] > 0 { At(t, t.sh.up[s]); TurnRange(s, t.sh.depth[t.sh.up[s]]); }
    var c := Slot(t, t.nd[k], e);
    if c != 0 && t.key[c] == s {
      assert IsChild(t.sh, s, k, e);
    }
  }

  lemma DetachLeaf(t: Tree, s: nat)
    requires TreeInv(t) && s in t.sh.depth && Leaf(t.sh, s) && Hung(t, s)
    ensures TreeInv(Detached(t, s))
  {
    hide Same, Turn, Width, TreeSize, TreeIndex;
    var t' := Detached(t, s);
    RemoveLeaf(t.sh, s);
    forall k | k in t'.sh.depth ensures Hung(t', k) { DetachedHung(t, s, k); }
    forall k, e | k in t'.sh.depth && 0 <= e < 2 ensures Kid(t', k, e) { DetachedKid(t, s, k, e); }
    forall i | 0 <= i < NBINS ensures Rooted(t', i) { assert Rooted(t, i); }
  }

  // ---------------------------------------------------------------- replacing a node

  /** Chunk a, of size r, takes the place of the node of size x in the tree. */
  function Rehung(t: Tree, x: nat, r: nat, a: int): Tree
    requires Hung(t, x)
  {
    var n := t.nd[x];
    var t1 := Repointed(t, x, a);
    var c0, c1 := t.left[n], t.right[n];
    var p1 := t.par[a := t.par[n]];
    var p2 := if c0 != 0 then p1[c0 := a] else p1;
    var p3 := if c1 != 0 then p2[c1 := a] else p2;
    t1.(left := t1.left[a := c0], right := t1.right[a := c1], par := p3,
        key := (t.key - {n})[a := r], nd := (t.nd - {x})[r := a], sh := Renamed(t.sh, x, r))
  }

  ghost predicate CanRehang(t: Tree, x: nat, r: nat, a: int) {
    && TreeInv(t) && x in t.sh.depth && Hung(t, x)
    && CanRename(t.sh, x, r)
    && a != t.nd[x] && a >= HEAP_MIN && (a in t.key ==> t.key[a] !in t.nd || t.nd[t.key[a]] != a)
  }

  lemma OtherNode(t: Tree, x: nat, r: nat, a: int, k: nat)
    requires CanRehang(t, x, r, a) && k in t.sh.depth
    ensures t.nd[k] != a && (k != x ==> t.nd[k] != t.nd[x])
  {
    hide Same, Turn, Width, TreeSize, TreeIndex;
    assert Hung(t, k);
  }

  /** What the replacement does to the fields of another node's chunk n. */
  lemma RehungFields(t: Tree, x: nat, r: nat, a: int, n: int, e: nat)
    requires Hung(t, x) && n != a && n in t.left && n in t.right && n in t.par && e < 2
    ensures var t' := Rehung(t, x, r, a);
      && n in t'.left && n in t'.right && n in t'.par
      && Slot(t', n, e) == (
          if t.sh.depth[x] > 0 && n == t.nd[t.sh.up[x]] && (e == 0 <==> Turn(x, t.sh.depth[t.sh.up[x]]) == 0) then a
          else Slot(t, n, e))
      && t'.par[n] == (if n != 0 && (n == t.left[t.nd[x]] || n == t.right[t.nd[x]]) then a else t.par[n])
  {}

  lemma RehungNames(t: Tree, x: nat, r: nat, a: int, k: nat)
    requires Hung(t, x) && k in t.nd && k != x && k != r && t.nd[k] in t.key
    requires t.nd[k] != a && t.nd[k] != t.nd[x]
    ensures var t' := Rehung(t, x, r, a);
      && k in t'.nd && t'.nd[k] == t.nd[k]
      && t.nd[k] in t'.key && t'.key[t.nd[k]] == t.key[t.nd[k]]
      && r in t'.nd && t'.nd[r] == a && a in t'.key && t'.key[a] == r
      && t'.sh == Renamed(t.sh, x, r)
  {}

  lemma RehungKid(t: Tree, x: nat, r: nat, a: int, k: nat, e: nat)
    requires CanRehang(t, x, r, a) && k in t.sh.depth && k != x && e < 2
    ensures Kid(Rehung(t, x, r, a), k, e)
  {
    hide Same, Turn, Width, TreeSize, TreeIndex, TreeInv, WellFormed, Renamed, Rehung;
    OtherNode(t, x, r, a, k);
    At(t, k);
    At(t, x);
    RehungFields(t, x, r, a, t.nd[k], e);
    RehungNames(t, x, r, a, k);
    RenamedAt(t.sh, x, r, k);
    var t' := Rehung(t, x, r, a);
    var c := Slot(t, t.nd[k], e);
    if t.sh.depth[x] > 0 {
      At(t, t.sh.up[x]);
      TurnRange(x, t.sh.depth[t.sh.up[x]]);
      SameTurn(r, x, t.sh.depth[x], t.sh.depth[t.sh.up[x]]);
    }
    if c != 0 {
      OtherNode(t, x, r, a, t.key[c]);
      if t.key[c] == x {
        assert IsChild(t'.sh, r, k, e);
      } else {
        RenamedAt(t.sh, x, r, t.key[c]);
        RehungNames(t, x, r, a, t.key[c]);
        assert IsChild(t'.sh, t.key[c], k, e);
      }
    }
  }

  lemma RehungKidNew(t: Tree, x: nat, r: nat, a: int, e: nat)
    requires CanRehang(t, x, r, a) && e < 2
    ensures Kid(Rehung(t, x, r, a), r, e)
  {
    hide Same, Turn, Width, TreeSize, TreeIndex, TreeInv, WellFormed;
    At(t, x);
    var t' := Rehung(t, x, r, a);
    var c := Slot(t, t.nd[x], e);
    if t.sh.depth[x] > 0 { At(t, t.sh.up[x]); OtherNode(t, x, r, a, t.sh.up[x]); }
    if c != 0 { OtherNode(t, x, r, a, t.key[c]); ChildUnder(t.sh, t.key[c], x, e); }
  }

  lemma RehungHung(t: Tree, x: nat, r: nat, a: int, k: nat)
    requires CanRehang(t, x, r, a) && k in t.sh.depth && k != x
    ensures Hung(Rehung(t, x, r, a), k)
  {
    hide Same, Turn, Width, TreeSize, TreeIndex, TreeInv, WellFormed, Renamed, Rehung;
    OtherNode(t, x, r, a, k);
    At(t, k);
    At(t, x);
    RenamedAt(t.sh, x, r, k);
    RehungFields(t, x, r, a, t.nd[k], 0);
    RehungNames(t, x, r, a, k);
    var t' := Rehung(t, x, r, a);
    if t.sh.depth[k] == 0 {
      RehungTop(t, x, r, a, k);
    } else {
      var q := t.sh.up[k];
      At(t, q);
      OtherNode(t, x, r, a, q);
      TurnRange(k, t.sh.depth[q]);
      if q == x {
        RehungSelf(t, x, r, a);
      } else {
        RenamedAt(t.sh, x, r, q);
        RehungNames(t, x, r, a, q);
        RehungFields(t, x, r, a, t.nd[q], Turn(k, t.sh.depth[q]));
        if t.sh.depth[x] > 0 {
          At(t, t.sh.up[x]);
          TurnRange(x, t.sh.depth[t.sh.up[x]]);
        }
      }
    }
  }

  lemma RehungTop(t: Tree, x: nat, r: nat, a: int, k: nat)
    requires CanRehang(t, x, r, a) && k in t.sh.depth && k != x && Hung(t, k) && t.sh.depth[k] == 0
    ensures var t' := Rehung(t, x, r, a); |t'.roots| == NBINS && t'.roots[TreeIndex(k)] == t.nd[k]
  {
    OtherNode(t, x, r, a, k);
  }

  lemma RehungSelf(t: Tree, x: nat, r: nat, a: int)
    requires CanRehang(t, x, r, a)
    ensures var t' := Rehung(t, x, r, a);
      && a in t'.left && a in t'.right && a in t'.par && r in t'.nd && t'.nd[r] == a && a in t'.key && t'.key[a] == r
      && (forall e :: 0 <= e < 2 ==> Slot(t', a, e) == Slot(t, t.nd[x], e))
      && r in t'.sh.depth
  {
    hide Same, Turn, Width, TreeSize, TreeIndex, TreeInv, WellFormed;
    At(t, x);
  }

  lemma RehungHungNew(t: Tree, x: nat, r: nat, a: int)
    requires CanRehang(t, x, r, a)
    ensures Hung(Rehung(t, x, r, a), r)
  {
    hide Turn, Width, TreeSize, TreeIndex, TreeInv, WellFormed;
    At(t, x);
    if t.left[t.nd[x]] != 0 { OtherNode(t, x, r, a, t.key[t.left[t.nd[x]]]); }
    if t.right[t.nd[x]] != 0 { OtherNode(t, x, r, a, t.key[t.right[t.nd[x]]]); }
    if t.sh.depth[x] > 0 {
      var q := t.sh.up[x];
      At(t, q);
      OtherNode(t, x, r, a, q);
      TurnRange(x, t.sh.depth[q]);
      SameTurn(r, x, t.sh.depth[x], t.sh.depth[q]);
    }
  }

  /** The tree stays sound when a chunk whose size has the position's bits replaces a node. */
  lemma Rehang(t: Tree, x: nat, r: nat, a: int)
    requires CanRehang(t, x, r, a)
    ensures TreeInv(Rehung(t, x, r, a))
  {
    hide Same, Turn, Width, TreeSize, TreeIndex;
    var t' := Rehung(t, x, r, a);
    Rename(t.sh, x, r);
    RehungHungNew(t, x, r, a);
    forall k | k in t'.sh.depth ensures Hung(t', k) {
      if k != r { RehungHung(t, x, r, a, k); }
    }
    forall k, e | k in t'.sh.depth && 0 <= e < 2 ensures Kid(t', k, e) {
      if k == r { RehungKidNew(t, x, r, a, e); } else { RehungKid(t, x, r, a, k, e); }
    }
    forall i | 0 <= i < NBINS ensures Rooted(t', i) { RehungRoot(t, x, r, a, i); }
  }

  lemma RehungRoot(t: Tree, x: nat, r: nat, a: int, i: nat)
    requires CanRehang(t, x, r, a) && i < NBINS
    ensures Rooted(Rehung(t, x, r, a), i)
  {
    hide Turn, Width, TreeSize, TreeIndex;
    assert Rooted(t, i);
    if t.roots[i] != 0 { OtherNode(t, x, r, a, t.key[t.roots[i]]); }
  }

  // ---------------------------------------------------------------- chunks off the tree

  /** The tree links of chunk c are there and empty. */
  ghost predicate NoLinks(left: map<int, int>, right: map<int, int>, par: map<int, int>, c: int) {
    c in left && c in right && c in par && left[c] == 0 && right[c] == 0 && par[c] == 0
  }

  ghost predicate Bare(t: Tree, c: int) { NoLinks(t.left, t.right, t.par, c) }

  lemma NodeNotBare(t: Tree, s: nat)
    requires TreeInv(t) && s in t.sh.depth
    ensures s in t.nd && !Bare(t, t.nd[s])
  {
    hide Same, Turn, Width, TreeSize, TreeIndex, TreeInv, WellFormed;
    At(t, s);
    if t.sh.depth[s] > 0 { At(t, t.sh.up[s]); }
  }

  lemma AttachedBare(t: Tree, s: nat, x: int, p: nat, c: int)
    requires CanAttach(t, s, x, p) && Bare(t, c) && c != x
    ensures Bare(Attached(t, s, x, p), c)
  {
    hide Same, Turn, Width, TreeSize, TreeIndex, TreeInv, WellFormed;
    At(t, p);
    NodeNotBare(t, p);
  }

  lemma DetachedBare(t: Tree, s: nat, c: int)
    requires TreeInv(t) && s in t.sh.depth && Hung(t, s) && Bare(t, c)
    ensures Bare(Detached(t, s), c)
  {
    hide Same, Turn, Width, TreeSize, TreeIndex, TreeInv, WellFormed;
    At(t, s);
    if t.sh.depth[s] > 0 { At(t, t.sh.up[s]); NodeNotBare(t, t.sh.up[s]); }
  }

  lemma RehungBare(t: Tree, x: nat, r: nat, a: int, c: int)
    requires CanRehang(t, x, r, a) && Bare(t, c) && c != a
    ensures Bare(Rehung(t, x, r, a), c)
  {
    hide Same, Turn, Width, TreeSize, TreeIndex, TreeInv, WellFormed, Renamed, Rehung;
    At(t, x);
    RehungFields(t, x, r, a, c, 0);
    RehungFields(t, x, r, a, c, 1);
    if t.sh.depth[x] > 0 { At(t, t.sh.up[x]); NodeNotBare(t, t.sh.up[x]); }
    var c0, c1 := t.left[t.nd[x]], t.right[t.nd[x]];
    if c0 != 0 { NodeNotBare(t, t.key[c0]); }
    if c1 != 0 { NodeNotBare(t, t.key[c1]); }
  }

  // ---------------------------------------------------------------- finding a node's place

  /** How unlink_large_chunk tells where a node hangs. */
  lemma HangPlace(t: Tree, k: nat)
    requires TreeInv(t) && k in t.sh.depth
    ensures Hung(t, k) && TreeIndex(k) < |t.roots| && t.par[t.nd[k]] != 0
    ensures t.roots[TreeIndex(k)] == t.nd[k] <==> t.sh.depth[k] == 0
    ensures t.sh.depth[k] > 0 ==>
      && t.sh.up[k] in t.sh.depth && Node(t, t.sh.up[k]) && t.par[t.nd[k]] == t.nd[t.sh.up[k]] != t.nd[k]
      && (t.left[t.nd[t.sh.up[k]]] == t.nd[k] <==> Turn(k, t.sh.depth[t.sh.up[k]]) == 0)
  {
    hide Same, Turn, Width, TreeSize, TreeIndex, TreeInv, WellFormed;
    At(t, k);
    TreeIndexOk(t, k);
    if t.sh.depth[k] > 0 {
      var p := t.sh.up[k];
      At(t, p);
      TurnRange(k, t.sh.depth[p]);
    }
  }

  lemma TreeIndexOk(t: Tree, k: nat)
    requires TreeInv(t) && k in t.sh.depth
    ensures TreeIndex(k) < |t.roots|
    ensures t.roots[TreeIndex(k)] == t.nd[k] ==> t.sh.depth[k] == 0
  {
    At(t, k);
    TreeIndexRange(k);
    assert Rooted(t, TreeIndex(k));
  }

  /** Both slots empty: the node is a leaf. */
  lemma NoKids(t: Tree, k: nat)
    requires TreeInv(t) && k in t.sh.depth && Node(t, k)
    requires t.left[t.nd[k]] == 0 && t.right[t.nd[k]] == 0
    ensures Leaf(t.sh, k)
  {
    hide Same, Turn, Width, TreeSize, TreeIndex, TreeInv, WellFormed;
    forall c | c in t.sh.depth && t.sh.depth[c] > 0 && c in t.sh.up ensures t.sh.up[c] != k {
      At(t, c);
    }
  }

  /** A nonempty slot holds a node one level down. */
  lemma KidBelow(t: Tree, k: nat, e: nat)
    requires TreeInv(t) && k in t.sh.depth && Node(t, k) && e < 2
    requires Slot(t, t.nd[k], e) != 0
    ensures var c := Slot(t, t.nd[k], e);
      && c in t.key && t.key[c] in t.sh.depth && t.key[c] in t.nd && t.nd[t.key[c]] == c && c != t.nd[k]
      && IsChild(t.sh, t.key[c], k, e) && Under(t.sh, t.key[c], k) && t.sh.depth[t.key[c]] == t.sh.depth[k] + 1
      && t.sh.depth[t.key[c]] <= Width(t.key[c])
  {
    hide Same, Turn, Width, TreeSize, TreeIndex, TreeInv, WellFormed, Under;
    At(t, k);
    WellFormedIn(t);
    var c := Slot(t, t.nd[k], e);
    ChildUnder(t.sh, t.key[c], k, e);
    At(t, t.key[c]);
  }

  lemma WellFormedIn(t: Tree)
    requires TreeInv(t)
    ensures WellFormed(t.sh)
  {}
}

/**
 * Why the searches of tmalloc_large and tmalloc_small find the smallest chunk that fits.
 * Sizes stand for nodes; 0 stands for no node.
 */
module BestFit {
  import opened SizeClass
  import opened Trie

  ghost predicate Beaten(vk: nat, k: nat) { vk != 0 && vk <= k }

  /** Every stored size k >= nb is no better than vk, or to be found from tk on. */
  ghost predicate CoverAt(sh: Shape, nb: nat, vk: nat, tk: nat, k: nat) {
    Beaten(vk, k) || (tk != 0 && (Under(sh, k, tk) || nb <= tk <= k))
  }

  ghost predicate Cover(sh: Shape, nb: nat, vk: nat, tk: nat) {
    forall k {:trigger CoverAt(sh, nb, vk, tk, k)} :: k in sh.depth && k >= nb ==> CoverAt(sh, nb, vk, tk, k)
  }

  ghost predicate AllFit(sh: Shape, nb: nat, tk: nat) {
    forall j: nat {:trigger Under(sh, j, tk)} :: Under(sh, j, tk) ==> j >= nb
  }

  /** A candidate: none, or a stored size that fits. */
  ghost predicate Candidate(sh: Shape, nb: nat, vk: nat) {
    vk == 0 || (vk in sh.depth && vk >= nb)
  }

  /** The candidate after looking at size a. */
  function Better(vk: nat, a: nat, nb: nat): nat {
    if a >= nb && (vk == 0 || a < vk) then a else vk
  }

  // ---------------------------------------------------------------- the walk along the bits of nb

  /** rk is a right child that the walk for nb passed by, at depth d or higher up. */
  ghost predicate Fork(sh: Shape, nb: nat, rk: nat, d: nat) {
    && rk in sh.depth && 0 < sh.depth[rk] <= d
    && Same(rk, nb, sh.depth[rk] - 1) && sh.depth[rk] - 1 < Width(nb) && sh.depth[rk] - 1 < Width(rk)
    && Turn(nb, sh.depth[rk] - 1) == 0 && Turn(rk, sh.depth[rk] - 1) == 1
  }

  ghost predicate WalkAt(sh: Shape, nb: nat, vk: nat, a: nat, rk: nat, k: nat) {
    Beaten(vk, k) || (a != 0 && Under(sh, k, a)) || (rk != 0 && (Under(sh, k, rk) || rk <= k))
  }

  ghost predicate WalkCover(sh: Shape, nb: nat, vk: nat, a: nat, rk: nat) {
    forall k {:trigger WalkAt(sh, nb, vk, a, rk, k)} ::
      k in sh.depth && k >= nb && TreeIndex(k) == TreeIndex(nb) ==> WalkAt(sh, nb, vk, a, rk, k)
  }

  /** What lies under a fork is larger than nb, and than what lies under the walk's node. */
  lemma ForkOrder(sh: Shape, nb: nat, rk: nat, d: nat, a: nat, j: nat, k: nat)
    requires WellFormed(sh) && Fork(sh, nb, rk, d) && Under(sh, j, rk)
    ensures nb < j
    ensures a in sh.depth && sh.depth[a] >= d && Same(nb, a, sh.depth[a]) && Under(sh, k, a) ==> k < j
  {
    hide Same, Turn, Width, WellFormed;
    var e := sh.depth[rk] - 1;
    SameTurn(j, rk, e + 1, e);
    SameLess(j, rk, e + 1, e);
    SameTrans(nb, rk, j, e) by { SameSym(rk, nb, e); SameSym(j, rk, e); }
    TurnOrder(nb, j, e);
    if a in sh.depth && sh.depth[a] >= d && Same(nb, a, sh.depth[a]) && Under(sh, k, a) {
      SameSym(nb, a, sh.depth[a]);
      SameTrans(k, a, nb, sh.depth[a]);
      SameTurn(k, nb, sh.depth[a], e);
      SameLess(k, nb, sh.depth[a], e);
      SameTrans(k, nb, j, e);
      TurnOrder(k, j, e);
    }
  }

  /** One step of the walk, at a node without the size nb itself. */
  ghost predicate StepFrom(sh: Shape, nb: nat, a: nat, l: nat, r: nat) {
    && WellFormed(sh) && a in sh.depth && Same(nb, a, sh.depth[a]) && sh.depth[a] < Width(nb)
    && (l != 0 ==> IsChild(sh, l, a, 0)) && (r != 0 ==> IsChild(sh, r, a, 1))
    && (forall c {:trigger IsChild(sh, c, a, 0)} :: IsChild(sh, c, a, 0) ==> c == l)
    && (forall c {:trigger IsChild(sh, c, a, 1)} :: IsChild(sh, c, a, 1) ==> c == r)
    && 0 !in sh.depth
  }

  /** Going left: the right child, if any, becomes the deepest untaken right subtree. */
  lemma StepLeft(sh: Shape, nb: nat, vk: nat, a: nat, rk: nat, l: nat, r: nat, k: nat)
    requires StepFrom(sh, nb, a, l, r) && Turn(nb, sh.depth[a]) == 0
    requires rk != 0 ==> Fork(sh, nb, rk, sh.depth[a])
    requires Beaten(vk, a) || a < nb
    requires WalkAt(sh, nb, vk, a, rk, k) && k in sh.depth && k >= nb
    ensures WalkAt(sh, nb, vk, l, if r != 0 then r else rk, k)
  {
    hide Same, Turn, Width, WellFormed;
    if !Beaten(vk, k) {
      if Under(sh, k, a) {
        var c := UnderSplit(sh, k, a);
        TurnsAre(k, sh.depth[a]);
      } else if r != 0 {
        ChildUnder(sh, r, a, 1);
        if Under(sh, k, rk) {
          ForkOrder(sh, nb, rk, sh.depth[a], a, k, r);
        } else {
          ForkOrder(sh, nb, rk, sh.depth[a], a, rk, r) by { UnderSelf(sh, rk); }
        }
      }
    }
  }

  lemma UnderSelf(sh: Shape, k: nat)
    requires WellFormed(sh) && k in sh.depth
    ensures Under(sh, k, k)
  {
    assert Placed(sh, k);
  }

  lemma TurnsAre(k: nat, d: nat)
    requires d < Width(k)
    ensures Turn(k, d) == 0 || Turn(k, d) == 1
  {}

  /** Going right: what is under the left child is too small. */
  lemma StepRight(sh: Shape, nb: nat, vk: nat, a: nat, rk: nat, l: nat, r: nat, k: nat)
    requires StepFrom(sh, nb, a, l, r) && Turn(nb, sh.depth[a]) == 1
    requires Beaten(vk, a) || a < nb
    requires WalkAt(sh, nb, vk, a, rk, k) && k in sh.depth && k >= nb
    ensures WalkAt(sh, nb, vk, r, rk, k)
  {
    hide Same, Turn, Width, WellFormed;
    if !Beaten(vk, k) && Under(sh, k, a) {
      var d := sh.depth[a];
      var c := UnderSplit(sh, k, a);
      TurnsAre(k, d);
      if Turn(k, d) == 0 {
        SameSym(nb, a, d);
        SameTrans(k, a, nb, d);
        TurnOrder(k, nb, d);
      }
    }
  }

  /** A new fork appears when the walk goes left. */
  lemma ForkNew(sh: Shape, nb: nat, a: nat, r: nat)
    requires WellFormed(sh) && a in sh.depth && Same(nb, a, sh.depth[a]) && sh.depth[a] < Width(nb)
    requires Turn(nb, sh.depth[a]) == 0 && IsChild(sh, r, a, 1)
    ensures Fork(sh, nb, r, sh.depth[a] + 1)
  {
    hide Same, Turn, Width, WellFormed;
    ChildUnder(sh, r, a, 1);
    SameSym(nb, a, sh.depth[a]);
    SameTrans(r, a, nb, sh.depth[a]);
  }

  // ---------------------------------------------------------------- between the two loops

  /** The walk ended: the search goes on from the deepest fork, if there is one. */
  lemma WalkDone(sh: Shape, nb: nat, vk: nat, rk: nat, d: nat)
    requires WellFormed(sh) && TreeSize(nb) && 0 !in sh.depth
    requires WalkCover(sh, nb, vk, 0, rk) && (rk != 0 ==> Fork(sh, nb, rk, d))
    requires Candidate(sh, nb, vk) && (vk != 0 ==> TreeIndex(vk) == TreeIndex(nb))
    requires vk != 0 || rk != 0
    ensures Cover(sh, nb, vk, rk) && (rk != 0 ==> AllFit(sh, nb, rk))
  {
    hide Same, Turn, Width, WellFormed, TreeIndex, TreeSize;
    if rk != 0 {
      forall j: nat | Under(sh, j, rk) ensures j >= nb { ForkOrder(sh, nb, rk, d, rk, j, j); }
      UnderSelf(sh, rk);
      ForkIndex(sh, nb, rk, d);
    }
    forall k | k in sh.depth && k >= nb ensures CoverAt(sh, nb, vk, rk, k) {
      SizeIn(sh, k);
      if TreeIndex(k) == TreeIndex(nb) {
        assert WalkAt(sh, nb, vk, 0, rk, k);
      } else {
        LaterTree(nb, k);
        if vk != 0 { SizeIn(sh, vk); TreeOrder(vk, k); }
        if rk != 0 { SizeIn(sh, rk); TreeOrder(rk, k); }
      }
    }
  }

  lemma LaterTree(nb: nat, k: nat)
    requires TreeSize(nb) && TreeSize(k) && nb <= k && TreeIndex(k) != TreeIndex(nb)
    ensures TreeIndex(nb) < TreeIndex(k) && nb >= MIN_LARGE_SIZE && k >= MIN_LARGE_SIZE
  {
    hide TreeIndex;
    if TreeIndex(k) < TreeIndex(nb) { TreeOrder(k, nb); }
  }

  lemma SizeIn(sh: Shape, k: nat)
    requires WellFormed(sh) && k in sh.depth
    ensures TreeSize(k) && k >= MIN_LARGE_SIZE
  {
    assert Placed(sh, k);
  }

  lemma ForkIndex(sh: Shape, nb: nat, rk: nat, d: nat)
    requires Fork(sh, nb, rk, d)
    ensures TreeIndex(rk) == TreeIndex(nb)
  {}

  /** Nothing fits in nb's own tree: the root of the next nonempty tree starts the search. */
  lemma NextTree(sh: Shape, nb: nat, tk: nat)
    requires WellFormed(sh) && TreeSize(nb) && 0 !in sh.depth
    requires WalkCover(sh, nb, 0, 0, 0)
    requires tk != 0 ==> tk in sh.depth && sh.depth[tk] == 0 && TreeIndex(tk) > TreeIndex(nb)
    requires forall k :: k in sh.depth && TreeIndex(k) > TreeIndex(nb) ==> tk != 0 && TreeIndex(k) >= TreeIndex(tk)
    ensures Cover(sh, nb, 0, tk) && (tk != 0 ==> AllFit(sh, nb, tk))
  {
    hide Same, Turn, Width, WellFormed, TreeIndex, TreeSize;
    if tk != 0 {
      SizeIn(sh, tk);
      forall j: nat | Under(sh, j, tk) ensures j >= nb {
        SizeIn(sh, j);
        UnderIndex(sh, j, tk);
        LargerTree(nb, j);
      }
    }
    forall k | k in sh.depth && k >= nb ensures CoverAt(sh, nb, 0, tk, k) {
      SizeIn(sh, k);
      assert TreeIndex(k) == TreeIndex(nb) ==> WalkAt(sh, nb, 0, 0, 0, k);
      if TreeIndex(k) != TreeIndex(nb) {
        LaterTree(nb, k);
        if TreeIndex(k) == TreeIndex(tk) { RootUnder(sh, tk, k); }
        else { TreeOrder(tk, k); LargerTree(nb, tk); }
      }
    }
  }

  lemma LargerTree(nb: nat, j: nat)
    requires TreeSize(nb) && TreeSize(j) && TreeIndex(nb) < TreeIndex(j)
    ensures nb < j
  {
    hide TreeIndex;
    TreeOrder(nb, j);
  }

  lemma UnderIndex(sh: Shape, j: nat, k: nat)
    requires Under(sh, j, k)
    ensures TreeIndex(j) == TreeIndex(k)
  {}

  // ---------------------------------------------------------------- the walk to the leftmost leaf

  /** One step to the leftmost child l (0 at a leaf) of tk. */
  lemma StepLeftmost(sh: Shape, nb: nat, vk: nat, tk: nat, l: nat, e: nat)
    requires WellFormed(sh) && 0 !in sh.depth && tk in sh.depth && Cover(sh, nb, vk, tk)
    requires (AllFit(sh, nb, tk) || vk == nb) && nb > 0
    requires l != 0 ==> IsChild(sh, l, tk, e) && (e == 1 ==> forall c :: !IsChild(sh, c, tk, 0)) && e < 2
    requires l == 0 ==> forall c :: !IsChild(sh, c, tk, 0) && !IsChild(sh, c, tk, 1)
    requires vk == 0 || vk in sh.depth
    ensures Cover(sh, nb, Better(vk, tk, nb), l)
    ensures l != 0 ==> AllFit(sh, nb, l) || Better(vk, tk, nb) == nb
  {
    hide Same, Turn, Width, WellFormed;
    var v' := Better(vk, tk, nb);
    forall k | k in sh.depth && k >= nb ensures CoverAt(sh, nb, v', l, k) {
      assert CoverAt(sh, nb, vk, tk, k);
      if Under(sh, k, tk) && k != tk {
        var c := UnderSplit(sh, k, tk);
        TurnsAre(k, sh.depth[tk]);
        LeftmostCase(sh, nb, vk, tk, l, e, k, c);
      }
    }
    if l != 0 && AllFit(sh, nb, tk) {
      ChildUnder(sh, l, tk, e);
      forall j: nat | Under(sh, j, l) ensures j >= nb { UnderTrans(sh, j, l, tk); }
    }
  }

  lemma LeftmostCase(sh: Shape, nb: nat, vk: nat, tk: nat, l: nat, e: nat, k: nat, c: nat)
    requires WellFormed(sh) && tk in sh.depth && (AllFit(sh, nb, tk) || vk == nb) && nb > 0
    requires l != 0 && e < 2 && IsChild(sh, l, tk, e) && (e == 1 ==> forall c :: !IsChild(sh, c, tk, 0))
    requires Under(sh, k, tk) && k != tk && k >= nb && sh.depth[tk] < Width(k)
    requires IsChild(sh, c, tk, Turn(k, sh.depth[tk])) && Under(sh, k, c)
    ensures CoverAt(sh, nb, Better(vk, tk, nb), l, k)
  {
    hide Same, Turn, Width, WellFormed;
    TurnsAre(k, sh.depth[tk]);
    if vk != nb {
      ChildUnder(sh, l, tk, e);
      if e == 0 {
        if !Under(sh, k, l) { ChildOrder(sh, tk, l, k); }
      } else {
        ChildUnique(sh, c, l, tk, 1);
      }
    }
  }

  /** When nothing is left to look at, the candidate is the smallest stored size that fits. */
  lemma CoverDone(sh: Shape, nb: nat, vk: nat, k: nat)
    requires Cover(sh, nb, vk, 0) && k in sh.depth && k >= nb
    ensures vk != 0 && vk <= k
  {
    assert CoverAt(sh, nb, vk, 0, k);
  }
}

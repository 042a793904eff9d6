/**
 * Mounting one more file system, and an example of a forest in which a printed path does
 * not lead back.
 */
module Mounting {
  import opened Wrappers
  import opened Paths
  import opened Namespace

  /** The covering part of Mount: root r of a new file system put over directory c. */
  function MountedAt(w: World, c: VNodeId, r: VNodeId): World {
    w.(coveredBy := n => if n == c then Some(r) else w.coveredBy(n),
       covers := n => if n == r then Some(c) else w.covers(n))
  }

  /** The name space while the file system with these directories is not mounted. */
  function Without(w: World, added: set<VNodeId>): World {
    w.(lookup := (n, s) => if n in added then NoEntry(ENOENT) else w.lookup(n, s))
  }

  /** The directories `added` are a file system of their own, with root r and no mounts. */
  ghost predicate NewTree(w: World, depth: VNodeId -> nat, dirs: set<VNodeId>, added: set<VNodeId>, r: VNodeId) {
    && r in added && added !! dirs
    && w.fsRoot(r) == r && w.lookup(r, "..") == Found(r, Directory) && w.name(r, r) == Ok(".")
    && (forall d {:trigger w.fsRoot(d)} :: d in added && d != r ==> w.fsRoot(d) != d && Hangs(w, depth, added, d))
    && (forall d {:trigger w.covers(d)} :: d in added ==> w.covers(d).None?)
    && (forall d {:trigger w.coveredBy(d)} :: d in added ==> w.coveredBy(d).None?)
    && (forall t, s {:trigger w.lookup(t, s)} :: t in added ==> EntryOk(w, added, t, s) && StaysIn(w, dirs, t, s))
  }

  ghost predicate StaysIn(w: World, dirs: set<VNodeId>, t: VNodeId, s: string) {
    w.lookup(t, s).Found? ==> w.lookup(t, s).node !in dirs
  }

  ghost predicate CanMount(w: World, depth: VNodeId -> nat, dirs: set<VNodeId>, added: set<VNodeId>, c: VNodeId, r: VNodeId) {
    && Forest(Without(w, added), depth, dirs) && NewTree(w, depth, dirs, added, r)
    && c in dirs && w.fsRoot(c) != c && w.coveredBy(c).None? && depth(c) < depth(r)
    && (forall t, s {:trigger w.lookup(t, s)} :: t in dirs ==> StaysIn(w, added, t, s))
  }

  lemma OldPlaced(w: World, depth: VNodeId -> nat, dirs: set<VNodeId>, added: set<VNodeId>, c: VNodeId, r: VNodeId, d: VNodeId)
    requires CanMount(w, depth, dirs, added, c, r) && d in dirs
    ensures Situated(MountedAt(w, c, r), depth, dirs + added, d)
  {
    var w0 := Without(w, added);
    assert Situated(w0, depth, dirs, d);
    assert w0.lookup(d, "..") == w.lookup(d, "..");
    RootTop(w0, depth, dirs);
    if w0.coveredBy(d).Some? { assert Situated(w0, depth, dirs, w0.coveredBy(d).value); }
    if w0.lookup(d, "..").Found? && w0.lookup(d, "..").node in dirs {
      assert forall s :: w0.lookup(w0.lookup(d, "..").node, s) == w.lookup(w0.lookup(d, "..").node, s);
    }
  }

  lemma NewPlaced(w: World, depth: VNodeId -> nat, dirs: set<VNodeId>, added: set<VNodeId>, c: VNodeId, r: VNodeId, d: VNodeId)
    requires CanMount(w, depth, dirs, added, c, r) && d in added
    ensures Situated(MountedAt(w, c, r), depth, dirs + added, d)
  {
    RootTop(Without(w, added), depth, dirs);
    assert w.fsRoot(d) == w.fsRoot(d);
    assert w.covers(d).None? && w.coveredBy(d).None?;
  }

  lemma MountedEntry(w: World, depth: VNodeId -> nat, dirs: set<VNodeId>, added: set<VNodeId>, c: VNodeId, r: VNodeId, t: VNodeId, s: string)
    requires CanMount(w, depth, dirs, added, c, r)
    ensures EntryOk(MountedAt(w, c, r), dirs + added, t, s)
  {
    var w0 := Without(w, added);
    assert EntryOk(w0, dirs, t, s);
    assert w0.lookup(t, s) == w0.lookup(t, s);
    if w.lookup(t, s).Found? {
      var n := w.lookup(t, s).node;
      if t in added {
        assert EntryOk(w, added, t, s) && StaysIn(w, dirs, t, s);
      } else {
        assert t in dirs && StaysIn(w, added, t, s);
        assert n in dirs ==> w0.lookup(n, "..") == w.lookup(n, "..");
      }
    }
  }

  lemma MountedRises(w: World, depth: VNodeId -> nat, dirs: set<VNodeId>, added: set<VNodeId>, c: VNodeId, r: VNodeId, n: VNodeId)
    requires CanMount(w, depth, dirs, added, c, r)
    ensures Rises(MountedAt(w, c, r), depth, n) && depth(Below(MountedAt(w, c, r), n)) <= depth(n)
  {
    var w0 := Without(w, added);
    assert w0.covers(n) == w.covers(n);
    if n in added {
      assert w.fsRoot(n) == w.fsRoot(n);
      if n == r { assert CString(".") == "."; }
    } else {
      assert w0.lookup(n, "..") == w.lookup(n, "..");
      assert Rises(w0, depth, n);
    }
  }

  /** Mounting on an uncovered directory that is no mounted root keeps the name space a forest. */
  lemma MountKeepsForest(w: World, depth: VNodeId -> nat, dirs: set<VNodeId>, added: set<VNodeId>, c: VNodeId, r: VNodeId)
    requires CanMount(w, depth, dirs, added, c, r)
    ensures Forest(MountedAt(w, c, r), depth, dirs + added)
  {
    hide Situated, EntryOk, Rises, Below, CanMount;
    var w' := MountedAt(w, c, r);
    forall n ensures Rises(w', depth, n) && depth(Below(w', n)) <= depth(n) { MountedRises(w, depth, dirs, added, c, r, n); }
    forall d | d in dirs + added ensures Situated(w', depth, dirs + added, d) {
      if d in dirs { OldPlaced(w, depth, dirs, added, c, r, d); } else { NewPlaced(w, depth, dirs, added, c, r, d); }
    }
    forall t, s ensures EntryOk(w', dirs + added, t, s) { MountedEntry(w, depth, dirs, added, c, r, t, s); }
    MountedOnly(w, depth, dirs, added, c, r);
  }

  lemma MountedOnly(w: World, depth: VNodeId -> nat, dirs: set<VNodeId>, added: set<VNodeId>, c: VNodeId, r: VNodeId)
    requires CanMount(w, depth, dirs, added, c, r)
    ensures w.root in dirs
    ensures forall n {:trigger MountedAt(w, c, r).coveredBy(n)} :: MountedAt(w, c, r).coveredBy(n).Some? ==> n in dirs + added
    ensures forall n {:trigger MountedAt(w, c, r).covers(n)} :: w.fsRoot(n) == n && MountedAt(w, c, r).covers(n).Some? ==> n in dirs + added
  {
    var w0 := Without(w, added);
    forall n ensures MountedAt(w, c, r).coveredBy(n).Some? ==> n in dirs + added { assert w0.coveredBy(n) == w.coveredBy(n); }
    forall n ensures w.fsRoot(n) == n && MountedAt(w, c, r).covers(n).Some? ==> n in dirs + added { assert w0.covers(n) == w.covers(n); }
  }

  // ---------------------------------------------------------------- an example

  const TOP := VNodeId(0, 1)
  const MNT := VNodeId(0, 2)
  const DISK := VNodeId(1, 1)

  /** A root with one directory "mnt", and the root of a second file system. */
  const TwoTrees: World := World(
    TOP,
    (n, s) =>
      if n == TOP && (s == "." || s == "..") then Found(TOP, Directory)
      else if n == TOP && s == "mnt" then Found(MNT, Directory)
      else if n == MNT && s == "." then Found(MNT, Directory)
      else if n == MNT && s == ".." then Found(TOP, Directory)
      else if n == DISK && (s == "." || s == "..") then Found(DISK, Directory)
      else NoEntry(ENOENT),
    n => Err(EINVAL),
    (p, n) => if p == n then Ok(".") else if p == TOP && n == MNT then Ok("mnt") else Err(ENOENT),
    (n: VNodeId) => VNodeId(n.mountId, 1),
    n => None,
    n => None)

  function Rank(n: VNodeId): nat { if n == TOP then 0 else if n == MNT then 1 else 2 }

  lemma MntName()
    ensures CString("mnt") == "mnt" && CString(".") == "." && IsWord("mnt")
  {
    assert CString("t") == "t" by { assert "t"[1..] == ""; }
    assert CString("nt") == "nt" by { assert "nt"[1..] == "t"; }
    assert "mnt"[1..] == "nt";
    assert "."[1..] == "";
  }

  lemma ExampleCanMount()
    ensures CanMount(TwoTrees, Rank, {TOP, MNT}, {DISK}, MNT, DISK)
  {
    MntName();
    var w := Without(TwoTrees, {DISK});
    assert Hangs(w, Rank, {TOP, MNT}, MNT);
    assert Topmost(w);
    forall n ensures Rises(w, Rank, n) {}
    forall n ensures Rank(Below(w, n)) <= Rank(n) {}
    assert Ranked(w, Rank);
    forall t, s ensures EntryOk(w, {TOP, MNT}, t, s) {}
    assert Situated(w, Rank, {TOP, MNT}, TOP);
    assert Situated(w, Rank, {TOP, MNT}, MNT);
    assert Forest(w, Rank, {TOP, MNT});
    forall t, s | t in {DISK} ensures EntryOk(TwoTrees, {DISK}, t, s) && StaysIn(TwoTrees, {TOP, MNT}, t, s) {}
    forall t, s | t in {TOP, MNT} ensures StaysIn(TwoTrees, {DISK}, t, s) {}
  }

  /** A directory that is mounted on: the path printed for it leads to the root mounted there. */
  lemma CoveredLeadsElsewhere()
    ensures var w := MountedAt(TwoTrees, MNT, DISK);
      && Forest(w, Rank, {TOP, MNT, DISK}) && Ranked(w, Rank)
      && Names(w, Rank, MNT).Ok?
      && Resolve(w, None, Printed(Names(w, Rank, MNT).value), true, 0).result == Ok(DISK)
  {
    var w := MountedAt(TwoTrees, MNT, DISK);
    ExampleCanMount();
    MountKeepsForest(TwoTrees, Rank, {TOP, MNT}, {DISK}, MNT, DISK);
    assert {TOP, MNT} + {DISK} == {TOP, MNT, DISK};
    MntVisible(w);
    RoundTrip(w, Rank, {TOP, MNT, DISK}, MNT, None, true);
  }

  lemma MntVisible(w: World)
    requires w == MountedAt(TwoTrees, MNT, DISK) && Ranked(w, Rank)
    ensures Visible(w, Rank, MNT) && w.coveredBy(MNT) == Some(DISK)
  {
    MntName();
    assert Parent(w, MNT) == Ok((TOP, "mnt"));
    assert Parent(w, TOP) == Ok((TOP, "."));
    assert w.coveredBy(TOP).None?;
    assert Visible(w, Rank, TOP);
  }
}

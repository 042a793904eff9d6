/**
 * The vnode table with its reference counts, and the path operations of the VFS that take
 * and give back references.
 */
module Vfs {
  import opened Wrappers
  import opened Paths
  import opened Namespace
  import opened Mounting

  function Count(t: map<VNodeId, nat>, n: VNodeId): nat {
    if n in t then t[n] else 0
  }

  class VNodeManager {
    /** Reference counts of the vnodes in the table. */
    var vnodes: map<VNodeId, nat>

    ghost predicate Valid()
      reads this
    {
      forall n :: n in vnodes ==> vnodes[n] > 0
    }

    constructor ()
      ensures Valid() && vnodes == map[]
    {
      vnodes := map[];
    }

    method GetVnode(id: VNodeId)
      requires Valid()
      modifies this
      ensures Valid() && id in vnodes && forall n :: Count(vnodes, n) == Count(old(vnodes), n) + (if n == id then 1 else 0)
    {
      if id !in vnodes {
        vnodes := vnodes[id := 0];
      }
      vnodes := vnodes[id := vnodes[id] + 1];
    }

    method ReferenceVnode(id: VNodeId)
      requires Valid() && id in vnodes
      modifies this
      ensures Valid() && forall n :: Count(vnodes, n) == Count(old(vnodes), n) + (if n == id then 1 else 0)
    {
      vnodes := vnodes[id := vnodes[id] + 1];
    }

    /** The vnode leaves the table when its last reference goes. */
    method PutVnode(id: VNodeId)
      requires Valid() && id in vnodes
      modifies this
      ensures Valid() && forall n :: Count(vnodes, n) == Count(old(vnodes), n) - (if n == id then 1 else 0)
    {
      vnodes := vnodes[id := vnodes[id] - 1];
      if vnodes[id] == 0 {
        vnodes := vnodes - {id};
      }
    }
  }

  /** The nodes that mounts refer to are held by them. */
  ghost predicate Pinned(w: World, t: map<VNodeId, nat>) {
    && w.root in t
    && (forall n {:trigger w.covers(n)} :: w.covers(n).Some? ==> w.covers(n).value in t)
    && (forall n {:trigger w.coveredBy(n)} :: w.coveredBy(n).Some? ==> w.coveredBy(n).value in t)
  }

  /** Counts after, given counts before: more by what was lost and by the node handed out. */
  ghost predicate Counted(before: map<VNodeId, nat>, after: map<VNodeId, nat>, lost: multiset<VNodeId>, held: multiset<VNodeId>) {
    forall n {:trigger Count(after, n)} :: Count(after, n) == Count(before, n) + lost[n] + held[n]
  }

  function Handed(r: Result<VNodeId>): multiset<VNodeId> {
    if r.Ok? then multiset{r.value} else multiset{}
  }

  lemma StillPinned(w: World, before: map<VNodeId, nat>, after: map<VNodeId, nat>, lost: multiset<VNodeId>, held: multiset<VNodeId>)
    requires Pinned(w, before) && Counted(before, after, lost, held) && (forall n :: n in before ==> before[n] > 0)
    ensures Pinned(w, after) && forall n :: n in before || n in held ==> n in after
  {
    forall n | n in before || n in held ensures n in after { assert Count(after, n) > 0; }
  }

  lemma Chained(t0: map<VNodeId, nat>, t1: map<VNodeId, nat>, t2: map<VNodeId, nat>,
                lost1: multiset<VNodeId>, lost2: multiset<VNodeId>, held1: multiset<VNodeId>, held2: multiset<VNodeId>)
    requires Counted(t0, t1, lost1, held1) && Counted(t1, t2, lost2, held2)
    ensures Counted(t0, t2, lost1 + lost2, held1 + held2)
  {
    forall n ensures Count(t2, n) == Count(t0, n) + (lost1 + lost2)[n] + (held1 + held2)[n] { assert Count(t1, n) == Count(t0, n) + lost1[n] + held1[n]; }
  }

  lemma NothingHeld(t: map<VNodeId, nat>)
    ensures Counted(t, t, multiset{}, multiset{})
  {}

  lemma PinnedRoot(w: World, t: map<VNodeId, nat>)
    requires Pinned(w, t)
    ensures w.root in t
  {}

  lemma HeldOne(t: map<VNodeId, nat>, t': map<VNodeId, nat>, n: VNodeId)
    requires forall k :: Count(t', k) == Count(t, k) + (if k == n then 1 else 0)
    ensures Counted(t, t', multiset{}, multiset{n})
  {}

  lemma NoMore(path: string, pos: int)
    requires 0 <= pos <= |path| && (pos == |path| || path[pos] != '/')
    ensures pos == |path| <==> Components(path[pos..]) == []
  {}

  lemma WalkNone(w: World, t: VNodeId, lost: multiset<VNodeId>, leafLinks: bool, count: nat)
    requires count < MAX_COUNT
    ensures After(lost, Walk(w, t, [], leafLinks, count)) == Outcome(Ok(t), lost)
  {}

  lemma WalkStart(o: Outcome)
    ensures After(multiset{}, o) == o
  {
    assert multiset{} + o.lost == o.lost;
  }

  lemma WalkMore(w: World, t: VNodeId, cs: seq<string>, c: string, ds: seq<string>, lost: multiset<VNodeId>, leafLinks: bool, count: nat)
    requires count < MAX_COUNT && cs == [c] + ds
    ensures var o := Enter(w, t, c, ds == [], leafLinks, count);
      After(lost, Walk(w, t, cs, leafLinks, count)) ==
        if o.result.Err? then Outcome(o.result, lost + o.lost)
        else After(lost + o.lost, Walk(w, o.result.value, ds, leafLinks, count))
  {
    assert cs[0] == c && cs[1..] == ds;
  }

  lemma EmptyStack()
    ensures Reversed<string>([]) == [] && BufferSize([]) == 4
  {}

  lemma Pushed(stack: seq<string>, c: string)
    ensures Reversed(stack + [c]) == [c] + Reversed(stack)
    ensures BufferSize([c] + Reversed(stack)) == BufferSize(Reversed(stack)) + |c| + 1
  {
    assert (stack + [c])[..|stack|] == stack;
    assert ([c] + Reversed(stack))[1..] == Reversed(stack);
  }

  lemma PinnedBelow(w: World, t: map<VNodeId, nat>, n: VNodeId)
    requires Pinned(w, t) && w.covers(n).Some?
    ensures w.covers(n).value in t
  {}

  /** Names found above, with those already known below. */
  function Extend(r: Result<seq<string>>, cs: seq<string>): Result<seq<string>> {
    if r.Ok? then Ok(r.value + cs) else r
  }

  lemma Together(w: World, depth: VNodeId -> nat, n: VNodeId, cs: seq<string>)
    requires Ranked(w, depth) && cs == []
    ensures Names(w, depth, n) == Extend(Names(w, depth, n), cs)
  {
    if Names(w, depth, n).Ok? { assert Names(w, depth, n).value + cs == Names(w, depth, n).value; }
  }

  /** One step of the climb, as it is seen from node n. */
  lemma NamesStep(w: World, depth: VNodeId -> nat, n: VNodeId)
    requires Ranked(w, depth)
    ensures Parent(w, n).Err? ==> Names(w, depth, n) == Err(Parent(w, n).code)
    ensures Parent(w, n).Ok? && Parent(w, n).value.1 == "." ==> Names(w, depth, n) == Ok([])
    ensures Parent(w, n).Ok? && Parent(w, n).value.1 != "." ==>
      && Names(w, depth, n) == Extend(Names(w, depth, Parent(w, n).value.0), [Parent(w, n).value.1])
      && depth(Parent(w, n).value.0) < depth(n)
  {
    if Parent(w, n).Ok? && Parent(w, n).value.1 != "." { ParentRises(w, depth, n); }
  }

  lemma PushedNames(w: World, depth: VNodeId -> nat, dir: VNodeId, n: VNodeId, p: VNodeId, c: string, cs: seq<string>)
    requires Ranked(w, depth) && Names(w, depth, dir) == Extend(Names(w, depth, n), cs) && Names(w, depth, n) == Extend(Names(w, depth, p), [c])
    ensures Names(w, depth, dir) == Extend(Names(w, depth, p), [c] + cs)
  {
    if Names(w, depth, p).Ok? {
      assert Names(w, depth, p).value + [c] + cs == Names(w, depth, p).value + ([c] + cs);
    }
  }

  lemma MountPinned(w: World, before: map<VNodeId, nat>, t: map<VNodeId, nat>, c: VNodeId, r: VNodeId)
    requires Pinned(w, before) && (forall n :: n in before ==> Count(t, n) >= before[n] > 0) && c in t && r in t
    ensures Pinned(MountedAt(w, c, r), t)
  {
    var w' := MountedAt(w, c, r);
    forall n ensures w'.covers(n).Some? ==> w'.covers(n).value in t { assert n != r ==> w'.covers(n) == w.covers(n); }
    forall n ensures w'.coveredBy(n).Some? ==> w'.coveredBy(n).value in t { assert n != c ==> w'.coveredBy(n) == w.coveredBy(n); }
  }

  class Vfs {
    const nodes: VNodeManager
    var world: World

    ghost predicate Valid()
      reads this, nodes
    {
      nodes.Valid() && Pinned(world, nodes.vnodes)
    }

    constructor (nodes: VNodeManager, world: World)
      requires nodes.Valid() && Pinned(world, nodes.vnodes)
      ensures Valid() && this.nodes == nodes && this.world == world
    {
      this.nodes := nodes;
      this.world := world;
    }

    /** The table holds what it held at `base`, what was lost since, and what is held now. */
    ghost predicate Since(base: map<VNodeId, nat>, lost: multiset<VNodeId>, held: multiset<VNodeId>)
      reads this, nodes
    {
      && nodes.Valid() && Pinned(world, base) && (forall n :: n in base ==> base[n] > 0)
      && Counted(base, nodes.vnodes, lost, held)
    }

    lemma SinceValid(base: map<VNodeId, nat>, lost: multiset<VNodeId>, held: multiset<VNodeId>)
      requires Since(base, lost, held)
      ensures Valid() && forall n :: n in base || n in held ==> n in nodes.vnodes
      ensures Counted(base, nodes.vnodes, lost, held)
    {
      StillPinned(world, base, nodes.vnodes, lost, held);
    }

    lemma SinceStart(base: map<VNodeId, nat>, held: multiset<VNodeId>)
      requires nodes.Valid() && Pinned(world, base) && (forall n :: n in base ==> base[n] > 0) && Counted(base, nodes.vnodes, multiset{}, held)
      ensures Since(base, multiset{}, held)
    {}

    /** A file system's lookup takes a reference on the node it finds. */
    method Lookup(n: VNodeId, c: string, ghost base: map<VNodeId, nat>, ghost lost: multiset<VNodeId>, ghost held: multiset<VNodeId>)
      returns (l: Looked)
      requires Since(base, lost, held)
      modifies nodes
      ensures l == world.lookup(n, c) && Since(base, lost, if l.Found? then held + multiset{l.node} else held)
    {
      l := world.lookup(n, c);
      if l.Found? {
        nodes.GetVnode(l.node);
      }
    }

    /** Trading the reference on one node for one on another that a mount holds. */
    method Trade(n: VNodeId, to: VNodeId, ghost base: map<VNodeId, nat>, ghost lost: multiset<VNodeId>, ghost held: multiset<VNodeId>)
      requires Since(base, lost, held + multiset{n}) && to in base
      modifies nodes
      ensures Since(base, lost, held + multiset{to})
    {
      SinceValid(base, lost, held + multiset{n});
      nodes.ReferenceVnode(to);
      assert Count(nodes.vnodes, n) > 0;
      nodes.PutVnode(n);
    }

    method Release(n: VNodeId, ghost base: map<VNodeId, nat>, ghost lost: multiset<VNodeId>, ghost held: multiset<VNodeId>)
      requires Since(base, lost, held + multiset{n})
      modifies nodes
      ensures Since(base, lost, held)
    {
      SinceValid(base, lost, held + multiset{n});
      nodes.PutVnode(n);
    }

    lemma Lose(base: map<VNodeId, nat>, lost: multiset<VNodeId>, t: VNodeId, n: VNodeId)
      requires Since(base, lost, multiset{t} + multiset{n})
      ensures Since(base, lost + multiset{n}, multiset{t}) && Since(base, lost + multiset{n}, multiset{} + multiset{t})
    {
      forall k ensures Count(nodes.vnodes, k) == Count(base, k) + (lost + multiset{n})[k] + multiset{t}[k] {}
    }

    /** Following link n from node t: t stays held, the reference on n is lost. */
    method FollowLink(t: VNodeId, n: VNodeId, leafLinks: bool, count: nat, ghost base: map<VNodeId, nat>, ghost lost: multiset<VNodeId>)
      returns (r: Result<VNodeId>)
      requires Since(base, lost, multiset{t} + multiset{n}) && count < MAX_COUNT
      modifies nodes
      ensures r == Follow(world, t, n, leafLinks, count).result
      ensures match world.readlink(n)
        case Err(e) => r == Err(e)
        case Ok(text) =>
          var x := Resolve(world, Some(t), CString(text), leafLinks, count + 1).result;
          r == if x.Err? then x else Ok(if world.coveredBy(x.value).Some? then world.coveredBy(x.value).value else x.value)
      ensures Since(base, lost + Follow(world, t, n, leafLinks, count).lost, Handed(r))
      decreases MAX_COUNT - count, 0, 0
    {
      hide Counted, Pinned, Resolve;
      ghost var lost1 := lost + multiset{n};
      Lose(base, lost, t, n);
      var text := world.readlink(n);
      if text.Err? {
        Release(t, base, lost1, multiset{});
        return Err(text.code);
      }
      SinceValid(base, lost1, multiset{t});
      ghost var before := nodes.vnodes;
      var sub := RelativePathToVnode(Some(t), CString(text.value), leafLinks, count + 1);
      ghost var subLost := Resolve(world, Some(t), CString(text.value), leafLinks, count + 1).lost;
      Chained(base, before, nodes.vnodes, lost1, subLost, multiset{t}, Handed(sub));
      assert lost1 + subLost == lost + (multiset{n} + subLost);
      if sub.Err? {
        assert multiset{t} + Handed(sub) == multiset{} + multiset{t};
        Release(t, base, lost1 + subLost, multiset{});
        return Err(sub.code);
      }
      r := CrossMount(t, sub.value, base, lost1 + subLost);
    }

    /** ".." at the root of a mounted file system starts from the directory it covers. */
    method ClimbMount(t: VNodeId, c: string, ghost base: map<VNodeId, nat>, ghost lost: multiset<VNodeId>) returns (tmpnode: VNodeId)
      requires Since(base, lost, multiset{t})
      modifies nodes
      ensures tmpnode == Base(world, t, c) && Since(base, lost, multiset{tmpnode})
    {
      hide Counted;
      tmpnode := t;
      assert multiset{} + multiset{t} == multiset{t};
      if c == ".." && world.fsRoot(t) == t && world.covers(t).Some? {
        tmpnode := world.covers(t).value;
        Trade(t, tmpnode, base, lost, multiset{});
        assert multiset{} + multiset{tmpnode} == multiset{tmpnode};
      }
    }

    /** One turn of the loop of RelativePathToVnode: from node t, which is held, by component c. */
    method EnterComponent(t: VNodeId, c: string, last: bool, leafLinks: bool, count: nat,
                          ghost base: map<VNodeId, nat>, ghost lost: multiset<VNodeId>)
      returns (r: Result<VNodeId>)
      requires Since(base, lost, multiset{t}) && count < MAX_COUNT
      modifies nodes
      ensures r == Enter(world, t, c, last, leafLinks, count).result
      ensures Since(base, lost + Enter(world, t, c, last, leafLinks, count).lost, Handed(r))
      decreases MAX_COUNT - count, 0, 1
    {
      hide Counted, Follow, Since, Base, Above;
      var tmpnode := ClimbMount(t, c, base, lost);
      assert multiset{} + multiset{tmpnode} == multiset{tmpnode};
      assert lost + multiset{} == lost;
      var l := Lookup(tmpnode, c, base, lost, multiset{tmpnode});
      if l.NoEntry? {
        Release(tmpnode, base, lost, multiset{});
        r := Err(l.error);
      } else if l.kind == Regular && !last {
        Lose(base, lost, tmpnode, l.node);
        Release(tmpnode, base, lost + multiset{l.node}, multiset{});
        r := Err(ENOTDIR);
      } else if l.kind == Link && (leafLinks || !last) {
        r := FollowLink(tmpnode, l.node, leafLinks, count, base, lost);
      } else {
        r := CrossMount(tmpnode, l.node, base, lost);
      }
    }

    /** The end of a turn: up to what is mounted on the next node, and the last one given back. */
    method CrossMount(tmpnode: VNodeId, n: VNodeId, ghost base: map<VNodeId, nat>, ghost lost: multiset<VNodeId>)
      returns (r: Result<VNodeId>)
      requires Since(base, lost, multiset{tmpnode} + multiset{n})
      modifies nodes
      ensures r == Ok(Above(world, n)) && Since(base, lost, multiset{Above(world, n)})
    {
      var nextVnode := n;
      if world.coveredBy(nextVnode).Some? {
        var prevNode := nextVnode;
        nextVnode := world.coveredBy(nextVnode).value;
        Trade(prevNode, nextVnode, base, lost, multiset{tmpnode});
      }
      assert multiset{tmpnode} + multiset{nextVnode} == multiset{nextVnode} + multiset{tmpnode};
      Release(tmpnode, base, lost, multiset{nextVnode});
      r := Ok(nextVnode);
    }

    /**
     * RelativePathToVnode: the node the path leads to, with one reference taken on it; every
     * other reference taken on the way is given back, except those the outcome calls lost.
     * The path is cut into components in a copy, a NUL put after each.
     */
    method RelativePathToVnode(start: Option<VNodeId>, path: string, leafLinks: bool, count: nat) returns (r: Result<VNodeId>)
      requires Valid() && count <= MAX_COUNT && '\0' !in path && (start.Some? ==> start.value in nodes.vnodes)
      modifies nodes
      ensures Valid() && r == Resolve(world, start, path, leafLinks, count).result
      ensures Counted(old(nodes.vnodes), nodes.vnodes, Resolve(world, start, path, leafLinks, count).lost, Handed(r))
      decreases MAX_COUNT - count, 1
    {
      hide Counted, Pinned, Walk, Enter, Components, Since, After;
      ghost var base := nodes.vnodes;
      NothingHeld(base);
      var clone := new char[|path| + 1](i requires 0 <= i <= |path| => if i < |path| then path[i] else '\0');
      assert path[0..] == path;
      assert clone[..] == path + ['\0'];
      CopyUncut(clone, path);
      var pos := 0;
      var tmpnode: VNodeId;
      if clone[0] == '/' {
        tmpnode := world.root;
        UncutAt(clone, path, 0, 1);
        ComponentsStrip(path, 1);
        pos := SkipSlashes(clone, path, 1);
        PinnedRoot(world, base);
      } else if start.None? {
        return Err(EINVAL);
      } else {
        tmpnode := start.value;
      }
      if count == MAX_COUNT {
        return Err(ELOOP);
      }
      ghost var from, lost := tmpnode, multiset{};
      nodes.ReferenceVnode(tmpnode);
      HeldOne(base, nodes.vnodes, tmpnode);
      SinceStart(base, multiset{tmpnode});
      WalkStart(Walk(world, from, Components(path), leafLinks, count));
      while clone[pos] != '\0'
        invariant count < MAX_COUNT && Uncut(clone, path, pos) && (pos == |path| || path[pos] != '/')
        invariant Since(base, lost, multiset{tmpnode})
        invariant Walk(world, from, Components(path), leafLinks, count) == After(lost, Walk(world, tmpnode, Components(path[pos..]), leafLinks, count))
        decreases |path| - pos
      {
        UncutAt(clone, path, pos, pos);
        ghost var rest := Components(path[pos..]);
        var c, next := CutComponent(clone, path, pos);
        UncutAt(clone, path, next, next);
        NoMore(path, next);
        WalkMore(world, tmpnode, rest, c, Components(path[next..]), lost, leafLinks, count);
        ghost var o := Enter(world, tmpnode, c, next == |path|, leafLinks, count);
        var step := EnterComponent(tmpnode, c, clone[next] == '\0', leafLinks, count, base, lost);
        lost := lost + o.lost;
        if step.Err? {
          SinceValid(base, lost, Handed(step));
          return step;
        }
        tmpnode := step.value;
        pos := next;
      }
      UncutAt(clone, path, pos, pos);
      NoMore(path, pos);
      WalkNone(world, tmpnode, lost, leafLinks, count);
      SinceValid(base, lost, multiset{tmpnode});
      r := Ok(tmpnode);
    }

    /**
     * GetDirPathFromVnode: the path of a directory, in a buffer of the size computed while
     * climbing; whatever happens, every reference taken is given back.
     */
    method GetDirPathFromVnode(dir: VNodeId, ghost depth: VNodeId -> nat) returns (r: Result<array<char>>)
      requires Valid() && dir in nodes.vnodes && Ranked(world, depth)
      modifies nodes
      ensures Valid() && forall n :: Count(nodes.vnodes, n) == Count(old(nodes.vnodes), n)
      ensures match Names(world, depth, dir)
        case Err(e) => r == Err(e)
        case Ok(ns) => r.Ok? && r.value.Length == BufferSize(ns) && BufferHolds(r.value, Printed(ns))
    {
      hide Pinned, Ranked, Names, Printed, BufferSize, Reversed;
      ghost var base := nodes.vnodes;
      var node := dir;
      nodes.ReferenceVnode(node);
      HeldOne(base, nodes.vnodes, node);
      var pathStack: seq<string> := [];
      var pathLen := 2;
      EmptyStack();
      Together(world, depth, dir, []);
      while true
        invariant Since(base, multiset{}, multiset{node})
        invariant pathLen + 2 == BufferSize(Reversed(pathStack))
        invariant Names(world, depth, dir) == Extend(Names(world, depth, node), Reversed(pathStack))
        decreases depth(node)
      {
        hide Counted;
        ghost var at := node;
        assert multiset{} + multiset{node} == multiset{node};
        if world.fsRoot(node) == node && world.covers(node).Some? {
          var coveredVNode := world.covers(node).value;
          PinnedBelow(world, base, node);
          Trade(node, coveredVNode, base, multiset{}, multiset{});
          node := coveredVNode;
        }
        assert multiset{} + multiset{node} == multiset{node};
        var l := Lookup(node, "..", base, multiset{}, multiset{node});
        NamesStep(world, depth, at);
        if l.NoEntry? {
          Release(node, base, multiset{}, multiset{});
          Settled(base);
          return Err(l.error);
        }
        var tmpnode := l.node;
        var text := world.name(tmpnode, node);
        assert multiset{node} + multiset{tmpnode} == multiset{tmpnode} + multiset{node};
        assert multiset{} + multiset{tmpnode} == multiset{tmpnode};
        if text.Err? {
          Release(node, base, multiset{}, multiset{tmpnode});
          Release(tmpnode, base, multiset{}, multiset{});
          Settled(base);
          return Err(text.code);
        }
        var dirName := CString(text.value);
        Release(node, base, multiset{}, multiset{tmpnode});
        if dirName == "." {
          Release(tmpnode, base, multiset{}, multiset{});
          Settled(base);
          pathLen := pathLen + 2;
          assert [] + Reversed(pathStack) == Reversed(pathStack);
          assert Names(world, depth, dir) == Ok(Reversed(pathStack));
          break;
        }
        Pushed(pathStack, dirName);
        PushedNames(world, depth, dir, at, tmpnode, dirName, Reversed(pathStack));
        pathStack := pathStack + [dirName];
        pathLen := pathLen + |dirName| + 1;
        node := tmpnode;
      }
      var path := PrintNames(pathStack, pathLen);
      r := Ok(path);
    }

    lemma Settled(base: map<VNodeId, nat>)
      requires Since(base, multiset{}, multiset{})
      ensures Valid() && forall n :: Count(nodes.vnodes, n) == Count(base, n)
    {
      SinceValid(base, multiset{}, multiset{});
    }

    /**
     * The covering part of Mount: the mount point is resolved, and the reference on it kept;
     * the file system takes one on its root.  References lost on the way are those of the
     * resolution.
     */
    method Mount(mountpoint: string, root: VNodeId) returns (code: int)
      requires Valid() && '\0' !in mountpoint
      modifies this, nodes
      ensures Valid()
      ensures var o := Resolve(old(world), None, mountpoint, true, 0);
        && (o.result.Err? ==> code == o.result.code && world == old(world) && Counted(old(nodes.vnodes), nodes.vnodes, o.lost, multiset{}))
        && (o.result.Ok? ==> code == 0 && world == MountedAt(old(world), o.result.value, root)
                             && Counted(old(nodes.vnodes), nodes.vnodes, o.lost, multiset{o.result.value, root}))
    {
      hide Resolve;
      var r := RelativePathToVnode(None, mountpoint, true, 0);
      if r.Err? {
        return r.code;
      }
      var mntnode := r.value;
      ghost var before := nodes.vnodes;
      nodes.GetVnode(root);
      assert Count(nodes.vnodes, mntnode) > 0;
      MountPinned(world, before, nodes.vnodes, mntnode, root);
      world := MountedAt(world, mntnode, root);
      code := 0;
    }
  }
}

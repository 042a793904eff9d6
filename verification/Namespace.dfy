/**
 * The name space: file systems mounted on one another, and what resolving and printing
 * a path mean.  The file systems themselves are given by their operations.
 */
module Namespace {
  import opened Wrappers
  import opened Paths

  datatype Result<T> = Ok(value: T) | Err(code: int)

  const ENOENT := -2
  const EINVAL := -22
  const ENOTDIR := -20
  const ELOOP := -40
  const MAX_COUNT := 256

  datatype VNodeId = VNodeId(mountId: nat, id: nat)
  datatype Kind = Directory | Regular | Link | Other
  datatype Looked = NoEntry(error: int) | Found(node: VNodeId, kind: Kind)

  /** RootNode; the operations of each node's file system; and the mounts, both ways. */
  datatype World = World(
    root: VNodeId,
    lookup: (VNodeId, string) -> Looked,
    readlink: VNodeId -> Result<string>,
    name: (VNodeId, VNodeId) -> Result<string>,
    fsRoot: VNodeId -> VNodeId,
    covers: VNodeId -> Option<VNodeId>,
    coveredBy: VNodeId -> Option<VNodeId>)

  /** From the root of a mounted file system down to the node it covers. */
  function Below(w: World, n: VNodeId): VNodeId {
    if w.fsRoot(n) == n && w.covers(n).Some? then w.covers(n).value else n
  }

  /** From a covered node up to the root of the file system mounted on it. */
  function Above(w: World, n: VNodeId): VNodeId {
    if w.coveredBy(n).Some? then w.coveredBy(n).value else n
  }

  /** Where a component is looked up: ".." of a mounted root is that of the covered node. */
  function Base(w: World, t: VNodeId, c: string): VNodeId {
    if c == ".." then Below(w, t) else t
  }

  /** What a resolution comes to, and the nodes whose references it does not give back. */
  datatype Outcome = Outcome(result: Result<VNodeId>, lost: multiset<VNodeId>)

  function After(lost: multiset<VNodeId>, o: Outcome): Outcome {
    Outcome(o.result, lost + o.lost)
  }

  function Failed(code: int, lost: multiset<VNodeId>): Outcome {
    Outcome(Err(code), lost)
  }

  /** Resolving a path from node `start`, with `count` links followed on the way here. */
  function Resolve(w: World, start: Option<VNodeId>, path: string, leafLinks: bool, count: nat): (o: Outcome)
    requires count <= MAX_COUNT
    decreases MAX_COUNT - count, 2, 0
  {
    if !Absolute(path) && start.None? then Failed(EINVAL, multiset{})
    else if count == MAX_COUNT then Failed(ELOOP, multiset{})
    else Walk(w, if Absolute(path) then w.root else start.value, Components(path), leafLinks, count)
  }

  /** Walking a list of components from node t. */
  function Walk(w: World, t: VNodeId, cs: seq<string>, leafLinks: bool, count: nat): (o: Outcome)
    requires count < MAX_COUNT
    decreases MAX_COUNT - count, 1, |cs|
  {
    if cs == [] then Outcome(Ok(t), multiset{})
    else
      var o := Enter(w, t, cs[0], |cs| == 1, leafLinks, count);
      if o.result.Err? then o
      else After(o.lost, Walk(w, o.result.value, cs[1..], leafLinks, count))
  }

  /** One component: look it up, follow a link, go up to what is mounted there. */
  function Enter(w: World, t: VNodeId, c: string, last: bool, leafLinks: bool, count: nat): (o: Outcome)
    requires count < MAX_COUNT
    decreases MAX_COUNT - count, 1, 0
  {
    var b := Base(w, t, c);
    match w.lookup(b, c)
    case NoEntry(e) => Failed(e, multiset{})
    case Found(n, kind) =>
      if kind == Regular && !last then Failed(ENOTDIR, multiset{n})
      else if kind == Link && (leafLinks || !last) then
        Follow(w, b, n, leafLinks, count)
      else Outcome(Ok(Above(w, n)), multiset{})
  }

  /** Following link n in directory b: the reference on the link is lost. */
  function Follow(w: World, b: VNodeId, n: VNodeId, leafLinks: bool, count: nat): (o: Outcome)
    requires count < MAX_COUNT
    decreases MAX_COUNT - count, 0, 0
  {
    match w.readlink(n)
    case Err(e) => Failed(e, multiset{n})
    case Ok(text) =>
      var o := Resolve(w, Some(b), CString(text), leafLinks, count + 1);
      if o.result.Err? then After(multiset{n}, o)
      else Outcome(Ok(Above(w, o.result.value)), multiset{n} + o.lost)
  }

  // ---------------------------------------------------------------- composition

  /** The entry that component c of node t names. */
  function EntryOf(w: World, t: VNodeId, c: string): Looked {
    w.lookup(Base(w, t, c), c)
  }

  /** The walk of cs from t gets as far as its last component, the entry of a regular file. */
  ghost predicate EndsInFile(w: World, t: VNodeId, cs: seq<string>, count: nat)
    requires count < MAX_COUNT
    decreases |cs|
  {
    if cs == [] then false
    else if |cs| == 1 then EntryOf(w, t, cs[0]).Found? && EntryOf(w, t, cs[0]).kind == Regular
    else
      var o := Enter(w, t, cs[0], false, true, count);
      o.result.Ok? && EndsInFile(w, o.result.value, cs[1..], count)
  }

  /** Walking on from where a walk ended. */
  function Then(w: World, o: Outcome, cs: seq<string>, count: nat): Outcome
    requires count < MAX_COUNT
  {
    if o.result.Err? then o else After(o.lost, Walk(w, o.result.value, cs, true, count))
  }

  lemma EnterSame(w: World, t: VNodeId, c: string, count: nat)
    requires count < MAX_COUNT
    requires !(EntryOf(w, t, c).Found? && EntryOf(w, t, c).kind == Regular)
    ensures Enter(w, t, c, true, true, count) == Enter(w, t, c, false, true, count)
  {}

  lemma {:induction false} WalkSplit(w: World, t: VNodeId, cs: seq<string>, ds: seq<string>, count: nat)
    requires count < MAX_COUNT && (ds != [] ==> !EndsInFile(w, t, cs, count))
    ensures Walk(w, t, cs + ds, true, count) == Then(w, Walk(w, t, cs, true, count), ds, count)
    decreases |cs|
  {
    if cs == [] {
      assert cs + ds == ds;
    } else if ds == [] {
      assert cs + ds == cs;
    } else {
      var all := cs + ds;
      assert all[0] == cs[0] && all[1..] == cs[1..] + ds;
      if |cs| == 1 {
        EnterSame(w, t, cs[0], count);
        var o := Enter(w, t, cs[0], false, true, count);
        if o.result.Ok? { WalkSplit(w, o.result.value, [], ds, count); }
      } else {
        var o := Enter(w, t, cs[0], false, true, count);
        if o.result.Ok? {
          WalkSplit(w, o.result.value, cs[1..], ds, count);
        }
      }
    }
  }

  /** What the first of two joined paths resolves to when it ends in a regular file. */
  lemma {:induction false} FileSplit(w: World, t: VNodeId, cs: seq<string>, ds: seq<string>, count: nat)
    requires count < MAX_COUNT && ds != [] && EndsInFile(w, t, cs, count)
    ensures Walk(w, t, cs + ds, true, count).result == Err(ENOTDIR)
    ensures Walk(w, t, cs, true, count).result.Ok?
    decreases |cs|
  {
    var all := cs + ds;
    assert all[0] == cs[0] && all[1..] == cs[1..] + ds;
    if |cs| > 1 {
      var o := Enter(w, t, cs[0], false, true, count);
      FileSplit(w, o.result.value, cs[1..], ds, count);
    }
  }

  /**
   * Resolution composes: resolving p/q is resolving q from where p leads, exactly unless p
   * ends in a regular file that has more path after it, and q from that file would not fail
   * with ENOTDIR as p/q does.
   */
  lemma Composition(w: World, start: Option<VNodeId>, p: string, q: string)
    requires p != "" && !Absolute(q)
    ensures var whole, first := Resolve(w, start, p + "/" + q, true, 0).result, Resolve(w, start, p, true, 0).result;
      var second := if first.Err? then first else Resolve(w, Some(first.value), q, true, 0).result;
      var t := if Absolute(p) then w.root else if start.Some? then start.value else w.root;
      var fileInside := (Absolute(p) || start.Some?) && Components(q) != [] && EndsInFile(w, t, Components(p), 0);
      && (!fileInside ==> whole == second)
      && (fileInside ==> whole == Err(ENOTDIR) && first.Ok?)
      && (whole == second <==> !fileInside || second == Err(ENOTDIR))
  {
    ComponentsJoin(p, q);
    if Absolute(p) || start.Some? {
      var t := if Absolute(p) then w.root else start.value;
      if Components(q) != [] && EndsInFile(w, t, Components(p), 0) {
        FileSplit(w, t, Components(p), Components(q), 0);
      } else {
        WalkSplit(w, t, Components(p), Components(q), 0);
      }
    }
  }

  // ---------------------------------------------------------------- references not given back

  /** The walk follows no link and meets no regular file before its last component. */
  ghost predicate Plain(w: World, t: VNodeId, cs: seq<string>, leafLinks: bool)
    decreases |cs|
  {
    cs == [] ||
    match EntryOf(w, t, cs[0])
    case NoEntry(_) => true
    case Found(n, kind) =>
      && !(kind == Regular && |cs| > 1)
      && !(kind == Link && (leafLinks || |cs| > 1))
      && Plain(w, Above(w, n), cs[1..], leafLinks)
  }

  /** A resolution gives back all it took exactly if it is plain. */
  lemma {:induction false} NothingLost(w: World, t: VNodeId, cs: seq<string>, leafLinks: bool, count: nat)
    requires count < MAX_COUNT
    ensures Plain(w, t, cs, leafLinks) <==> Walk(w, t, cs, leafLinks, count).lost == multiset{}
    decreases |cs|
  {
    if cs != [] {
      var o := Enter(w, t, cs[0], |cs| == 1, leafLinks, count);
      match EntryOf(w, t, cs[0])
      case NoEntry(_) =>
      case Found(n, kind) =>
        if (kind == Regular && |cs| > 1) || (kind == Link && (leafLinks || |cs| > 1)) {
          if kind == Link { assert n in Follow(w, Base(w, t, cs[0]), n, leafLinks, count).lost; }
          assert n in o.lost;
          assert n in Walk(w, t, cs, leafLinks, count).lost;
        } else {
          NothingLost(w, Above(w, n), cs[1..], leafLinks, count);
        }
    }
  }

  // ---------------------------------------------------------------- printing

  /** Climbing from any node gets nearer the top until a node is called ".". */
  ghost predicate Ranked(w: World, depth: VNodeId -> nat) {
    && (forall n {:trigger w.covers(n)} :: depth(Below(w, n)) <= depth(n))
    && (forall n {:trigger w.lookup(n, "..")} :: Rises(w, depth, n))
  }

  ghost predicate Rises(w: World, depth: VNodeId -> nat, n: VNodeId) {
    match w.lookup(n, "..")
    case NoEntry(_) => true
    case Found(p, _) => w.name(p, n).Ok? && CString(w.name(p, n).value) != "." ==> depth(p) < depth(n)
  }

  /** One step up: the parent and the name that it has for us. */
  function Parent(w: World, n: VNodeId): (r: Result<(VNodeId, string)>) {
    var d := Below(w, n);
    match w.lookup(d, "..")
    case NoEntry(e) => Err(e)
    case Found(p, _) =>
      match w.name(p, d)
      case Err(e) => Err(e)
      case Ok(text) => Ok((p, CString(text)))
  }

  lemma ParentRises(w: World, depth: VNodeId -> nat, n: VNodeId)
    requires Ranked(w, depth) && Parent(w, n).Ok? && Parent(w, n).value.1 != "."
    ensures depth(Parent(w, n).value.0) < depth(n)
  {
    var d := Below(w, n);
    assert w.covers(n) == w.covers(n);
    assert Rises(w, depth, d);
  }

  /** The names from the top down to n. */
  ghost function Names(w: World, depth: VNodeId -> nat, n: VNodeId): Result<seq<string>>
    requires Ranked(w, depth)
    decreases depth(n)
  {
    match Parent(w, n)
    case Err(e) => Err(e)
    case Ok(pair) =>
      if pair.1 == "." then Ok([])
      else
        ParentRises(w, depth, n);
        match Names(w, depth, pair.0)
        case Err(e) => Err(e)
        case Ok(ns) => Ok(ns + [pair.1])
  }

  // ---------------------------------------------------------------- a forest of directories

  /** d hangs in its own file system: its parent knows it by a proper name, and it knows its parent. */
  ghost predicate Hangs(w: World, depth: VNodeId -> nat, dirs: set<VNodeId>, d: VNodeId) {
    match w.lookup(d, "..")
    case NoEntry(_) => false
    case Found(p, kind) =>
      && kind == Directory && p in dirs && depth(p) < depth(d)
      && w.name(p, d).Ok?
      && var c := CString(w.name(p, d).value);
      && IsWord(c) && c != "." && c != ".." && w.lookup(p, c) == Found(d, Directory)
  }

  /** d is the root of a file system mounted on a directory that is no such root. */
  ghost predicate MountedOn(w: World, depth: VNodeId -> nat, dirs: set<VNodeId>, d: VNodeId) {
    && w.covers(d).Some? && w.coveredBy(d).None?
    && var c := w.covers(d).value;
    && c in dirs && w.coveredBy(c) == Some(d) && w.fsRoot(c) != c && depth(c) < depth(d)
  }

  ghost predicate Topmost(w: World) {
    var r := w.root;
    && w.fsRoot(r) == r && w.covers(r).None? && w.coveredBy(r).None?
    && w.lookup(r, "..") == Found(r, Directory) && w.name(r, r) == Ok(".")
  }

  ghost predicate Situated(w: World, depth: VNodeId -> nat, dirs: set<VNodeId>, d: VNodeId) {
    && (if d == w.root then Topmost(w) else if w.fsRoot(d) == d then MountedOn(w, depth, dirs, d) else Hangs(w, depth, dirs, d))
    && (w.coveredBy(d).Some? ==>
          var r := w.coveredBy(d).value; r in dirs && w.fsRoot(r) == r && r != w.root && w.covers(r) == Some(d))
  }

  /** An entry of directory t that is a directory: t itself, its parent, or one that hangs in t. */
  ghost predicate EntryOk(w: World, dirs: set<VNodeId>, t: VNodeId, c: string) {
    match w.lookup(t, c)
    case NoEntry(_) => true
    case Found(n, kind) =>
      && t in dirs && (kind == Directory <==> n in dirs)
      && (n in dirs && c != ".." ==> n == t || (w.fsRoot(n) != n && w.lookup(n, "..") == Found(t, Directory)))
  }

  /** File systems mounted on one another, none stacked on a mounted root. */
  ghost predicate Forest(w: World, depth: VNodeId -> nat, dirs: set<VNodeId>) {
    && Ranked(w, depth) && w.root in dirs
    && (forall d {:trigger Situated(w, depth, dirs, d)} :: d in dirs ==> Situated(w, depth, dirs, d))
    && (forall t, c {:trigger w.lookup(t, c)} :: EntryOk(w, dirs, t, c))
    && (forall n {:trigger w.coveredBy(n)} :: w.coveredBy(n).Some? ==> n in dirs)
    && (forall n {:trigger w.covers(n)} :: w.fsRoot(n) == n && w.covers(n).Some? ==> n in dirs)
  }

  /** Nothing is mounted on a directory above n. */
  ghost predicate Visible(w: World, depth: VNodeId -> nat, n: VNodeId)
    requires Ranked(w, depth)
    decreases depth(n)
  {
    Parent(w, n).Ok? &&
    var (p, c) := Parent(w, n).value;
    c == "." || (ParentRises(w, depth, n); w.coveredBy(p).None? && Visible(w, depth, p))
  }

  /** The parent of a directory, and how it leads back. */
  lemma ParentOf(w: World, depth: VNodeId -> nat, dirs: set<VNodeId>, d: VNodeId)
    requires Forest(w, depth, dirs) && d in dirs
    ensures var u := Below(w, d);
      && u in dirs && Parent(w, d).Ok?
      && (d == w.root <==> u == w.root)
      && (d == w.root <==> Parent(w, d).value.1 == ".")
      && (d == w.root ==> Parent(w, d).value.0 == d)
      && (d != w.root ==>
            var (p, c) := Parent(w, d).value;
            p in dirs && depth(p) < depth(d) && IsWord(c) && c != ".." && w.fsRoot(u) != u
            && w.lookup(p, c) == Found(u, Directory) && w.lookup(u, "..") == Found(p, Directory))
      && (u != d ==> w.coveredBy(u) == Some(d) && w.coveredBy(d).None?)
  {
    assert Situated(w, depth, dirs, d);
    var u := Below(w, d);
    if d != w.root { assert Situated(w, depth, dirs, u); }
  }

  /** The names ns lead from t to p through directories alone. */
  ghost predicate Leads(w: World, t: VNodeId, ns: seq<string>, p: VNodeId)
    decreases |ns|
  {
    if ns == [] then t == p
    else
      && ns[0] != ".." && w.lookup(t, ns[0]).Found? && w.lookup(t, ns[0]).kind == Directory
      && Leads(w, Above(w, w.lookup(t, ns[0]).node), ns[1..], p)
  }

  lemma {:induction false} LeadsWalk(w: World, t: VNodeId, ns: seq<string>, p: VNodeId, leafLinks: bool)
    requires Leads(w, t, ns, p)
    ensures Walk(w, t, ns, leafLinks, 0) == Outcome(Ok(p), multiset{})
    decreases |ns|
  {
    if ns != [] { LeadsWalk(w, Above(w, w.lookup(t, ns[0]).node), ns[1..], p, leafLinks); }
  }

  lemma {:induction false} LeadsLast(w: World, t: VNodeId, ns: seq<string>, p: VNodeId, c: string)
    requires Leads(w, t, ns, p) && c != ".." && w.lookup(p, c).Found? && w.lookup(p, c).kind == Directory
    ensures Leads(w, t, ns + [c], Above(w, w.lookup(p, c).node))
    decreases |ns|
  {
    if ns == [] {
      assert [c][1..] == [];
    } else {
      assert (ns + [c])[1..] == ns[1..] + [c];
      LeadsLast(w, Above(w, w.lookup(t, ns[0]).node), ns[1..], p, c);
    }
  }

  /** The printed names of a visible directory lead to it, or to what covers it. */
  lemma {:induction false} NamesLead(w: World, depth: VNodeId -> nat, dirs: set<VNodeId>, d: VNodeId)
    requires Forest(w, depth, dirs) && d in dirs && Visible(w, depth, d)
    ensures Names(w, depth, d).Ok? && Leads(w, w.root, Names(w, depth, d).value, Above(w, Below(w, d)))
    decreases depth(d)
  {
    hide Forest;
    ParentOf(w, depth, dirs, d);
    if d == w.root {
      RootTop(w, depth, dirs);
    } else {
      var (p, c) := Parent(w, d).value;
      RankedForest(w, depth, dirs);
      NamesLead(w, depth, dirs, p);
      ParentOf(w, depth, dirs, p);
      LeadsLast(w, w.root, Names(w, depth, p).value, p, c);
    }
  }

  lemma RankedForest(w: World, depth: VNodeId -> nat, dirs: set<VNodeId>)
    requires Forest(w, depth, dirs)
    ensures Ranked(w, depth)
  {}

  lemma RootTop(w: World, depth: VNodeId -> nat, dirs: set<VNodeId>)
    requires Forest(w, depth, dirs)
    ensures Topmost(w) && w.root in dirs
  {
    assert Situated(w, depth, dirs, w.root);
  }

  /** Names are always found in a forest, and are proper components. */
  lemma {:induction false} NamesAre(w: World, depth: VNodeId -> nat, dirs: set<VNodeId>, d: VNodeId)
    requires Forest(w, depth, dirs) && d in dirs
    ensures Ranked(w, depth) && Names(w, depth, d).Ok? && Words(Names(w, depth, d).value)
    decreases depth(d)
  {
    hide Forest;
    RankedForest(w, depth, dirs);
    ParentOf(w, depth, dirs, d);
    if d != w.root { NamesAre(w, depth, dirs, Parent(w, d).value.0); }
  }

  // ---------------------------------------------------------------- what resolution can reach

  /** n is no directory, or one that is in sight. */
  ghost predicate Seen(w: World, depth: VNodeId -> nat, dirs: set<VNodeId>, n: VNodeId)
    requires Ranked(w, depth)
  {
    n in dirs ==> Visible(w, depth, n) && w.coveredBy(n).None?
  }

  /** Going up to what is mounted on a directory keeps it in sight. */
  lemma SeenAbove(w: World, depth: VNodeId -> nat, dirs: set<VNodeId>, n: VNodeId)
    requires Forest(w, depth, dirs) && (n in dirs ==> Visible(w, depth, n)) && (n !in dirs ==> w.coveredBy(n).None?)
    ensures Ranked(w, depth) && Seen(w, depth, dirs, Above(w, n))
  {
    if n in dirs && w.coveredBy(n).Some? {
      assert Situated(w, depth, dirs, n);
      var r := w.coveredBy(n).value;
      assert Situated(w, depth, dirs, r);
      RootTop(w, depth, dirs);
      assert Below(w, r) == n && w.fsRoot(n) != n;
      assert Below(w, n) == n;
      assert Parent(w, r) == Parent(w, n);
    }
  }

  /** An entry of a directory in sight is in sight. */
  lemma SeenEntry(w: World, depth: VNodeId -> nat, dirs: set<VNodeId>, t: VNodeId, c: string)
    requires Forest(w, depth, dirs) && Ranked(w, depth) && Seen(w, depth, dirs, t) && EntryOf(w, t, c).Found?
    ensures t in dirs && var n := EntryOf(w, t, c).node; n in dirs ==> Visible(w, depth, n)
  {
    var b := Base(w, t, c);
    assert EntryOk(w, dirs, b, c);
    var n := EntryOf(w, t, c).node;
    if t in dirs { ParentOf(w, depth, dirs, t); }
    BaseIn(w, depth, dirs, t, c);
    if n in dirs {
      if c == ".." {
        RootTop(w, depth, dirs);
      } else if n != t {
        assert Below(w, n) == n;
        ParentOf(w, depth, dirs, n);
      }
    }
  }

  lemma BaseIn(w: World, depth: VNodeId -> nat, dirs: set<VNodeId>, t: VNodeId, c: string)
    requires Forest(w, depth, dirs) && EntryOf(w, t, c).Found?
    ensures t in dirs
  {
    assert EntryOk(w, dirs, Base(w, t, c), c);
  }

  lemma {:induction false} SeenWalk(w: World, depth: VNodeId -> nat, dirs: set<VNodeId>, t: VNodeId, cs: seq<string>, leafLinks: bool, count: nat)
    requires Forest(w, depth, dirs) && Ranked(w, depth) && Seen(w, depth, dirs, t) && count < MAX_COUNT
    ensures var r := Walk(w, t, cs, leafLinks, count).result; r.Ok? ==> Seen(w, depth, dirs, r.value)
    decreases MAX_COUNT - count, 0, |cs|
  {
    hide Forest, Ranked, Seen;
    if cs != [] {
      SeenEnter(w, depth, dirs, t, cs[0], |cs| == 1, leafLinks, count);
      var o := Enter(w, t, cs[0], |cs| == 1, leafLinks, count);
      if o.result.Ok? { SeenWalk(w, depth, dirs, o.result.value, cs[1..], leafLinks, count); }
    }
  }

  lemma {:induction false} SeenEnter(w: World, depth: VNodeId -> nat, dirs: set<VNodeId>, t: VNodeId, c: string, last: bool, leafLinks: bool, count: nat)
    requires Forest(w, depth, dirs) && Ranked(w, depth) && Seen(w, depth, dirs, t) && count < MAX_COUNT
    ensures var r := Enter(w, t, c, last, leafLinks, count).result; r.Ok? ==> Seen(w, depth, dirs, r.value)
    decreases MAX_COUNT - count, 0, 0
  {
    hide Forest, Ranked, Visible;
    var r := Enter(w, t, c, last, leafLinks, count).result;
    if r.Ok? {
      SeenEntry(w, depth, dirs, t, c);
      var n := EntryOf(w, t, c).node;
      CoveredIn(w, depth, dirs, n);
      if EntryOf(w, t, c).kind == Link && (leafLinks || !last) {
        LinkBase(w, depth, dirs, t, c);
        assert Follow(w, t, n, leafLinks, count).result == r;
        var text := CString(w.readlink(n).value);
        SeenResolve(w, depth, dirs, t, text, leafLinks, count + 1);
        var m := Resolve(w, Some(t), text, leafLinks, count + 1).result.value;
        CoveredIn(w, depth, dirs, m);
        SeenAbove(w, depth, dirs, m);
      } else {
        SeenAbove(w, depth, dirs, n);
      }
    }
  }

  lemma {:induction false} SeenResolve(w: World, depth: VNodeId -> nat, dirs: set<VNodeId>, t: VNodeId, path: string, leafLinks: bool, count: nat)
    requires Forest(w, depth, dirs) && Ranked(w, depth) && Seen(w, depth, dirs, t) && count <= MAX_COUNT
    ensures var r := Resolve(w, Some(t), path, leafLinks, count).result; r.Ok? ==> Seen(w, depth, dirs, r.value)
    decreases MAX_COUNT - count, 1, 0
  {
    hide Forest, Ranked;
    SeenRoot(w, depth, dirs);
    if count < MAX_COUNT { SeenWalk(w, depth, dirs, if Absolute(path) then w.root else t, Components(path), leafLinks, count); }
  }

  lemma SeenRoot(w: World, depth: VNodeId -> nat, dirs: set<VNodeId>)
    requires Forest(w, depth, dirs) && Ranked(w, depth)
    ensures Seen(w, depth, dirs, w.root)
  {
    RootTop(w, depth, dirs);
  }

  lemma CoveredIn(w: World, depth: VNodeId -> nat, dirs: set<VNodeId>, n: VNodeId)
    requires Forest(w, depth, dirs)
    ensures n !in dirs ==> w.coveredBy(n).None?
  {}

  /** A component that names a link is not "..". */
  lemma LinkBase(w: World, depth: VNodeId -> nat, dirs: set<VNodeId>, t: VNodeId, c: string)
    requires Forest(w, depth, dirs) && EntryOf(w, t, c).Found? && EntryOf(w, t, c).kind == Link
    ensures Base(w, t, c) == t
  {
    BaseIn(w, depth, dirs, t, c);
    ParentOf(w, depth, dirs, t);
    RootTop(w, depth, dirs);
  }

  lemma CoverOther(w: World, depth: VNodeId -> nat, dirs: set<VNodeId>, d: VNodeId)
    requires Forest(w, depth, dirs) && d in dirs
    ensures w.coveredBy(d).Some? ==> w.coveredBy(d).value != d
  {
    assert Situated(w, depth, dirs, d);
    RootTop(w, depth, dirs);
  }

  /**
   * The path printed for a directory resolves, and leads back to that directory exactly if
   * nothing is mounted on it or on a directory above it.
   */
  lemma RoundTrip(w: World, depth: VNodeId -> nat, dirs: set<VNodeId>, d: VNodeId, start: Option<VNodeId>, leafLinks: bool)
    requires Forest(w, depth, dirs) && d in dirs
    ensures Ranked(w, depth) && Names(w, depth, d).Ok?
    ensures var o := Resolve(w, start, Printed(Names(w, depth, d).value), leafLinks, 0);
      && (o.result == Ok(d) <==> Visible(w, depth, d) && w.coveredBy(d).None?)
      && (Visible(w, depth, d) ==> o == Outcome(Ok(Above(w, d)), multiset{}))
  {
    hide Forest, Ranked, Visible, Names;
    NamesAre(w, depth, dirs, d);
    var ns := Names(w, depth, d).value;
    PrintedComponents(ns);
    if Visible(w, depth, d) {
      NamesLead(w, depth, dirs, d);
      ParentOf(w, depth, dirs, d);
      LeadsWalk(w, w.root, ns, Above(w, Below(w, d)), leafLinks);
      CoverOther(w, depth, dirs, d);
    } else {
      SeenRoot(w, depth, dirs);
      SeenWalk(w, depth, dirs, w.root, ns, leafLinks, 0);
    }
  }
}

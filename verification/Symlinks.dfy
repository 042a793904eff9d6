/**
 * What resolving a path means, said component by component over the operations of the file
 * systems and the mounts alone, and what a symbolic link stands for.
 */
module Symlinks {
  import opened Wrappers
  import opened Paths
  import opened Namespace

  // ---------------------------------------------------------------- laws of resolution

  /** A path holds a name if not all of it is slashes. */
  ghost predicate HasName(q: string) {
    exists i :: 0 <= i < |q| && q[i] != '/'
  }

  lemma {:induction false} HasNameIs(q: string)
    ensures HasName(q) <==> Components(q) != []
  {
    if q != "" && q[0] == '/' {
      HasNameIs(q[1..]);
      if HasName(q) { var i :| 0 <= i < |q| && q[i] != '/'; assert q[1..][i - 1] == q[i]; }
      if HasName(q[1..]) { var i :| 0 <= i < |q[1..]| && q[1..][i] != '/'; assert q[i + 1] == q[1..][i]; }
    } else if q != "" {
      assert q[0] != '/';
    }
  }

  /** The empty path, slashes in front, no place to start from, and the limit of 256 links. */
  lemma Beginnings(w: World, start: Option<VNodeId>, d: VNodeId, q: string, leafLinks: bool, count: nat)
    requires count <= 256
    ensures count < 256 ==> Resolve(w, Some(d), "", leafLinks, count) == Outcome(Ok(d), multiset{})
    ensures Resolve(w, start, "/" + q, leafLinks, count) == Resolve(w, Some(w.root), q, leafLinks, count)
    ensures (q == "" || q[0] != '/') && start.None? ==> Resolve(w, start, q, leafLinks, count) == Outcome(Err(EINVAL), multiset{})
    ensures Resolve(w, Some(d), q, leafLinks, 256) == Outcome(Err(ELOOP), multiset{})
  {
    assert ("/" + q)[1..] == q;
  }

  /**
   * A name alone: the entry, or what a link to be followed leads to from the directory, and what
   * is mounted there.  A link that is followed costs one reference on it.
   */
  lemma LeafLaw(w: World, d: VNodeId, c: string, leafLinks: bool, count: nat)
    requires IsWord(c) && count < 256
    ensures
      var b := if c == ".." && w.fsRoot(d) == d && w.covers(d).Some? then w.covers(d).value else d;
      var o := Resolve(w, Some(d), c, leafLinks, count);
      match w.lookup(b, c)
      case NoEntry(e) => o == Outcome(Err(e), multiset{})
      case Found(n, kind) =>
        if kind == Link && leafLinks then
          match w.readlink(n)
          case Err(e) => o == Outcome(Err(e), multiset{n})
          case Ok(text) =>
            var x := Resolve(w, Some(b), CString(text), leafLinks, count + 1);
            && o.lost == multiset{n} + x.lost
            && o.result == if x.result.Err? then x.result
                 else Ok(if w.coveredBy(x.result.value).Some? then w.coveredBy(x.result.value).value else x.result.value)
        else o == Outcome(Ok(if w.coveredBy(n).Some? then w.coveredBy(n).value else n), multiset{})
  {
    OneWord(c);
    EnterOnly(w, d, c, leafLinks, count);
  }

  lemma EnterOnly(w: World, d: VNodeId, c: string, leafLinks: bool, count: nat)
    requires count < 256
    ensures Walk(w, d, [c], leafLinks, count) == Enter(w, d, c, true, leafLinks, count)
  {
    var o := Enter(w, d, c, true, leafLinks, count);
    assert [c][1..] == [];
    assert o.lost + multiset{} == o.lost;
  }

  /**
   * A name with more path behind it: a link is followed in any case, and a regular file is no
   * directory, which costs a reference on it.
   */
  lemma InnerLaw(w: World, d: VNodeId, c: string, q: string, leafLinks: bool, count: nat)
    requires IsWord(c) && q != "" && q[0] != '/' && count < 256
    ensures
      var b := if c == ".." && w.fsRoot(d) == d && w.covers(d).Some? then w.covers(d).value else d;
      var o := Resolve(w, Some(d), c + "/" + q, leafLinks, count);
      match w.lookup(b, c)
      case NoEntry(e) => o == Outcome(Err(e), multiset{})
      case Found(n, kind) =>
        if kind == Regular then o == Outcome(Err(ENOTDIR), multiset{n})
        else if kind == Link then
          match w.readlink(n)
          case Err(e) => o == Outcome(Err(e), multiset{n})
          case Ok(text) =>
            var x := Resolve(w, Some(b), CString(text), leafLinks, count + 1);
            if x.result.Err? then o == Outcome(x.result, multiset{n} + x.lost)
            else
              var m := if w.coveredBy(x.result.value).Some? then w.coveredBy(x.result.value).value else x.result.value;
              var rest := Resolve(w, Some(m), q, leafLinks, count);
              o == Outcome(rest.result, multiset{n} + x.lost + rest.lost)
        else o == Resolve(w, Some(if w.coveredBy(n).Some? then w.coveredBy(n).value else n), q, leafLinks, count)
  {
    hide Components;
    var path := c + "/" + q;
    OneWord(c);
    ComponentsJoin(c, q);
    HasNameIs(q);
    assert q[0] != '/';
    assert path[0] == c[0];
    WalkFirst(w, d, c, Components(q), leafLinks, count);
  }

  lemma WalkFirst(w: World, d: VNodeId, c: string, cs: seq<string>, leafLinks: bool, count: nat)
    requires count < 256
    ensures var o := Enter(w, d, c, cs == [], leafLinks, count);
      Walk(w, d, [c] + cs, leafLinks, count) ==
        if o.result.Err? then o else After(o.lost, Walk(w, o.result.value, cs, leafLinks, count))
    ensures forall o: Outcome :: After(multiset{}, o) == o
  {
    assert ([c] + cs)[1..] == cs;
    forall o: Outcome ensures After(multiset{}, o) == o { assert multiset{} + o.lost == o.lost; }
  }

  // ---------------------------------------------------------------- fewer links followed before

  /** What resolves with one link more followed before, resolves alike without it. */
  lemma {:induction false} FewerLinks(w: World, start: Option<VNodeId>, path: string, leafLinks: bool, count: nat)
    requires count < 256 && Resolve(w, start, path, leafLinks, count + 1).result != Err(ELOOP)
    ensures Resolve(w, start, path, leafLinks, count).result == Resolve(w, start, path, leafLinks, count + 1).result
    decreases 256 - count, 2, 0
  {
    if Absolute(path) || start.Some? {
      FewerWalk(w, if Absolute(path) then w.root else start.value, Components(path), leafLinks, count);
    }
  }

  lemma {:induction false} FewerWalk(w: World, t: VNodeId, cs: seq<string>, leafLinks: bool, count: nat)
    requires count + 1 < 256 && Walk(w, t, cs, leafLinks, count + 1).result != Err(ELOOP)
    ensures Walk(w, t, cs, leafLinks, count).result == Walk(w, t, cs, leafLinks, count + 1).result
    decreases 256 - count, 1, |cs|
  {
    if cs != [] {
      FewerEnter(w, t, cs[0], |cs| == 1, leafLinks, count);
      var o := Enter(w, t, cs[0], |cs| == 1, leafLinks, count + 1);
      if o.result.Ok? { FewerWalk(w, o.result.value, cs[1..], leafLinks, count); }
    }
  }

  lemma {:induction false} FewerEnter(w: World, t: VNodeId, c: string, last: bool, leafLinks: bool, count: nat)
    requires count + 1 < 256 && Enter(w, t, c, last, leafLinks, count + 1).result != Err(ELOOP)
    ensures Enter(w, t, c, last, leafLinks, count).result == Enter(w, t, c, last, leafLinks, count + 1).result
    decreases 256 - count, 1, 0
  {
    hide Resolve;
    var b := Base(w, t, c);
    match w.lookup(b, c)
    case NoEntry(_) =>
    case Found(n, kind) =>
      if kind == Link && (leafLinks || !last) && w.readlink(n).Ok? {
        FewerLinks(w, Some(b), CString(w.readlink(n).value), leafLinks, count + 1);
      }
  }

  // ---------------------------------------------------------------- a link stands for its text

  /** Nothing is found in a regular file. */
  ghost predicate FilesEmpty(w: World) {
    forall t, c {:trigger w.lookup(t, c)} :: w.lookup(t, c).Found? && w.lookup(t, c).kind == Regular ==>
      forall s :: w.lookup(Above(w, w.lookup(t, c).node), s).NoEntry?
  }

  lemma {:induction false} FileEnd(w: World, t: VNodeId, cs: seq<string>, count: nat, l: string)
    requires count < 256 && FilesEmpty(w) && EndsInFile(w, t, cs, count)
    ensures var r := Walk(w, t, cs, true, count).result; r.Ok? && w.lookup(r.value, l).NoEntry?
    decreases |cs|
  {
    if |cs| == 1 {
      assert w.lookup(Base(w, t, cs[0]), cs[0]) == EntryOf(w, t, cs[0]);
    } else {
      var o := Enter(w, t, cs[0], false, true, count);
      FileEnd(w, o.result.value, cs[1..], count, l);
    }
  }

  /** The root or place that a path starts from. */
  lemma JoinedAt(w: World, start: Option<VNodeId>, p: string, l: string, d: VNodeId, q: string)
    requires FilesEmpty(w) && p != "" && l != ".." && w.lookup(d, l).Found?
    requires Resolve(w, start, p, true, 0).result == Ok(d)
    requires !Absolute(q)
    ensures Resolve(w, start, p + "/" + q, true, 0).result == Resolve(w, Some(d), q, true, 0).result
  {
    var t := if Absolute(p) then w.root else start.value;
    if EndsInFile(w, t, Components(p), 0) { FileEnd(w, t, Components(p), 0, l); }
    Composition(w, start, p, q);
  }

  /**
   * If p leads to directory d, and d's entry l is a link with a relative text x, then p/l
   * resolves as p/x does, with whatever is mounted there, as long as the links left suffice;
   * and to be exact as x does from d with one link used up.
   */
  lemma RelativeLink(w: World, start: Option<VNodeId>, p: string, d: VNodeId, l: string, n: VNodeId, text: string)
    requires FilesEmpty(w) && p != "" && Resolve(w, start, p, true, 0).result == Ok(d)
    requires IsWord(l) && l != ".." && w.lookup(d, l) == Found(n, Link) && w.readlink(n) == Ok(text)
    requires var x := CString(text); x == "" || x[0] != '/'
    ensures var x := CString(text);
      var link, left := Resolve(w, start, p + "/" + l, true, 0).result, Resolve(w, Some(d), x, true, 1).result;
      && link == (if left.Err? then left else Ok(if w.coveredBy(left.value).Some? then w.coveredBy(left.value).value else left.value))
      && (link != Err(ELOOP) ==>
            var plain := Resolve(w, start, p + "/" + x, true, 0).result;
            link == if plain.Err? then plain else Ok(if w.coveredBy(plain.value).Some? then w.coveredBy(plain.value).value else plain.value))
  {
    hide Resolve;
    var x := CString(text);
    JoinedAt(w, start, p, l, d, l);
    JoinedAt(w, start, p, l, d, x);
    LeafLaw(w, d, l, true, 0);
    if Resolve(w, Some(d), x, true, 1).result != Err(ELOOP) { FewerLinks(w, Some(d), x, true, 0); }
  }

  /** A link with an absolute text resolves as that text does. */
  lemma AbsoluteLink(w: World, start: Option<VNodeId>, p: string, d: VNodeId, l: string, n: VNodeId, text: string)
    requires FilesEmpty(w) && p != "" && Resolve(w, start, p, true, 0).result == Ok(d)
    requires IsWord(l) && l != ".." && w.lookup(d, l) == Found(n, Link) && w.readlink(n) == Ok(text)
    requires var x := CString(text); x != "" && x[0] == '/'
    ensures var x := CString(text);
      var link, left := Resolve(w, start, p + "/" + l, true, 0).result, Resolve(w, None, x, true, 1).result;
      && link == (if left.Err? then left else Ok(if w.coveredBy(left.value).Some? then w.coveredBy(left.value).value else left.value))
      && (link != Err(ELOOP) ==>
            var plain := Resolve(w, None, x, true, 0).result;
            link == if plain.Err? then plain else Ok(if w.coveredBy(plain.value).Some? then w.coveredBy(plain.value).value else plain.value))
  {
    hide Resolve;
    var x := CString(text);
    JoinedAt(w, start, p, l, d, l);
    LeafLaw(w, d, l, true, 0);
    FromAnywhere(w, d, x, 1);
    FromAnywhere(w, d, x, 0);
    if Resolve(w, Some(d), x, true, 1).result != Err(ELOOP) { FewerLinks(w, Some(d), x, true, 0); }
  }

  lemma FromAnywhere(w: World, d: VNodeId, x: string, count: nat)
    requires count <= 256 && Absolute(x)
    ensures Resolve(w, Some(d), x, true, count) == Resolve(w, None, x, true, count)
  {}

  // ---------------------------------------------------------------- chains of links

  /** In directory d, the names are links, each to the next. */
  ghost predicate Chain(w: World, d: VNodeId, names: seq<string>) {
    && names != []
    && (forall i {:trigger names[i]} :: 0 <= i < |names| ==> IsWord(names[i]) && names[i] != "..")
    && forall i {:trigger names[i]} :: 0 <= i < |names| - 1 ==>
      && w.lookup(d, names[i]).Found? && w.lookup(d, names[i]).kind == Link
      && w.readlink(w.lookup(d, names[i]).node) == Ok(names[i + 1])
  }

  lemma {:induction false} WordCString(c: string)
    requires '\0' !in c
    ensures CString(c) == c
  {
    if c != "" {
      assert c[0] != '\0' && forall i :: 0 <= i < |c| - 1 ==> c[1..][i] == c[i + 1];
      WordCString(c[1..]);
    }
  }

  /**
   * A chain of links that ends at an entry that is none leads to it, or what is mounted there,
   * exactly if with those followed before it has fewer than 256 links.
   */
  lemma {:induction false} ChainLaw(w: World, d: VNodeId, names: seq<string>, n: VNodeId, kind: Kind, count: nat)
    requires count < 256 && Chain(w, d, names) && kind != Link && w.lookup(d, names[|names| - 1]) == Found(n, kind)
    requires w.coveredBy(n).Some? ==> w.coveredBy(w.coveredBy(n).value).None?
    ensures Resolve(w, Some(d), names[0], true, count).result ==
      if count + (|names| - 1) < 256 then Ok(if w.coveredBy(n).Some? then w.coveredBy(n).value else n) else Err(ELOOP)
    decreases |names|
  {
    hide Resolve;
    LeafLaw(w, d, names[0], true, count);
    if |names| > 1 {
      var rest := names[1..];
      WordCString(names[1]);
      assert names[0] == names[0];
      assert names[|names| - 1] == rest[|rest| - 1];
      if count + 1 < 256 {
        ChainRest(w, d, names);
        ChainLaw(w, d, rest, n, kind, count + 1);
      } else {
        Beginnings(w, Some(d), d, names[1], true, 256);
      }
    }
  }

  lemma ChainRest(w: World, d: VNodeId, names: seq<string>)
    requires Chain(w, d, names) && |names| > 1
    ensures Chain(w, d, names[1..])
  {
    var rest := names[1..];
    forall i | 0 <= i < |rest| ensures IsWord(rest[i]) && rest[i] != ".." { assert rest[i] == names[i + 1]; }
    forall i | 0 <= i < |rest| - 1
      ensures w.lookup(d, rest[i]).Found? && w.lookup(d, rest[i]).kind == Link && w.readlink(w.lookup(d, rest[i]).node) == Ok(rest[i + 1])
    {
      assert rest[i] == names[i + 1] && rest[i + 1] == names[i + 2];
    }
  }

  /** A link to itself leads nowhere. */
  lemma {:induction false} SelfLoop(w: World, d: VNodeId, l: string, n: VNodeId, count: nat)
    requires count <= 256 && IsWord(l) && l != ".." && w.lookup(d, l) == Found(n, Link) && w.readlink(n) == Ok(l)
    ensures Resolve(w, Some(d), l, true, count).result == Err(ELOOP)
    decreases 256 - count
  {
    hide Resolve;
    if count < 256 {
      LeafLaw(w, d, l, true, count);
      WordCString(l);
      SelfLoop(w, d, l, n, count + 1);
    } else {
      Beginnings(w, Some(d), d, l, true, 256);
    }
  }

  /**
   * Leaf links are left alone inside a link too: with leaf links not followed, a link that has
   * more path behind it and whose text names another link leads to that other link itself, and
   * the rest of the path is looked up there.
   */
  lemma MiddleLinkStops(w: World, d: VNodeId, a: string, n: VNodeId, b: string, m: VNodeId, q: string, count: nat)
    requires count + 1 < 256 && IsWord(a) && a != ".." && IsWord(b) && b != ".." && q != "" && q[0] != '/'
    requires w.lookup(d, a) == Found(n, Link) && w.readlink(n) == Ok(b) && w.lookup(d, b) == Found(m, Link) && w.coveredBy(m).None?
    ensures Resolve(w, Some(d), a + "/" + q, false, count).result == Resolve(w, Some(m), q, false, count).result
  {
    hide Resolve;
    InnerLaw(w, d, a, q, false, count);
    WordCString(b);
    LeafLaw(w, d, b, false, count + 1);
  }
}

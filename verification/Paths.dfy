/**
 * Path text and its components.
 */
module Paths {

  /** A C string ends at its first NUL. */
  function CString(s: string): (t: string)
    ensures t <= s && '\0' !in t
  {
    if s == "" || s[0] == '\0' then "" else [s[0]] + CString(s[1..])
  }

  predicate Absolute(s: string) { s != "" && s[0] == '/' }

  /** Length of the run of characters before the first slash. */
  function WordLen(s: string): (k: nat)
    ensures k <= |s| && '/' !in s[..k]
    ensures k == |s| || s[k] == '/'
  {
    if s == "" || s[0] == '/' then 0 else 1 + WordLen(s[1..])
  }

  /** The components of a path: its runs of characters other than slashes. */
  function Components(s: string): (cs: seq<string>)
    ensures forall k :: 0 <= k < |cs| ==> cs[k] != "" && '/' !in cs[k]
  {
    if s == "" then []
    else if s[0] == '/' then Components(s[1..])
    else [s[..WordLen(s)]] + Components(s[WordLen(s)..])
  }

  /** A component is known by its characters and the slash or end after it. */
  lemma WordLenIs(s: string, k: nat)
    requires k <= |s| && (forall i :: 0 <= i < k ==> s[i] != '/') && (k == |s| || s[k] == '/')
    ensures WordLen(s) == k
  {
    if k > 0 {
      assert s[1..] == s[1..k] + s[k..];
      WordLenIs(s[1..], k - 1);
    }
  }

  /** Joining two paths with a slash joins their components. */
  lemma {:induction false} ComponentsJoin(p: string, q: string)
    ensures Components(p + "/" + q) == Components(p) + Components(q)
    decreases |p|
  {
    var s := p + "/" + q;
    if p == "" {
      assert s == "/" + q && s[1..] == q;
    } else if p[0] == '/' {
      assert s[1..] == p[1..] + "/" + q;
      ComponentsJoin(p[1..], q);
    } else {
      var k := WordLen(p);
      WordLenIs(s, k);
      assert k > 0;
      assert s[..k] == p[..k] && s[k..] == p[k..] + "/" + q;
      ComponentsJoin(p[k..], q);
    }
  }

  predicate IsWord(c: string) { c != "" && '/' !in c && '\0' !in c }

  predicate Words(cs: seq<string>) { forall k :: 0 <= k < |cs| ==> IsWord(cs[k]) }

  /** The absolute path with these components. */
  function Printed(cs: seq<string>): string {
    "/" + Joined(cs)
  }

  function Joined(cs: seq<string>): string {
    if |cs| == 0 then "" else if |cs| == 1 then cs[0] else cs[0] + "/" + Joined(cs[1..])
  }

  lemma {:induction false} JoinedComponents(cs: seq<string>)
    requires Words(cs)
    ensures Components(Joined(cs)) == cs && '\0' !in Joined(cs)
  {
    if |cs| > 0 {
      OneWord(cs[0]);
      if |cs| > 1 {
        JoinedComponents(cs[1..]);
        ComponentsJoin(cs[0], Joined(cs[1..]));
      }
    }
  }

  lemma OneWord(c: string)
    requires IsWord(c)
    ensures Components(c) == [c]
  {
    WordLenIs(c, |c|);
    assert c[..|c|] == c;
  }

  /** Printing a list of components and splitting it again gives the list back. */
  lemma PrintedComponents(cs: seq<string>)
    requires Words(cs)
    ensures Components(Printed(cs)) == cs && Absolute(Printed(cs)) && '\0' !in Printed(cs)
  {
    JoinedComponents(cs);
    assert Printed(cs)[1..] == Joined(cs);
  }

  lemma {:induction false} JoinedLast(cs: seq<string>, c: string)
    ensures Joined(cs + [c]) == (if cs == [] then c else Joined(cs) + "/" + c)
  {
    if |cs| > 1 {
      JoinedLast(cs[1..], c);
      assert (cs + [c])[1..] == cs[1..] + [c];
    } else if |cs| == 1 {
      assert (cs + [c])[1..] == [c];
    }
  }

  /** Components are not disturbed by slashes in front. */
  lemma {:induction false} ComponentsStrip(s: string, k: nat)
    requires k <= |s| && forall i :: 0 <= i < k ==> s[i] == '/'
    ensures Components(s) == Components(s[k..])
  {
    if k > 0 {
      ComponentsStrip(s[1..], k - 1);
      assert s[1..][k - 1..] == s[k..];
    } else {
      assert s[0..] == s;
    }
  }

  // ---------------------------------------------------------------- cutting a path in place

  /** From pos on, the copy still holds the path and its end. */
  ghost predicate Uncut(clone: array<char>, path: string, pos: int)
    reads clone
  {
    && 0 <= pos <= |path| && clone.Length == |path| + 1 && '\0' !in path
    && forall i {:trigger clone[i]} :: pos <= i <= |path| ==> clone[i] == if i < |path| then path[i] else '\0'
  }

  lemma CopyUncut(clone: array<char>, path: string)
    requires clone.Length == |path| + 1 && clone[..] == path + ['\0'] && '\0' !in path
    ensures Uncut(clone, path, 0)
  {
    forall i | 0 <= i <= |path| ensures clone[i] == if i < |path| then path[i] else '\0' {
      assert clone[..][i] == (path + ['\0'])[i];
    }
  }

  lemma UncutAt(clone: array<char>, path: string, pos: int, i: int)
    requires Uncut(clone, path, pos) && pos <= i <= |path|
    ensures clone[i] == if i < |path| then path[i] else '\0'
    ensures Uncut(clone, path, i)
  {}

  method SkipSlashes(clone: array<char>, ghost path: string, from: int) returns (pos: int)
    requires Uncut(clone, path, from)
    ensures from <= pos && Uncut(clone, path, pos) && (pos == |path| || path[pos] != '/')
    ensures Components(path[from..]) == Components(path[pos..])
  {
    pos := from;
    while clone[pos] == '/'
      invariant from <= pos && Uncut(clone, path, pos)
      invariant Components(path[from..]) == Components(path[pos..])
      decreases |path| - pos
    {
      UncutAt(clone, path, pos, pos);
      UncutAt(clone, path, pos, pos + 1);
      assert path[pos..][1..] == path[pos + 1..];
      pos := pos + 1;
    }
    UncutAt(clone, path, pos, pos);
  }

  /** The string that starts at pos in the copy. */
  ghost predicate StringAt(clone: array<char>, pos: int, c: string)
    reads clone
  {
    && 0 <= pos && pos + |c| < clone.Length && clone[pos + |c|] == '\0' && '\0' !in c
    && forall i {:trigger c[i]} :: 0 <= i < |c| ==> clone[pos + i] == c[i]
  }

  method ReadString(clone: array<char>, pos: int, ghost c: string) returns (s: string)
    requires StringAt(clone, pos, c)
    ensures s == c
  {
    s := "";
    while clone[pos + |s|] != '\0'
      invariant |s| <= |c| && s == c[..|s|]
      decreases |c| - |s|
    {
      var ch := clone[pos + |s|];
      assert |s| < |c|;
      assert ch == c[|s|];
      s := s + [ch];
    }
    if |s| < |c| { NotNul(c, |s|); }
  }

  lemma NotNul(c: string, i: nat)
    requires i < |c| && '\0' !in c
    ensures c[i] != '\0'
  {}

  /** Where the component at pos ends. */
  method FindEnd(clone: array<char>, ghost path: string, pos: int) returns (next: int)
    requires Uncut(clone, path, pos) && pos < |path| && path[pos] != '/'
    ensures pos < next <= |path| && '/' !in path[pos..next] && (next == |path| || path[next] == '/')
  {
    next := pos + 1;
    while clone[next] != '\0' && clone[next] != '/'
      invariant pos < next <= |path| && '/' !in path[pos..next]
      decreases |path| - next
    {
      assert path[pos..next + 1] == path[pos..next] + [path[next]];
      next := next + 1;
    }
    assert next < |path| ==> path[next] in path;
  }

  lemma FirstComponent(path: string, pos: int, next: int)
    requires 0 <= pos < next <= |path| && '/' !in path[pos..next] && (next == |path| || path[next] == '/')
    ensures Components(path[pos..]) == [path[pos..next]] + Components(path[next..])
    ensures next < |path| ==> Components(path[next..]) == Components(path[next + 1..])
  {
    forall i | 0 <= i < next - pos ensures path[pos..][i] != '/' { assert path[pos..][i] == path[pos..next][i]; }
    WordLenIs(path[pos..], next - pos);
    assert path[pos..][..next - pos] == path[pos..next];
    assert path[pos..][next - pos..] == path[next..];
    if next < |path| { assert path[next..][1..] == path[next + 1..]; }
  }

  /** The next component, cut off with a NUL in place of the slash after it. */
  method CutComponent(clone: array<char>, ghost path: string, pos: int) returns (c: string, next: int)
    requires Uncut(clone, path, pos) && pos < |path| && path[pos] != '/'
    modifies clone
    ensures pos < next && Uncut(clone, path, next) && (next == |path| || path[next] != '/')
    ensures Components(path[pos..]) == [c] + Components(path[next..])
  {
    hide Components;
    next := FindEnd(clone, path, pos);
    ghost var word := path[pos..next];
    FirstComponent(path, pos, next);
    if clone[next] == '/' {
      clone[next] := '\0';
      assert StringAt(clone, pos, word);
      next := SkipSlashes(clone, path, next + 1);
    } else {
      assert StringAt(clone, pos, word);
    }
    c := ReadString(clone, pos, word);
  }

  // ---------------------------------------------------------------- printing into a buffer

  /** The buffer size that the climb computes for these names, the name of the top included. */
  function BufferSize(cs: seq<string>): nat {
    if cs == [] then 4 else BufferSize(cs[1..]) + |cs[0]| + 1
  }

  lemma {:induction false} BufferGrows(cs: seq<string>, c: string)
    ensures BufferSize(cs + [c]) == BufferSize(cs) + |c| + 1
  {
    if cs != [] {
      BufferGrows(cs[1..], c);
      assert (cs + [c])[1..] == cs[1..] + [c];
    }
  }

  /** The buffer holds the text and its NUL, and two bytes more, or three for a text with names. */
  lemma {:induction false} PrintedFits(cs: seq<string>)
    ensures BufferSize(cs) == |Printed(cs)| + 1 + if cs == [] then 2 else 3
  {
    if cs != [] { PrintedFits(cs[1..]); }
  }

  lemma {:induction false} PrefixFits(cs: seq<string>, k: nat)
    requires k <= |cs|
    ensures |Printed(cs[..k])| <= |Printed(cs)|
  {
    if k > 0 {
      PrefixFits(cs[1..], k - 1);
      assert cs[..k][1..] == cs[1..][..k - 1];
    }
  }

  /** The C string in a buffer. */
  ghost predicate BufferHolds(buf: array<char>, s: string)
    reads buf
  {
    |s| < buf.Length && buf[..|s|] == s && buf[|s|] == '\0'
  }

  /** strcpy to position i. */
  method StringCopy(buf: array<char>, i: nat, s: string)
    requires i + |s| < buf.Length
    modifies buf
    ensures buf[..i] == old(buf[..i]) && buf[i..i + |s|] == s && buf[i + |s|] == '\0'
  {
    var k := 0;
    while k < |s|
      invariant k <= |s| && buf[..i] == old(buf[..i]) && buf[i..i + k] == s[..k]
    {
      buf[i + k] := s[k];
      k := k + 1;
    }
    buf[i + |s|] := '\0';
  }

  /** What stands before component k: the components above it, each with its slash. */
  function Lead(cs: seq<string>, k: nat): string
    requires k <= |cs|
  {
    if k == 0 then "/" else Printed(cs[..k]) + "/"
  }

  lemma LeadNext(cs: seq<string>, k: nat)
    requires k < |cs|
    ensures Printed(cs[..k + 1]) == Lead(cs, k) + cs[k]
    ensures |Lead(cs, k)| + |cs[k]| <= |Printed(cs)|
  {
    assert cs[..k + 1] == cs[..k] + [cs[k]];
    JoinedLast(cs[..k], cs[k]);
    PrefixFits(cs, k + 1);
  }

  /** The last loop of GetDirPathFromVnode: names, deepest first, printed from the top down. */
  method PrintNames(stack: seq<string>, size: nat) returns (buf: array<char>)
    requires size == BufferSize(Reversed(stack))
    ensures fresh(buf) && buf.Length == size && BufferHolds(buf, Printed(Reversed(stack)))
  {
    hide Printed, BufferSize;
    ghost var cs := Reversed(stack);
    PrintedFits(cs);
    PrintedTop(cs);
    buf := new char[size];
    buf[0] := '/';
    buf[1] := '\0';
    var i := 1;
    var left := stack;
    while left != []
      invariant |left| <= |stack| && left == stack[..|left|] && buf.Length == size
      invariant left == [] ==> BufferHolds(buf, Printed(cs))
      invariant left != [] ==> i == |Lead(cs, |stack| - |left|)| <= size && buf[..i] == Lead(cs, |stack| - |left|)
      decreases |left|
    {
      ghost var k := |stack| - |left|;
      var name := left[|left| - 1];
      ReversedAt(stack, k);
      LeadNext(cs, k);
      left := left[..|left| - 1];
      StringCopy(buf, i, name);
      assert buf[..i + |name|] == Printed(cs[..k + 1]);
      if left != [] {
        i := i + |name| + 1;
        buf[i - 1] := '/';
        assert buf[..i] == Printed(cs[..k + 1]) + "/";
      } else {
        assert cs[..k + 1] == cs;
      }
    }
  }

  lemma PrintedTop(cs: seq<string>)
    ensures |Printed(cs)| >= 1 && (cs == [] ==> Printed(cs) == "/")
  {}

  function Reversed<T>(s: seq<T>): (r: seq<T>)
    ensures |r| == |s|
  {
    if s == [] then [] else [s[|s| - 1]] + Reversed(s[..|s| - 1])
  }

  lemma {:induction false} ReversedAt<T>(s: seq<T>, k: nat)
    requires k < |s|
    ensures Reversed(s)[k] == s[|s| - 1 - k]
  {
    if k > 0 { ReversedAt(s[..|s| - 1], k - 1); }
  }
}

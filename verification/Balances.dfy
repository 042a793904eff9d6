/**
 * Examples of resolutions that do not balance or do not compose.
 */
module Balances {
  import opened Wrappers
  import opened Paths
  import opened Namespace

  const TOP := VNodeId(0, 1)
  const FILE := VNodeId(0, 2)
  const LINK := VNodeId(0, 3)

  /** A root with a regular file "f" and a link "l" to ".". */
  const Small: World := World(
    TOP,
    (n, s) =>
      if n == TOP && (s == "." || s == "..") then Found(TOP, Directory)
      else if n == TOP && s == "f" then Found(FILE, Regular)
      else if n == TOP && s == "l" then Found(LINK, Link)
      else NoEntry(ENOENT),
    n => if n == LINK then Ok(".") else Err(EINVAL),
    (p, n) => if p == n then Ok(".") else Err(ENOENT),
    n => TOP,
    n => None,
    n => None)

  lemma ShortPaths()
    ensures Components(".") == ["."] && Components("l") == ["l"] && Components("f") == ["f"] && Components("x") == ["x"]
    ensures Components("f/x") == ["f", "x"] && CString(".") == "."
  {
    OneLetter(".");
    OneLetter("l");
    OneLetter("f");
    OneLetter("x");
    ComponentsJoin("f", "x");
    assert "f" + "/" + "x" == "f/x";
    assert "."[1..] == "";
  }

  lemma OneLetter(s: string)
    requires |s| == 1 && s[0] != '/'
    ensures Components(s) == [s]
  {
    assert s[1..] == "" && s[..1] == s;
  }

  /** Following a link: the way leads to the root, and the reference on the link is lost. */
  lemma LinkLoses()
    ensures Resolve(Small, Some(TOP), "l", true, 0) == Outcome(Ok(TOP), multiset{LINK})
  {
    ShortPaths();
    assert Walk(Small, TOP, ["."], true, 1) == Outcome(Ok(TOP), multiset{});
    assert Resolve(Small, Some(TOP), ".", true, 1) == Outcome(Ok(TOP), multiset{});
    assert Follow(Small, TOP, LINK, true, 0) == Outcome(Ok(TOP), multiset{LINK});
    assert Enter(Small, TOP, "l", true, true, 0) == Outcome(Ok(TOP), multiset{LINK});
  }

  /** A file with path after it: the whole path fails in another way than its second part does. */
  lemma FileInside()
    ensures Resolve(Small, Some(TOP), "f/x", true, 0).result == Err(ENOTDIR)
    ensures Resolve(Small, Some(TOP), "f", true, 0).result == Ok(FILE)
    ensures Resolve(Small, Some(FILE), "x", true, 0).result == Err(ENOENT)
  {
    ShortPaths();
    assert Enter(Small, TOP, "f", false, true, 0).result == Err(ENOTDIR);
    assert Enter(Small, TOP, "f", true, true, 0).result == Ok(FILE);
    assert Enter(Small, FILE, "x", true, true, 0).result == Err(ENOENT);
  }
}

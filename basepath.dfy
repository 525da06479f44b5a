/**
 * getAppBasePath's string logic: the page's pathname cut just before its last '/'.
 * The pathname is a parameter (the browser's window.location is not modelled).
 */
module BasePath {
  /** String.prototype.lastIndexOf for one character: the last position holding c, or -1. */
  function LastIndexOf(s: string, c: char): (r: int)
    ensures -1 <= r < |s|
    ensures r == -1 <==> c !in s
    ensures r >= 0 ==> s[r] == c && c !in s[r + 1..]
  {
    if s == [] then -1
    else if s[|s| - 1] == c then |s| - 1
    else
      var r := LastIndexOf(s[..|s| - 1], c);
      assert s[r + 1..] == s[..|s| - 1][r + 1..] + [s[|s| - 1]];
      r
  }

  /**
   * The directory part of the pathname: everything before the last '/', or the empty
   * string when there is no '/' at all.
   */
  function AppBasePath(path: string): (base: string)
    ensures '/' !in path ==> base == []
    ensures '/' in path ==>
      |base| < |path| && path[..|base|] == base && path[|base|] == '/' && '/' !in path[|base| + 1..]
  {
    var lastSlash := LastIndexOf(path, '/');
    if lastSlash != -1 then path[..lastSlash] else []
  }

  /** The base path of a directory joined with a leaf name by '/' is that directory. */
  lemma {:induction false} BaseOfJoin(dir: string, leaf: string)
    requires '/' !in leaf
    ensures AppBasePath(dir + "/" + leaf) == dir
  {
    var path := dir + "/" + leaf;
    var base := AppBasePath(path);
    assert path[|dir|] == '/';
    assert path[|dir| + 1..] == leaf;
    assert path[..|dir|] == dir;
  }

  /** Every pathname splits as its base path, a '/', and a last segment with no '/'. */
  lemma SplitAtBase(path: string)
    requires '/' in path
    ensures var base := AppBasePath(path);
      path == base + "/" + path[|base| + 1..] && '/' !in path[|base| + 1..]
  {
    var base := AppBasePath(path);
    assert path == path[..|base|] + [path[|base|]] + path[|base| + 1..];
  }
}

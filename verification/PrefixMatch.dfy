/** Longest-prefix match, specified by trying ever shorter pieces of the path. */
module PrefixMatch {
  import opened Basics

  /** The first key among path[..k], path[..k-1], ..., path[..0]. */
  function LongestWithin(keys: set<string>, path: string, k: nat): (r: Option<string>)
    requires k <= |path|
    ensures r.Some? ==> r.value in keys && r.value <= path && |r.value| <= k
    ensures r.Some? ==> forall q | q in keys && q <= path && |q| <= k :: |q| <= |r.value|
    ensures r.None? ==> forall q | q in keys && q <= path :: |q| > k
  {
    assert forall q: string | q <= path && |q| == k :: q == path[..k];
    if path[..k] in keys then Some(path[..k])
    else if k == 0 then None
    else LongestWithin(keys, path, k - 1)
  }

  function Longest(keys: set<string>, path: string): (r: Option<string>) {
    LongestWithin(keys, path, |path|)
  }

  /** Two prefixes of one path with the same length are the same string, so a
      longest match does not depend on the order in which the keys are tried. */
  lemma LongestIs(keys: set<string>, path: string, p: string)
    requires p in keys && p <= path
    requires forall q | q in keys && q <= path :: |q| <= |p|
    ensures Longest(keys, path) == Some(p)
  {
    var r := Longest(keys, path);
    assert r.value == path[..|p|] == p;
  }

  lemma LongestIsNone(keys: set<string>, path: string)
    requires forall q | q in keys :: !(q <= path)
    ensures Longest(keys, path) == None
  {
  }
}

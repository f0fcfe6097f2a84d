/**
  The two path operations of Python's posixpath that the modelled scripts use: basename and join
  (with two arguments). Paths are strings with '/' as the only separator.
*/
module Paths {

  /** The index of the last '/' in p, or -1 when p has none. */
  function LastSlash(p: string): (i: int)
    ensures -1 <= i < |p|
    ensures i >= 0 ==> p[i] == '/'
    ensures forall j :: i < j < |p| ==> p[j] != '/'
  {
    if |p| == 0 then -1
    else if p[|p| - 1] == '/' then |p| - 1
    else LastSlash(p[..|p| - 1])
  }

  /** posixpath.basename: everything after the last '/'. */
  function Basename(p: string): (b: string)
    ensures '/' !in b
  {
    p[LastSlash(p) + 1..]
  }

  /** The basename is a suffix of the path, and all of it or preceded by a '/'. */
  lemma BasenameSuffix(p: string)
    ensures var b := Basename(p);
      && |b| <= |p| && b == p[|p| - |b|..]
      && (|b| < |p| ==> p[|p| - |b| - 1] == '/')
  {
  }

  /** posixpath.join(a, b): b alone when absolute, otherwise a and b with one '/' between them. */
  function Join(a: string, b: string): string
  {
    if |b| > 0 && b[0] == '/' then b
    else if a == [] || a[|a| - 1] == '/' then a + b
    else a + "/" + b
  }

  /** Basename is the only slash-free suffix of p that is either all of p or follows a '/'. */
  lemma BasenameUnique(p: string, s: string)
    requires '/' !in s
    requires |s| <= |p| && s == p[|p| - |s|..]
    requires |s| < |p| ==> p[|p| - |s| - 1] == '/'
    ensures Basename(p) == s
  {
  }

  /** Joining a directory and a bare file name gives a path whose basename is that file name. */
  lemma BasenameOfJoin(dir: string, name: string)
    requires '/' !in name
    ensures Basename(Join(dir, name)) == name
  {
    var p := Join(dir, name);
    assert name == p[|p| - |name|..];
    BasenameUnique(p, name);
  }
}

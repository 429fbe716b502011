/**
 * POSIX `os.path.dirname`: the part of a path before its last '/', with the
 * trailing slashes of that part removed unless it consists of slashes only.
 * Root-level names have the empty string as their directory.
 */
module Paths {

  /** One past the position of the last '/', or 0 when there is none. */
  function LastSeparatorEnd(p: string): (r: nat)
    ensures r <= |p|
    ensures r > 0 ==> p[r - 1] == '/'
    ensures forall k :: r <= k < |p| ==> p[k] != '/'
  {
    if |p| == 0 then 0
    else if p[|p| - 1] == '/' then |p|
    else LastSeparatorEnd(p[..|p| - 1])
  }

  predicate AllSlashes(s: string) {
    forall k :: 0 <= k < |s| ==> s[k] == '/'
  }

  /** `s.rstrip('/')`. */
  function StripTrailingSlashes(s: string): (r: string)
    ensures |r| <= |s| && r == s[..|r|]
    ensures |r| > 0 ==> r[|r| - 1] != '/'
    ensures forall k :: |r| <= k < |s| ==> s[k] == '/'
  {
    if |s| > 0 && s[|s| - 1] == '/' then StripTrailingSlashes(s[..|s| - 1]) else s
  }

  function Dirname(p: string): (r: string)
    ensures |r| <= |p| && r == p[..|r|]
    ensures (forall k :: 0 <= k < |p| ==> p[k] != '/') ==> r == ""
  {
    var head := p[..LastSeparatorEnd(p)];
    if head != "" && !AllSlashes(head) then StripTrailingSlashes(head) else head
  }

  /** The directory of `dir + "/" + name` is `dir`, for a plain file name. */
  lemma DirnameOfJoin(dir: string, name: string)
    requires dir != "" && dir[|dir| - 1] != '/'
    requires '/' !in name
    ensures Dirname(dir + "/" + name) == dir
  {
    var p := dir + "/" + name;
    var e := LastSeparatorEnd(p);
    assert p[|dir|] == '/';
    assert e == |dir| + 1 by {
      assert forall k :: |dir| < k < |p| ==> p[k] == name[k - |dir| - 1];
    }
    var head := p[..e];
    assert head == dir + "/";
    assert !AllSlashes(head) by {
      assert head[|dir| - 1] == dir[|dir| - 1];
    }
    assert head[..|head| - 1] == dir;
  }
}

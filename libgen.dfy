/**
 * The POSIX `basename()` of <libgen.h>, as the walker uses it to get the
 * name that `-name` patterns are matched against.
 */
module Libgen {

  /** `p` with every trailing '/' removed. */
  function StripTrailingSlashes(p: string): (r: string)
    ensures r <= p
    ensures r == [] || r[|r| - 1] != '/'
    ensures forall i :: |r| <= i < |p| ==> p[i] == '/'
  {
    if p != [] && p[|p| - 1] == '/' then StripTrailingSlashes(p[..|p| - 1]) else p
  }

  /** The part of `q` after its last '/' (all of `q` when it has none). */
  function LastComponent(q: string): (r: string)
    ensures '/' !in r
    ensures |r| <= |q| && q[|q| - |r|..] == r
    ensures |r| < |q| ==> q[|q| - |r| - 1] == '/'
  {
    if q == [] || q[|q| - 1] == '/' then [] else LastComponent(q[..|q| - 1]) + [q[|q| - 1]]
  }

  /**
   * The final component of `p` once trailing slashes are stripped: "." for the
   * empty string and "/" for a string made only of slashes.
   */
  function Basename(p: string): (r: string)
    ensures r != []
    ensures '/' in r ==> r == "/"
  {
    if p == [] then "."
    else
      var q := StripTrailingSlashes(p);
      if q == [] then "/" else LastComponent(q)
  }

  /** A name holding no '/' is its own last component once joined under any parent. */
  lemma {:induction false} LastComponentOfJoin(parent: string, name: string)
    requires '/' !in name
    ensures LastComponent(parent + "/" + name) == name
  {
    var q := parent + "/" + name;
    if name == [] {
      assert q[|q| - 1] == '/';
    } else {
      var shorter := name[..|name| - 1];
      assert q[..|q| - 1] == parent + "/" + shorter;
      assert q[|q| - 1] == name[|name| - 1];
      assert '/' !in shorter by {
        forall i | 0 <= i < |shorter| ensures shorter[i] != '/' {
          assert shorter[i] == name[i];
        }
      }
      LastComponentOfJoin(parent, shorter);
      assert shorter + [name[|name| - 1]] == name;
    }
  }

  /** The basename of `parent/name` is `name` when `name` is a non-empty component. */
  lemma BasenameOfJoin(parent: string, name: string)
    requires name != [] && '/' !in name
    ensures Basename(parent + "/" + name) == name
  {
    var q := parent + "/" + name;
    assert q[|q| - 1] == name[|name| - 1];
    assert StripTrailingSlashes(q) == q;
    LastComponentOfJoin(parent, name);
  }
}

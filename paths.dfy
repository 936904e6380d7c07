/**
  POSIX path handling as Python's `os.path` performs it: `join` of two components and `dirname`.
  The backend uses the first to place a downloaded recording and the second to find the
  directory it creates for the sqlite file.
*/
module Paths {
  import opened Text

  /** `os.path.join(a, b)`: an absolute `b` replaces `a`; otherwise one `/` separates them. */
  function PathJoin(a: string, b: string): (r: string)
    ensures EndsWith(r, b)
    ensures !StartsWith(b, "/") && a != "" && a[|a| - 1] != '/' ==> r == a + "/" + b
  {
    if StartsWith(b, "/") then b
    else if a == "" || a[|a| - 1] == '/' then a + b
    else a + "/" + b
  }

  /** The index just past the last `/` of `p`, or 0 when there is none (`p.rfind('/') + 1`). */
  function SlashEnd(p: string): (r: nat)
    ensures r <= |p|
    ensures r > 0 ==> p[r - 1] == '/'
    ensures forall j | r <= j < |p| :: p[j] != '/'
  {
    if p == [] then 0
    else if p[|p| - 1] == '/' then |p|
    else SlashEnd(p[..|p| - 1])
  }

  predicate AllSlashes(h: string) {
    forall i | 0 <= i < |h| :: h[i] == '/'
  }

  /** `h.rstrip('/')`. */
  function RStripSlashes(h: string): (r: string)
    ensures |r| <= |h| && r == h[..|r|]
    ensures r == [] || r[|r| - 1] != '/'
    ensures forall i | |r| <= i < |h| :: h[i] == '/'
  {
    if h != [] && h[|h| - 1] == '/' then
      var r := RStripSlashes(h[..|h| - 1]);
      assert h[..|h| - 1][..|r|] == h[..|r|];
      r
    else h
  }

  /**
    `posixpath.dirname(p)`: everything up to the last `/`, with trailing slashes removed unless
    the head consists of slashes only (so that the root stays `/`).
  */
  function DirName(p: string): (r: string)
    ensures StartsWith(p, r)
    ensures r == "" <==> '/' !in p
  {
    var head := p[..SlashEnd(p)];
    if head != [] && !AllSlashes(head) then
      var r := RStripSlashes(head);
      assert r != [] by {
        var i :| 0 <= i < |head| && head[i] != '/';
      }
      assert p[..|r|] == head[..|r|];
      r
    else
      assert head != [] ==> head[0] == '/';
      head
  }

  /** The directory of a path built by `PathJoin` is the directory it was joined onto. */
  lemma DirNameOfJoin(a: string, b: string)
    requires a != "" && a[|a| - 1] != '/' && '/' !in b
    ensures DirName(PathJoin(a, b)) == a
  {
    var p := a + "/" + b;
    assert b == [] || b[0] != '/';
    assert PathJoin(a, b) == p;
    SlashEndOfJoin(a, b);
    assert p[..|a| + 1] == a + "/";
    assert !AllSlashes(a + "/") by {
      assert (a + "/")[|a| - 1] != '/';
    }
    StripOneSlash(a);
  }

  lemma {:induction false} SlashEndOfJoin(a: string, b: string)
    requires '/' !in b
    ensures SlashEnd(a + "/" + b) == |a| + 1
  {
    var p := a + "/" + b;
    if b != [] {
      assert p[|p| - 1] == b[|b| - 1];
      assert p[..|p| - 1] == a + "/" + b[..|b| - 1];
      SlashEndOfJoin(a, b[..|b| - 1]);
    }
  }

  lemma StripOneSlash(a: string)
    requires a != "" && a[|a| - 1] != '/'
    ensures RStripSlashes(a + "/") == a
  {
    assert (a + "/")[..|a|] == a;
  }
}

/** Virtual paths.

    The server handles clean absolute POSIX paths as strings.  The model works on the sequence of
    path components; this module ties the two views together, so that the string tests of the
    server (`strings.HasPrefix`, `path.Dir`) can be read as component-wise relations. */
module Paths {

  /** A clean absolute path; the empty sequence is "/". */
  type Path = seq<string>

  /** path.Dir on component sequences; the parent of the root is the root. */
  function Parent(p: Path): Path {
    if p == [] then [] else p[..|p| - 1]
  }

  predicate StrictlyInside(dir: Path, p: Path) {
    dir < p
  }

  /** Components of clean paths are non-empty and contain no separator. */
  predicate Clean(p: Path) {
    forall i :: 0 <= i < |p| ==> p[i] != "" && '/' !in p[i]
  }

  /** The string form without the special case of the root. */
  function Joined(p: Path): string {
    if p == [] then "" else "/" + p[0] + Joined(p[1..])
  }

  function Render(p: Path): string {
    if p == [] then "/" else Joined(p)
  }

  lemma {:induction false} JoinedConcat(p: Path, q: Path)
    ensures Joined(p + q) == Joined(p) + Joined(q)
  {
    if p == [] {
      assert p + q == q;
    } else {
      assert (p + q)[1..] == p[1..] + q;
      JoinedConcat(p[1..], q);
    }
  }

  /** A slash-free component is delimited uniquely by the slash that follows it. */
  lemma {:induction false} ComponentSplit(a: string, x: string, b: string, y: string)
    requires '/' !in a && '/' !in b
    requires x != "" && x[0] == '/'
    requires y == "" || y[0] == '/'
    requires a + x <= b + y
    ensures a == b && x <= y
  {
    if a == [] {
      assert (a + x)[0] == '/' == (b + y)[0];
      assert x == a + x && y == b + y;
    } else {
      assert (a + x)[0] == a[0] == (b + y)[0];
      assert b != [];
      assert (a + x)[1..] == a[1..] + x && (b + y)[1..] == b[1..] + y;
      ComponentSplit(a[1..], x, b[1..], y);
      assert a == [a[0]] + a[1..] && b == [b[0]] + b[1..];
    }
  }

  lemma {:induction false} PrefixGivesDescent(dir: Path, p: Path)
    requires Clean(dir) && Clean(p) && Joined(dir) + "/" <= Joined(p)
    ensures StrictlyInside(dir, p)
  {
    if dir != [] {
      assert p != [];
      var x, y := Joined(dir[1..]) + "/", Joined(p[1..]);
      assert Joined(dir) + "/" == "/" + (dir[0] + x);
      assert Joined(p) == "/" + (p[0] + y);
      assert ("/" + (dir[0] + x))[1..] == dir[0] + x && ("/" + (p[0] + y))[1..] == p[0] + y;
      ComponentSplit(dir[0], x, p[0], y);
      PrefixGivesDescent(dir[1..], p[1..]);
      assert dir == [dir[0]] + dir[1..] && p == [p[0]] + p[1..];
    }
  }

  /** The string prefix test with a trailing slash is exactly strict descent. */
  lemma PrefixIsStrictDescent(dir: Path, p: Path)
    requires Clean(dir) && Clean(p)
    ensures Joined(dir) + "/" <= Joined(p) <==> StrictlyInside(dir, p)
  {
    if StrictlyInside(dir, p) {
      var rest := p[|dir|..];
      assert p == dir + rest;
      JoinedConcat(dir, rest);
      assert Joined(rest)[0] == '/';
    }
    if Joined(dir) + "/" <= Joined(p) {
      PrefixGivesDescent(dir, p);
    }
  }

  /** The index of the last slash of a string that has one. */
  function LastSlash(s: string): (i: nat)
    requires '/' in s
    ensures i < |s| && s[i] == '/' && forall j :: i < j < |s| ==> s[j] != '/'
  {
    if s[|s| - 1] == '/' then |s| - 1 else LastSlash(s[..|s| - 1])
  }

  /** path.Dir on clean absolute strings. */
  function DirString(s: string): string
    requires '/' in s
  {
    var i := LastSlash(s);
    if i == 0 then "/" else s[..i]
  }

  lemma {:induction false} JoinedNonEmpty(p: Path)
    requires p != []
    ensures Joined(p) != "" && Joined(p)[0] == '/'
    ensures Clean(p) ==> |Joined(p)| >= 2
  {
  }

  /** On rendered paths, path.Dir drops exactly the last component. */
  lemma DirOfRendered(p: Path)
    requires Clean(p)
    ensures '/' in Render(p)
    ensures DirString(Render(p)) == Render(Parent(p))
    ensures p != [] ==> |Render(Parent(p))| < |Render(p)|
  {
    if p == [] {
      assert Render(p)[0] == '/';
    } else {
      var last := p[|p| - 1];
      assert p == Parent(p) + [last];
      JoinedConcat(Parent(p), [last]);
      assert Joined([last]) == "/" + last;
      var s := Render(p);
      var k := |Joined(Parent(p))|;
      assert s == Joined(Parent(p)) + "/" + last;
      assert s[k] == '/';
      assert forall j :: k < j < |s| ==> s[j] == last[j - k - 1];
      assert LastSlash(s) == k;
      if Parent(p) != [] { JoinedNonEmpty(Parent(p)); }
    }
  }

  lemma OnlyRootRendersAsSlash(p: Path)
    requires Clean(p)
    ensures Render(p) == "/" <==> p == []
  {
  }

  /** All the directories of a path, the path itself first and the root last. */
  function Ancestors(p: Path): (r: seq<Path>)
    ensures |r| == |p| + 1
    ensures forall i :: 0 <= i <= |p| ==> r[i] == p[..|p| - i]
  {
    if p == [] then [p] else [p] + Ancestors(Parent(p))
  }

  /** utils.GetDirsForVirtualPath for the clean absolute paths that reach it. */
  method GetDirsForVirtualPath(virtualPath: string, ghost p: Path) returns (dirs: seq<string>)
    requires Clean(p) && virtualPath == Render(p)
    ensures |dirs| == |p| + 1
    ensures forall i :: 0 <= i <= |p| ==> dirs[i] == Render(p[..|p| - i])
  {
    hide Render, DirString, LastSlash;
    var vp := virtualPath;
    dirs := [vp];
    ghost var q := p;
    assert p[..|p|] == p;
    OnlyRootRendersAsSlash(q);
    while vp != "/"
      invariant q <= p && Clean(q) && vp == Render(q) && (vp == "/" <==> q == [])
      invariant |dirs| == |p| - |q| + 1
      invariant forall i :: 0 <= i < |dirs| ==> dirs[i] == Render(p[..|p| - i])
      decreases |vp|
    {
      DirOfRendered(q);
      vp := DirString(vp);
      q := Parent(q);
      assert q == p[..|q|];
      dirs := dirs + [vp];
      OnlyRootRendersAsSlash(q);
    }
  }
}

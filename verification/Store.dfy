/** The storage areas as the server sees them: regular files with a size, and directories.
    Every operation of the underlying filesystem either succeeds or has no effect; the functions
    here are the successful cases and the `Can...` predicates say when the filesystem allows them. */
module Store {
  import opened Paths
  import opened Accounts

  datatype Fs = Fs(files: map<Loc, nat>, dirs: set<Loc>)

  function ParentLoc(l: Loc): Loc {
    Loc(l.container, Parent(l.path))
  }

  /** l is the location r or lies below it. */
  predicate Under(r: Loc, l: Loc) {
    r.container == l.container && r.path <= l.path
  }

  /** The place of k after the subtree s has been moved to d. */
  function Rebase(k: Loc, s: Loc, d: Loc): Loc
    requires Under(s, k)
  {
    Loc(d.container, d.path + k.path[|s.path|..])
  }

  predicate IsDir(fs: Fs, l: Loc) {
    l.path == [] || l in fs.dirs
  }

  predicate Exists(fs: Fs, l: Loc) {
    IsDir(fs, l) || l in fs.files
  }

  predicate Entry(fs: Fs, l: Loc) {
    l in fs.files || l in fs.dirs
  }

  /** Files and directories are different things and everything lies in a directory. */
  ghost predicate Sound(fs: Fs) {
    && (forall l :: l in fs.files ==> l !in fs.dirs)
    && (forall l {:trigger Entry(fs, l)} :: Entry(fs, l) ==> l.path != [] && IsDir(fs, ParentLoc(l)))
  }

  /** Nothing lies below a location that does not exist. */
  lemma {:induction false} NothingBelow(fs: Fs, r: Loc, l: Loc)
    requires Sound(fs) && !Exists(fs, r) && Under(r, l)
    ensures !Exists(fs, l)
    decreases |l.path|
  {
    if l != r {
      assert Under(r, ParentLoc(l));
      NothingBelow(fs, r, ParentLoc(l));
      assert !Entry(fs, l);
    }
  }

  // ---------------------------------------------------------------------------------------------
  // Files

  predicate CanCreate(fs: Fs, l: Loc) {
    l.path != [] && l !in fs.dirs && IsDir(fs, ParentLoc(l))
  }

  /** Create, truncate or extend: the file at l has the given size. */
  function Put(fs: Fs, l: Loc, size: nat): Fs {
    fs.(files := fs.files[l := size])
  }

  function Remove(fs: Fs, l: Loc): Fs {
    fs.(files := fs.files - {l})
  }

  predicate CanMoveFile(fs: Fs, s: Loc, d: Loc) {
    s in fs.files && CanCreate(fs, d)
  }

  function MoveFile(fs: Fs, s: Loc, d: Loc): Fs
    requires s in fs.files
  {
    fs.(files := (fs.files - {s})[d := fs.files[s]])
  }

  /** An existing file can be created again, and so can a missing neighbour of an existing file. */
  lemma FilePlace(fs: Fs, f: Loc, l: Loc)
    requires Sound(fs) && f in fs.files && (l == f || (ParentLoc(l) == ParentLoc(f) && !Exists(fs, l)))
    ensures f.path != [] && CanCreate(fs, l)
  {
    assert Entry(fs, f);
  }

  lemma PutSound(fs: Fs, l: Loc, size: nat)
    requires Sound(fs) && CanCreate(fs, l)
    ensures Sound(Put(fs, l, size))
  {
    assert forall k :: Entry(Put(fs, l, size), k) ==> Entry(fs, k) || k == l;
  }

  lemma RemoveSound(fs: Fs, l: Loc)
    requires Sound(fs)
    ensures Sound(Remove(fs, l))
  {
    assert forall k :: Entry(Remove(fs, l), k) ==> Entry(fs, k);
  }

  lemma MoveFileSound(fs: Fs, s: Loc, d: Loc)
    requires Sound(fs) && CanMoveFile(fs, s, d)
    ensures Sound(MoveFile(fs, s, d))
  {
    assert forall k :: Entry(MoveFile(fs, s, d), k) ==> Entry(fs, k) || k == d;
  }

  // ---------------------------------------------------------------------------------------------
  // Directories

  predicate CanMkdir(fs: Fs, l: Loc) {
    !Exists(fs, l) && IsDir(fs, ParentLoc(l))
  }

  predicate CanRmdir(fs: Fs, l: Loc) {
    && l in fs.dirs
    && (forall k :: k in fs.files ==> ParentLoc(k) != l)
    && (forall k :: k in fs.dirs ==> ParentLoc(k) != l)
  }

  function Mkdir(fs: Fs, l: Loc): Fs {
    fs.(dirs := fs.dirs + {l})
  }

  function Rmdir(fs: Fs, l: Loc): Fs {
    fs.(dirs := fs.dirs - {l})
  }

  lemma MkdirSound(fs: Fs, l: Loc)
    requires Sound(fs) && CanMkdir(fs, l)
    ensures Sound(Mkdir(fs, l))
  {
    assert forall k :: Entry(Mkdir(fs, l), k) ==> Entry(fs, k) || k == l;
  }

  lemma RmdirSound(fs: Fs, l: Loc)
    requires Sound(fs) && CanRmdir(fs, l)
    ensures Sound(Rmdir(fs, l))
  {
    assert forall k :: Entry(Rmdir(fs, l), k) ==> Entry(fs, k);
  }

  /** A directory moves to a place that does not exist, in an existing directory outside itself. */
  predicate CanMoveDir(fs: Fs, s: Loc, d: Loc) {
    s in fs.dirs && !Exists(fs, d) && IsDir(fs, ParentLoc(d)) && !Under(s, d)
  }

  function MoveMap<V>(m: map<Loc, V>, s: Loc, d: Loc): map<Loc, V> {
    (map k | k in m && !Under(s, k) :: m[k]) + Moved(m, s, d)
  }

  /** The entries below s, at their new places. */
  function Moved<V>(m: map<Loc, V>, s: Loc, d: Loc): (r: map<Loc, V>)
    ensures forall k :: k in m && Under(s, k) ==> Rebase(k, s, d) in r && r[Rebase(k, s, d)] == m[k]
    ensures forall l :: l in r ==> Under(d, l) && Rebase(l, d, s) in m && Under(s, Rebase(l, d, s))
                                   && Rebase(Rebase(l, d, s), s, d) == l
  {
    assert forall k :: k in m && Under(s, k) ==> k == Rebase(Rebase(k, s, d), d, s);
    map k | k in m && Under(s, k) :: Rebase(k, s, d) := m[k]
  }

  /** Where an entry of a moved map comes from; maps over the same places move alike. */
  lemma MovedFrom<V, W>(m: map<Loc, V>, n: map<Loc, W>, s: Loc, d: Loc, l: Loc) returns (k: Loc)
    requires m.Keys == n.Keys && l in MoveMap(m, s, d)
    ensures k in m && l in MoveMap(n, s, d) && MoveMap(m, s, d)[l] == m[k] && MoveMap(n, s, d)[l] == n[k]
    ensures if Under(s, k) then Under(d, l) else k == l
  {
    if l in Moved(m, s, d) {
      k := Rebase(l, d, s);
      assert Rebase(k, s, d) == l;
    } else {
      k := l;
    }
  }

  function MoveDir(fs: Fs, s: Loc, d: Loc): Fs {
    Fs(MoveMap(fs.files, s, d),
       (set k | k in fs.dirs && !Under(s, k)) + (set k | k in fs.dirs && Under(s, k) :: Rebase(k, s, d)))
  }

  lemma RebasedParent(k: Loc, s: Loc, d: Loc)
    requires Under(s, k) && k != s
    ensures Under(s, ParentLoc(k)) && ParentLoc(Rebase(k, s, d)) == Rebase(ParentLoc(k), s, d)
  {
  }

  /** The place of an entry after the move. */
  function After(k: Loc, s: Loc, d: Loc): Loc {
    if Under(s, k) then Rebase(k, s, d) else k
  }

  lemma ParentAfterMove(fs: Fs, s: Loc, d: Loc, k: Loc)
    requires Sound(fs) && CanMoveDir(fs, s, d) && Entry(fs, k)
    ensures After(k, s, d).path != [] && IsDir(MoveDir(fs, s, d), ParentLoc(After(k, s, d)))
  {
    if k == s {
      assert Rebase(s, s, d) == d;
    } else if Under(s, k) {
      RebasedParent(k, s, d);
    }
  }

  lemma AfterInjective(fs: Fs, s: Loc, d: Loc, k: Loc, k': Loc)
    requires Sound(fs) && CanMoveDir(fs, s, d) && Exists(fs, k) && Exists(fs, k') && k != k'
    ensures After(k, s, d) != After(k', s, d)
  {
    if Under(s, k) && Under(s, k') {
      assert k == Rebase(Rebase(k, s, d), d, s) && k' == Rebase(Rebase(k', s, d), d, s);
    } else if Under(s, k) {
      assert Under(d, After(k, s, d));
      if Under(d, k') { NothingBelow(fs, d, k'); }
    } else if Under(s, k') {
      assert Under(d, After(k', s, d));
      if Under(d, k) { NothingBelow(fs, d, k); }
    }
  }

  ghost function Before(fs: Fs, s: Loc, d: Loc, l: Loc): (k: Loc)
    requires Entry(MoveDir(fs, s, d), l)
    ensures After(k, s, d) == l
    ensures l in MoveDir(fs, s, d).files ==> k in fs.files
    ensures l !in MoveDir(fs, s, d).files ==> k in fs.dirs
  {
    if l in MoveDir(fs, s, d).files then
      if l in Moved(fs.files, s, d) then Rebase(l, d, s) else l
    else if l in fs.dirs && !Under(s, l) then l
    else var k :| k in fs.dirs && Under(s, k) && Rebase(k, s, d) == l; k
  }

  lemma MoveDirSound(fs: Fs, s: Loc, d: Loc)
    requires Sound(fs) && CanMoveDir(fs, s, d)
    ensures Sound(MoveDir(fs, s, d))
  {
    var fs' := MoveDir(fs, s, d);
    forall l | Entry(fs', l)
      ensures l.path != [] && IsDir(fs', ParentLoc(l))
    {
      ParentAfterMove(fs, s, d, Before(fs, s, d, l));
    }
    forall l | l in fs'.files
      ensures l !in fs'.dirs
    {
      assert Entry(fs', l);
      var k := Before(fs, s, d, l);
      forall k' | k' in fs.dirs
        ensures After(k', s, d) != l
      {
        AfterInjective(fs, s, d, k, k');
      }
    }
  }
}

/** Full scans: fs.GetDirSize and User.ScanQuota (vfs/osfs.go, dataprovider/user.go). */
module Scans {
  import opened Accounts
  import opened Store
  import opened Usages
  import opened Ledger

  /** The walk over a directory, in whatever order the files come. */
  method GetDirSize(fs: Fs, root: Loc) returns (numFiles: int, size: int)
    ensures numFiles == Subtree(Scanned(fs.files), root, Files)
    ensures size == Subtree(Scanned(fs.files), root, Bytes)
  {
    numFiles, size := 0, 0;
    ghost var m := Scanned(fs.files);
    var rest := set l | l in fs.files && Under(root, l);
    assert rest == LocsBelow(m, root);
    while rest != {}
      invariant rest <= m.Keys
      invariant numFiles + Sum(m, rest, Files) == Subtree(m, root, Files)
      invariant size + Sum(m, rest, Bytes) == Subtree(m, root, Bytes)
    {
      var l :| l in rest;
      SumRemove(m, rest, l, Files);
      SumRemove(m, rest, l, Bytes);
      size := size + fs.files[l];
      numFiles := numFiles + 1;
      rest := rest - {l};
    }
  }

  /** The whole of one storage area. */
  method ScanRootDirContents(fs: Fs, c: Container) returns (numFiles: int, size: int)
    ensures numFiles == DiskUsage(fs, {c}, Files) && size == DiskUsage(fs, {c}, Bytes)
  {
    numFiles, size := GetDirSize(fs, Loc(c, []));
    assert LocsBelow(Scanned(fs.files), Loc(c, [])) == LocsIn(Scanned(fs.files), {c});
  }

  function IncludedIn(ms: seq<Mount>): set<Container> {
    {Home} + set m | m in ms && m.IsIncludedInUserQuota() :: Folder(m.name)
  }

  /** The scan visits every area that the user's ledger covers exactly once. */
  method ScanQuota(u: User, fs: Fs) returns (numFiles: int, size: int)
    requires ValidUser(u)
    ensures numFiles == DiskUsage(fs, Covered(u, UserBook), Files)
    ensures size == DiskUsage(fs, Covered(u, UserBook), Bytes)
  {
    numFiles, size := ScanRootDirContents(fs, Home);
    assert IncludedIn(u.mounts[..0]) == {Home};
    for idx := 0 to |u.mounts|
      invariant numFiles == DiskUsage(fs, IncludedIn(u.mounts[..idx]), Files)
      invariant size == DiskUsage(fs, IncludedIn(u.mounts[..idx]), Bytes)
    {
      var v := u.mounts[idx];
      assert u.mounts[..idx + 1] == u.mounts[..idx] + [v];
      if !v.IsIncludedInUserQuota() {
        assert IncludedIn(u.mounts[..idx + 1]) == IncludedIn(u.mounts[..idx]);
        continue;
      }
      var num, s := ScanRootDirContents(fs, Folder(v.name));
      NotYetScanned(u, idx);
      assert IncludedIn(u.mounts[..idx + 1]) == IncludedIn(u.mounts[..idx]) + {Folder(v.name)};
      TotalSplit(Scanned(fs.files), IncludedIn(u.mounts[..idx]), {Folder(v.name)}, Files);
      TotalSplit(Scanned(fs.files), IncludedIn(u.mounts[..idx]), {Folder(v.name)}, Bytes);
      numFiles := numFiles + num;
      size := size + s;
    }
    assert u.mounts[..|u.mounts|] == u.mounts;
  }

  lemma NotYetScanned(u: User, idx: nat)
    requires ValidUser(u) && idx < |u.mounts|
    ensures Folder(u.mounts[idx].name) !in IncludedIn(u.mounts[..idx])
  {
  }
}

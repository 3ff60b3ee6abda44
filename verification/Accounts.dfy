/** A user account: its virtual folders, permissions and limits, and the nearest-ancestor searches
    over them (dataprovider/user.go, vfs/folder.go). */
module Accounts {
  import opened Options
  import opened Paths

  datatype Perm =
    | PermAny | PermList | PermDownload | PermUpload | PermOverwrite | PermDelete | PermRename
    | PermCreateDirs | PermCreateSymlinks | PermChmod | PermChown | PermChtimes

  /** A virtual folder as seen by one user: the name of the shared folder, the virtual path it is
      mounted at and this user's limits for it.  Both limits at -1 mean that the folder is part of
      the user's own quota; 0 means no limit. */
  datatype Mount = Mount(name: string, at: Path, quotaSize: int, quotaFiles: int, local: bool) {
    predicate IsIncludedInUserQuota() {
      quotaFiles == -1 && quotaSize == -1
    }
  }

  datatype User = User(
    mounts: seq<Mount>,
    permissions: map<Path, set<Perm>>,
    quotaSize: int,
    quotaFiles: int,
    maxUploadFileSize: int,
    local: bool)
  {
    predicate HasQuotaRestrictions() {
      quotaFiles > 0 || quotaSize > 0
    }
  }

  /** validateFolderQuotaLimits: both limits are -1, or both are at least 0. */
  predicate ValidFolderLimits(m: Mount) {
    (m.quotaSize == -1 && m.quotaFiles == -1) || (m.quotaSize >= 0 && m.quotaFiles >= 0)
  }

  /** What user validation guarantees of the virtual folders.  Local folders are distinct because
      their mapped paths are; the model asks the same of the others. */
  predicate ValidUser(u: User) {
    && u.quotaSize >= 0 && u.quotaFiles >= 0
    && (forall i :: 0 <= i < |u.mounts| ==> u.mounts[i].at != [] && ValidFolderLimits(u.mounts[i]))
    && (forall i, j :: 0 <= i < j < |u.mounts| ==>
          u.mounts[i].name != u.mounts[j].name && u.mounts[i].at != u.mounts[j].at)
  }

  // ---------------------------------------------------------------------------------------------
  // Virtual folders

  predicate IsVirtualFolder(u: User, p: Path) {
    exists i :: 0 <= i < |u.mounts| && u.mounts[i].at == p
  }

  function FirstMountAt(ms: seq<Mount>, p: Path): (r: Option<Mount>)
    ensures r.Some? ==> r.value in ms && r.value.at == p
    ensures r.None? <==> forall i :: 0 <= i < |ms| ==> ms[i].at != p
  {
    if ms == [] then None
    else if ms[0].at == p then Some(ms[0])
    else FirstMountAt(ms[1..], p)
  }

  /** The mount on the nearest ancestor of p, p itself included. */
  function FolderFor(u: User, p: Path): (r: Option<Mount>)
    ensures r.Some? ==> r.value in u.mounts && r.value.at <= p
  {
    var here := FirstMountAt(u.mounts, p);
    if here.Some? || p == [] then here else FolderFor(u, Parent(p))
  }

  lemma {:induction false} FolderForMeaning(u: User, p: Path)
    ensures FolderFor(u, p).Some? ==>
              forall i :: 0 <= i < |u.mounts| && u.mounts[i].at <= p ==> |u.mounts[i].at| <= |FolderFor(u, p).value.at|
    ensures FolderFor(u, p).None? ==> forall i :: 0 <= i < |u.mounts| ==> !(u.mounts[i].at <= p)
  {
    var here := FirstMountAt(u.mounts, p);
    if here.None? && p != [] {
      FolderForMeaning(u, Parent(p));
      forall i | 0 <= i < |u.mounts| && u.mounts[i].at <= p
        ensures u.mounts[i].at <= Parent(p)
      {
        assert u.mounts[i].at != p;
      }
    }
  }

  /** The inner loop of the search. */
  method FindMountAt(u: User, p: Path) returns (folder: Option<Mount>)
    ensures folder == FirstMountAt(u.mounts, p)
  {
    for idx := 0 to |u.mounts|
      invariant FirstMountAt(u.mounts, p) == FirstMountAt(u.mounts[idx..], p)
    {
      if u.mounts[idx].at == p {
        return Some(u.mounts[idx]);
      }
      assert u.mounts[idx..][1..] == u.mounts[idx + 1..];
    }
    return None;
  }

  /** User.GetVirtualFolderForPath: the search as the server runs it, over the list of ancestors
      and, for each of them, over the folders in order. */
  method GetVirtualFolderForPath(u: User, virtualPath: Path) returns (folder: Option<Mount>)
    ensures folder == FolderFor(u, virtualPath)
    ensures folder.None? ==> forall i :: 0 <= i < |u.mounts| ==> !(u.mounts[i].at <= virtualPath)
    ensures folder.Some? ==>
              && folder.value in u.mounts
              && folder.value.at <= virtualPath
              && forall i :: 0 <= i < |u.mounts| && u.mounts[i].at <= virtualPath ==> |u.mounts[i].at| <= |folder.value.at|
  {
    hide FirstMountAt, Ancestors;
    FolderForMeaning(u, virtualPath);
    if |u.mounts| == 0 {
      return None;
    }
    var dirs := Ancestors(virtualPath);
    assert dirs[0] == virtualPath;
    for index := 0 to |dirs|
      invariant index <= |virtualPath| ==> FolderFor(u, virtualPath) == FolderFor(u, dirs[index])
      invariant index == |dirs| ==> FolderFor(u, virtualPath).None?
    {
      folder := FindMountAt(u, dirs[index]);
      if folder.Some? {
        return;
      }
      assert index < |virtualPath| ==> dirs[index + 1] == Parent(dirs[index]);
    }
    return None;
  }

  /** User.HasVirtualFoldersInside, on strings as written. */
  predicate HasVirtualFoldersInsideString(mountPaths: seq<string>, virtualPath: string) {
    || (virtualPath == "/" && |mountPaths| > 0)
    || exists i :: 0 <= i < |mountPaths| && |mountPaths[i]| > |virtualPath| && virtualPath + "/" <= mountPaths[i]
  }

  predicate HasVirtualFoldersInside(u: User, p: Path) {
    exists i :: 0 <= i < |u.mounts| && StrictlyInside(p, u.mounts[i].at)
  }

  /** The string test finds a folder exactly when some folder is a strict descendant. */
  lemma FoldersInsideIsDescent(u: User, p: Path, mountPaths: seq<string>)
    requires ValidUser(u) && Clean(p) && |mountPaths| == |u.mounts|
    requires forall i :: 0 <= i < |u.mounts| ==> Clean(u.mounts[i].at) && mountPaths[i] == Render(u.mounts[i].at)
    ensures HasVirtualFoldersInsideString(mountPaths, Render(p)) <==> HasVirtualFoldersInside(u, p)
  {
    forall i | 0 <= i < |u.mounts|
      ensures p != [] ==> (Render(p) + "/" <= mountPaths[i] <==> StrictlyInside(p, u.mounts[i].at))
    {
      PrefixIsStrictDescent(p, u.mounts[i].at);
    }
    if p == [] {
      if |u.mounts| > 0 { assert StrictlyInside(p, u.mounts[0].at); }
    } else {
      JoinedNonEmpty(p);
      assert Clean(p) && |Joined(p)| >= 2;
    }
  }

  // ---------------------------------------------------------------------------------------------
  // Where an item is stored

  /** Every storage area: the user's home directory or one shared folder. */
  datatype Container = Home | Folder(name: string)

  datatype Loc = Loc(container: Container, path: Path)

  /** User.GetFilesystemForPath followed by ResolvePath: the item is looked up by its own path. */
  function Resolve(u: User, p: Path): Loc {
    match FolderFor(u, p)
    case None => Loc(Home, p)
    case Some(m) => Loc(Folder(m.name), p[|m.at|..])
  }

  /** The storage area of an item, found from its own path, is the one its ledger entry is found
      from, which is its parent's - exactly when the item is not itself a virtual folder. */
  lemma StorageAndLedgerAgree(u: User, p: Path)
    requires ValidUser(u)
    ensures FolderFor(u, p) == FolderFor(u, Parent(p)) <==> !IsVirtualFolder(u, p)
  {
  }

  lemma ResolvedContainer(u: User, p: Path)
    requires ValidUser(u) && !IsVirtualFolder(u, p)
    ensures Resolve(u, p).container ==
              (if FolderFor(u, Parent(p)).None? then Home else Folder(FolderFor(u, Parent(p)).value.name))
    ensures FolderFor(u, Parent(p)).Some? ==> FolderFor(u, Parent(p)).value in u.mounts
    ensures p != [] ==> Resolve(u, p).path != []
  {
  }

  /** Where an item is: below the longest mounted prefix of its path, at the rest of the path; in the
      home directory when no prefix is mounted. */
  lemma ResolveMeaning(u: User, p: Path)
    ensures (forall i :: 0 <= i < |u.mounts| ==> !(u.mounts[i].at <= p)) ==> Resolve(u, p) == Loc(Home, p)
    ensures forall i :: 0 <= i < |u.mounts| && u.mounts[i].at <= p ==>
              exists m :: m in u.mounts && |m.at| >= |u.mounts[i].at| && p == m.at + Resolve(u, p).path && Resolve(u, p).container == Folder(m.name)
  {
    FolderForMeaning(u, p);
    match FolderFor(u, p)
    case None =>
    case Some(m) => assert p == m.at + p[|m.at|..];
  }

  /** Different virtual paths are different places. */
  lemma ResolveInjective(u: User, p: Path, q: Path)
    requires ValidUser(u) && Resolve(u, p) == Resolve(u, q)
    ensures p == q
  {
    match FolderFor(u, p)
    case None =>
    case Some(m) => assert p == m.at + p[|m.at|..] && q == m.at + q[|m.at|..];
  }

  // ---------------------------------------------------------------------------------------------
  // Permissions

  /** Permissions of the nearest ancestor that has an entry; none when there is no entry. */
  function PermissionsFor(perms: map<Path, set<Perm>>, p: Path): set<Perm> {
    if p in perms then perms[p]
    else if p == [] then {}
    else PermissionsFor(perms, Parent(p))
  }

  /** The permissions are those of the longest prefix with an entry, and none without one. */
  lemma {:induction false} PermissionsMeaning(perms: map<Path, set<Perm>>, p: Path)
    ensures (forall d :: d in perms ==> !(d <= p)) ==> PermissionsFor(perms, p) == {}
    ensures forall d :: d in perms && d <= p && (forall e :: e in perms && e <= p ==> |e| <= |d|) ==> PermissionsFor(perms, p) == perms[d]
  {
    if p !in perms && p != [] {
      PermissionsMeaning(perms, Parent(p));
      forall d | d in perms
        ensures d <= p <==> d <= Parent(p)
      {
        if d <= p { assert d != p && d == p[..|d|]; }
      }
    } else if p in perms {
      assert p <= p;
      assert forall d :: d <= p && |d| >= |p| ==> d == p;
    }
  }

  /** A directory with no entry of its own between it and an ancestor has the ancestor's permissions. */
  lemma {:induction false} PermissionsInherited(perms: map<Path, set<Perm>>, dir: Path, p: Path)
    requires dir <= p
    requires forall d :: d in perms && dir < d ==> !(d <= p)
    ensures PermissionsFor(perms, p) == PermissionsFor(perms, dir)
  {
    if p != dir {
      assert p !in perms;
      assert dir <= Parent(p) && Parent(p) <= p;
      PermissionsInherited(perms, dir, Parent(p));
    }
  }

  /** User.GetPermissionsForPath with its shortcut for accounts that define only root permissions. */
  method GetPermissionsForPath(u: User, p: Path) returns (permissions: set<Perm>)
    ensures permissions == PermissionsFor(u.permissions, p)
  {
    permissions := {};
    if [] in u.permissions {
      if |u.permissions| == 1 {
        permissions := u.permissions[[]];
        OnlyRoot(u.permissions, p);
        return;
      }
      permissions := u.permissions[[]];
    }
    var dirs := Ancestors(p);
    for idx := 0 to |dirs|
      invariant idx <= |p| ==> PermissionsFor(u.permissions, p) == PermissionsFor(u.permissions, dirs[idx])
      invariant idx == |dirs| ==> permissions == PermissionsFor(u.permissions, p)
      invariant permissions == if [] in u.permissions then u.permissions[[]] else {}
    {
      if dirs[idx] in u.permissions {
        permissions := u.permissions[dirs[idx]];
        return;
      }
      if idx < |p| {
        assert dirs[idx + 1] == Parent(dirs[idx]);
      } else {
        assert dirs[idx] == [];
      }
    }
  }

  lemma {:induction false} OnlyRoot(perms: map<Path, set<Perm>>, p: Path)
    requires [] in perms && |perms| == 1
    ensures PermissionsFor(perms, p) == perms[[]]
  {
    assert |perms.Keys - {[]}| == 0;
    assert forall d :: d in perms && d != [] ==> d in perms.Keys - {[]};
    PermissionsInherited(perms, [], p);
  }

  predicate HasPerm(u: User, perm: Perm, p: Path) {
    PermAny in PermissionsFor(u.permissions, p) || perm in PermissionsFor(u.permissions, p)
  }

  predicate HasPerms(u: User, ps: seq<Perm>, p: Path) {
    || PermAny in PermissionsFor(u.permissions, p)
    || forall i :: 0 <= i < |ps| ==> ps[i] in PermissionsFor(u.permissions, p)
  }

  /** User.HasPermissionsInside on strings as written: for "/" the prefix looked for is "//". */
  predicate HasPermissionsInsideString(dirs: set<string>, virtualPath: string) {
    exists d :: d in dirs && (d == virtualPath || (|d| > |virtualPath| && virtualPath + "/" <= d))
  }

  predicate HasPermissionsInside(u: User, p: Path) {
    exists d :: d in u.permissions && p <= d
  }

  lemma JoinedInjective(p: Path, q: Path)
    requires Clean(p) && Clean(q) && Render(p) == Render(q)
    ensures p == q
  {
    if p != [] { JoinedNonEmpty(p); }
    if q != [] { JoinedNonEmpty(q); }
    assert Clean(["x"]);
    JoinedConcat(p, ["x"]);
    JoinedConcat(q, ["x"]);
    if p != [] && q != [] {
      assert Joined(["x"]) == "/x";
      assert Joined(p) + "/" <= Joined(q + ["x"]);
      assert Joined(q) + "/" <= Joined(p + ["x"]);
      PrefixIsStrictDescent(p, q + ["x"]);
      PrefixIsStrictDescent(q, p + ["x"]);
    }
  }

  /** For a user with root permissions, which validation demands, the string test is "an entry at
      or below the path". */
  lemma PermissionsInsideIsDescent(u: User, p: Path)
    requires Clean(p) && [] in u.permissions
    requires forall d :: d in u.permissions ==> Clean(d)
    ensures HasPermissionsInsideString(set d | d in u.permissions :: Render(d), Render(p)) <==> HasPermissionsInside(u, p)
  {
    var dirs := set d | d in u.permissions :: Render(d);
    if p == [] {
      assert Render([]) in dirs;
    } else {
      JoinedNonEmpty(p);
      forall d | d in u.permissions
        ensures Render(p) == Render(d) <==> p == d
        ensures Render(p) + "/" <= Render(d) <==> p < d
      {
        PrefixIsStrictDescent(p, d);
        if Render(p) == Render(d) { JoinedInjective(p, d); }
      }
      if HasPermissionsInside(u, p) {
        var d :| d in u.permissions && p <= d;
        assert Render(d) in dirs;
      }
    }
  }
}

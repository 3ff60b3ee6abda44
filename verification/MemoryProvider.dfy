/** The memory data provider: users, shared folders and the references between them
    (dataprovider/memory.go).  Every public call is atomic, as its lock makes it. */
module MemoryProvider {
  import opened Names

  /** A folder as one user refers to it.  `info` stands for the fields copied from the folder. */
  datatype UserFolder = UserFolder(name: string, info: string, virtualPath: string)

  datatype User = User(username: string, id: int, folders: seq<UserFolder>, usedFiles: int, usedSize: int, info: string)

  datatype Folder = Folder(name: string, id: int, info: string, usedFiles: int, usedSize: int, users: seq<string>)

  type Folders = map<string, Folder>

  /** Which folders each user refers to. */
  type Wanted = map<string, set<string>>

  function FolderNames(fs: seq<UserFolder>): set<string> {
    set f | f in fs :: f.name
  }

  function WantedBy(users: map<string, User>): Wanted {
    map u | u in users :: FolderNames(users[u].folders)
  }

  // ---------------------------------------------------------------------------------------------
  // References between users and folders

  predicate NoDuplicates(s: seq<string>) {
    forall i, j :: 0 <= i < j < |s| ==> s[i] != s[j]
  }

  predicate Refers(w: Wanted, u: string, f: string) {
    u in w && f in w[u]
  }

  /** A user is listed by exactly the folders it refers to, once each, and those folders exist. */
  ghost predicate Linked(fs: Folders, w: Wanted) {
    && (forall f :: f in fs ==> fs[f].name == f && NoDuplicates(fs[f].users))
    && (forall f, u :: f in fs ==> (u in fs[f].users <==> Refers(w, u, f)))
    && (forall f, u :: Refers(w, u, f) ==> f in fs)
  }

  function Without(s: seq<string>, x: string): seq<string> {
    if s == [] then [] else if s[0] == x then Without(s[1..], x) else [s[0]] + Without(s[1..], x)
  }

  lemma {:induction false} WithoutMeaning(s: seq<string>, x: string)
    ensures forall y :: y in Without(s, x) <==> y in s && y != x
    ensures NoDuplicates(s) ==> NoDuplicates(Without(s, x))
  {
    if s != [] {
      WithoutMeaning(s[1..], x);
      assert s == [s[0]] + s[1..];
      if NoDuplicates(s) {
        assert forall i :: 0 <= i < |s[1..]| ==> s[1..][i] == s[i + 1];
        assert s[0] !in s[1..];
        assert NoDuplicates(s[1..]);
      }
    }
  }

  /** removeUserFromFolderMapping. */
  function Unlink(fs: Folders, f: string, u: string): Folders {
    if f in fs then fs[f := fs[f].(users := Without(fs[f].users, u))] else fs
  }

  lemma UnlinkLinked(fs: Folders, w: Wanted, f: string, u: string)
    requires Linked(fs, w) && u in w
    ensures Linked(Unlink(fs, f, u), w[u := w[u] - {f}])
    ensures Unlink(fs, f, u).Keys == fs.Keys
  {
    var fs', w' := Unlink(fs, f, u), w[u := w[u] - {f}];
    if f in fs {
      WithoutMeaning(fs[f].users, u);
    }
    forall g, v
      ensures Refers(w', v, g) <==> Refers(w, v, g) && !(v == u && g == f)
      ensures g in fs' ==> (v in fs'[g].users <==> Refers(w', v, g))
    {
      assert g in fs ==> (v in fs[g].users <==> Refers(w, v, g));
    }
  }

  /** addOrUpdateFolderInternal: the folder is created when it does not exist. */
  function Link(fs: Folders, f: string, info: string, u: string, newId: int): Folders {
    if f in fs then
      fs[f := fs[f].(info := info, users := if u in fs[f].users then fs[f].users else fs[f].users + [u])]
    else
      fs[f := Folder(f, newId, info, 0, 0, [u])]
  }

  lemma LinkLinked(fs: Folders, w: Wanted, f: string, info: string, u: string, newId: int)
    requires Linked(fs, w) && u in w
    ensures Linked(Link(fs, f, info, u, newId), w[u := w[u] + {f}])
  {
    var fs', w' := Link(fs, f, info, u, newId), w[u := w[u] + {f}];
    forall g, v
      ensures Refers(w', v, g) <==> Refers(w, v, g) || (v == u && g == f)
      ensures g in fs' ==> (v in fs'[g].users <==> Refers(w', v, g))
    {
      assert g in fs ==> (v in fs[g].users <==> Refers(w, v, g));
      assert g !in fs ==> !Refers(w, v, g);
    }
  }

  /** The fields of a folder after the given mentions of folders, the last mention of it deciding. */
  function InfoAfter(mentions: seq<UserFolder>, f: string, info: string): string {
    if mentions == [] then info
    else
      var last := mentions[|mentions| - 1];
      if last.name == f then last.info else InfoAfter(mentions[..|mentions| - 1], f, info)
  }

  predicate CarriedFolder(before: Folders, mentions: seq<UserFolder>, f: string, now: Folder) {
    if f in before then
      && now.id == before[f].id && now.usedFiles == before[f].usedFiles && now.usedSize == before[f].usedSize
      && now.info == InfoAfter(mentions, f, before[f].info)
    else
      now.usedFiles == now.usedSize == 0 && now.info == InfoAfter(mentions, f, now.info)
  }

  /** Apart from the lists of users: mentioned folders exist and have the last mentioned fields,
      every other field and every other folder stays as it was, and a created folder is unused. */
  ghost predicate Carried(before: Folders, after: Folders, mentions: seq<UserFolder>) {
    && after.Keys == before.Keys + FolderNames(mentions)
    && forall f :: f in after ==> CarriedFolder(before, mentions, f, after[f])
  }

  lemma CarriedNothing(before: Folders)
    ensures Carried(before, before, [])
  {
  }

  /** One more mention. */
  lemma CarriedMention(before: Folders, fs: Folders, mentions: seq<UserFolder>, m: UserFolder, folder: Folder)
    requires Carried(before, fs, mentions) && folder.info == m.info
    requires if m.name in fs then folder.id == fs[m.name].id && folder.usedFiles == fs[m.name].usedFiles && folder.usedSize == fs[m.name].usedSize
             else folder.usedFiles == folder.usedSize == 0
    ensures Carried(before, fs[m.name := folder], mentions + [m])
  {
  }

  /** A change of a list of users alone. */
  lemma CarriedUsers(before: Folders, fs: Folders, mentions: seq<UserFolder>, f: string, listed: seq<string>)
    requires Carried(before, fs, mentions) && f in fs
    ensures Carried(before, fs[f := fs[f].(users := listed)], mentions)
  {
  }

  lemma CarriedOn(a: Folders, b: Folders, c: Folders, mentions: seq<UserFolder>)
    requires Carried(a, b, []) && Carried(b, c, mentions)
    ensures Carried(a, c, mentions)
  {
  }

  // ---------------------------------------------------------------------------------------------
  // Identifiers

  predicate FolderIdsDistinct(fs: Folders) {
    forall f, g :: f in fs && g in fs && f != g ==> fs[f].id != fs[g].id
  }

  predicate UserIdsDistinct(us: map<string, User>) {
    forall u, v :: u in us && v in us && u != v ==> us[u].id != us[v].id
  }

  predicate NamedByKey(us: map<string, User>) {
    forall u :: u in us ==> us[u].username == u
  }

  method NextUserId(us: map<string, User>) returns (nextId: int)
    ensures nextId >= 1 && forall u :: u in us ==> us[u].id < nextId
  {
    nextId := 1;
    var rest := us.Keys;
    while rest != {}
      invariant rest <= us.Keys && nextId >= 1
      invariant forall u :: u in us && u !in rest ==> us[u].id < nextId
    {
      var u :| u in rest;
      rest := rest - {u};
      if us[u].id >= nextId {
        nextId := us[u].id + 1;
      }
    }
  }

  method NextFolderId(fs: Folders) returns (nextId: int)
    ensures nextId >= 1 && forall f :: f in fs ==> fs[f].id < nextId
  {
    nextId := 1;
    var rest := fs.Keys;
    while rest != {}
      invariant rest <= fs.Keys && nextId >= 1
      invariant forall f :: f in fs && f !in rest ==> fs[f].id < nextId
    {
      var f :| f in rest;
      rest := rest - {f};
      if fs[f].id >= nextId {
        nextId := fs[f].id + 1;
      }
    }
  }

  // ---------------------------------------------------------------------------------------------
  // The provider

  class Provider {
    var users: map<string, User>
    var usernames: seq<string>
    var vfolders: Folders
    var vfoldersNames: seq<string>

    /** The folder side of the integrity, for a given picture of who refers to what. */
    ghost predicate FoldersValid(w: Wanted)
      reads this`vfolders, this`vfoldersNames
    {
      Linked(vfolders, w) && FolderIdsDistinct(vfolders) && Enumerates(vfoldersNames, vfolders.Keys)
    }

    ghost predicate UsersValid()
      reads this`users, this`usernames
    {
      NamedByKey(users) && UserIdsDistinct(users) && Enumerates(usernames, users.Keys)
    }

    /** Referential integrity. */
    ghost predicate Valid()
      reads this
    {
      UsersValid() && FoldersValid(WantedBy(users))
    }

    constructor ()
      ensures Valid() && users == map[] && vfolders == map[]
    {
      users, usernames, vfolders, vfoldersNames := map[], [], map[], [];
    }

    // -------------------------------------------------------------------------------------------
    // Folder mappings

    method RemoveUserFromFolderMapping(f: string, u: string, ghost w: Wanted)
      requires FoldersValid(w) && u in w
      modifies this`vfolders
      ensures FoldersValid(w[u := w[u] - {f}])
      ensures forall before, mentions :: Carried(before, old(vfolders), mentions) ==> Carried(before, vfolders, mentions)
    {
      hide Linked, Without, Carried;
      UnlinkLinked(vfolders, w, f, u);
      if f in vfolders {
        var remaining := NamesWithout(vfolders[f].users, u);
        forall before, mentions | Carried(before, vfolders, mentions)
          ensures Carried(before, vfolders[f := vfolders[f].(users := remaining)], mentions)
        {
          CarriedUsers(before, vfolders, mentions, f, remaining);
        }
        vfolders := vfolders[f := vfolders[f].(users := remaining)];
      }
    }

    method AddOrUpdateFolder(f: string, info: string, u: string, ghost w: Wanted) returns (folder: Folder)
      requires FoldersValid(w) && u in w
      modifies this`vfolders, this`vfoldersNames
      ensures FoldersValid(w[u := w[u] + {f}])
      ensures vfolders == old(vfolders)[f := folder] && folder.name == f && folder.info == info
      ensures if f in old(vfolders) then
                && folder.id == old(vfolders)[f].id
                && folder.usedFiles == old(vfolders)[f].usedFiles && folder.usedSize == old(vfolders)[f].usedSize
              else folder.usedFiles == folder.usedSize == 0
    {
      assert Linked(vfolders, w);
      hide Enumerates, Refers;
      if f in vfolders {
        LinkLinked(vfolders, w, f, info, u, 0);
        folder := vfolders[f].(info := info);
        if u !in folder.users {
          folder := folder.(users := folder.users + [u]);
        }
        assert vfolders[f := folder].Keys == vfolders.Keys;
        vfolders := vfolders[f := folder];
      } else {
        var nextId := NextFolderId(vfolders);
        LinkLinked(vfolders, w, f, info, u, nextId);
        folder := Folder(f, nextId, info, 0, 0, [u]);
        vfoldersNames := AddedName(vfoldersNames, vfolders.Keys, f);
        assert vfolders[f := folder].Keys == vfolders.Keys + {f};
        vfolders := vfolders[f := folder];
      }
    }

    /** joinVirtualFoldersFields: every folder of the user is created or updated and lists the user. */
    method JoinVirtualFoldersFields(u: string, wanted: seq<UserFolder>, ghost w: Wanted) returns (folders: seq<UserFolder>)
      requires FoldersValid(w) && u in w
      modifies this`vfolders, this`vfoldersNames
      ensures FoldersValid(w[u := w[u] + FolderNames(wanted)])
      ensures folders == wanted && Carried(old(vfolders), vfolders, wanted)
    {
      hide Linked, Enumerates, FolderIdsDistinct, Carried;
      folders := [];
      CarriedNothing(vfolders);
      assert w[u] + FolderNames(wanted[..0]) == w[u];
      assert w == w[u := w[u] + FolderNames(wanted[..0])];
      for idx := 0 to |wanted|
        invariant FoldersValid(w[u := w[u] + FolderNames(wanted[..idx])])
        invariant folders == wanted[..idx] && Carried(old(vfolders), vfolders, wanted[..idx])
      {
        var folder := wanted[idx];
        ghost var fs := vfolders;
        ghost var w' := w[u := w[u] + FolderNames(wanted[..idx])];
        var f := AddOrUpdateFolder(folder.name, folder.info, u, w');
        NamesOneMore(wanted, idx);
        CarriedMention(old(vfolders), fs, wanted[..idx], folder, f);
        folders := folders + [folder.(info := f.info)];
        assert wanted[..idx] + [folder] == wanted[..idx + 1];
        assert w'[u] + {folder.name} == w[u] + FolderNames(wanted[..idx + 1]);
        assert w'[u := w'[u] + {folder.name}] == w[u := w[u] + FolderNames(wanted[..idx + 1])];
      }
      assert wanted[..|wanted|] == wanted;
    }

    /** The first half of updateUser and deleteUser: no folder lists the user any more. */
    method RemoveFromAllFolders(u: string, folders: seq<UserFolder>, ghost w: Wanted)
      requires FoldersValid(w) && u in w && w[u] == FolderNames(folders)
      modifies this`vfolders
      ensures FoldersValid(w[u := {}]) && Carried(old(vfolders), vfolders, [])
    {
      hide Linked, Enumerates, FolderIdsDistinct, Carried;
      CarriedNothing(vfolders);
      assert w[u] - FolderNames(folders[..0]) == w[u];
      assert w == w[u := w[u] - FolderNames(folders[..0])];
      for idx := 0 to |folders|
        invariant FoldersValid(w[u := w[u] - FolderNames(folders[..idx])]) && Carried(old(vfolders), vfolders, [])
      {
        ghost var w' := w[u := w[u] - FolderNames(folders[..idx])];
        RemoveUserFromFolderMapping(folders[idx].name, u, w');
        NamesOneMore(folders, idx);
        assert w'[u] - {folders[idx].name} == w[u] - FolderNames(folders[..idx + 1]);
        assert w'[u := w'[u] - {folders[idx].name}] == w[u := w[u] - FolderNames(folders[..idx + 1])];
      }
      assert folders[..|folders|] == folders;
      assert w[u] - FolderNames(folders) == {};
    }

    method Relink(u: string, existing: seq<UserFolder>, wanted: seq<UserFolder>, ghost w: Wanted) returns (folders: seq<UserFolder>)
      requires FoldersValid(w) && u in w && w[u] == FolderNames(existing)
      modifies this`vfolders, this`vfoldersNames
      ensures FoldersValid(w[u := FolderNames(wanted)]) && folders == wanted && Carried(old(vfolders), vfolders, wanted)
    {
      hide Linked, Enumerates, FolderIdsDistinct, Carried;
      RemoveFromAllFolders(u, existing, w);
      ghost var fs := vfolders;
      folders := JoinVirtualFoldersFields(u, wanted, w[u := {}]);
      CarriedOn(old(vfolders), fs, vfolders, wanted);
      assert w[u := {}][u] + FolderNames(wanted) == FolderNames(wanted);
      assert w[u := {}][u := w[u := {}][u] + FolderNames(wanted)] == w[u := FolderNames(wanted)];
    }

    // -------------------------------------------------------------------------------------------
    // Users

    method AddUser(user: User) returns (ok: bool)
      requires Valid()
      modifies this
      ensures Valid() && ok == (user.username !in old(users))
      ensures !ok ==> users == old(users) && vfolders == old(vfolders)
      ensures ok ==> user.username in users && Carried(old(vfolders), vfolders, user.folders)
      ensures ok ==> var id := users[user.username].id;
                     users == old(users)[user.username := user.(id := id, usedFiles := 0, usedSize := 0)]
    {
      if user.username in users {
        return false;
      }
      hide Linked, Enumerates, FolderIdsDistinct, Carried;
      var u := user.username;
      var id := NextUserId(users);
      ghost var w := WantedBy(users)[u := {}];
      LinkedNewUser(vfolders, WantedBy(users), u);
      var folders := JoinVirtualFoldersFields(u, user.folders, w);
      assert w[u] + FolderNames(user.folders) == FolderNames(folders);
      assert w[u := w[u] + FolderNames(user.folders)] == WantedBy(users)[u := FolderNames(folders)];
      var stored := user.(id := id, usedFiles := 0, usedSize := 0, folders := folders);
      WantedUpdate(users, u, stored);
      NamedUpdate(users, stored);
      hide NamedByKey;
      usernames := AddedName(usernames, users.Keys, u);
      assert users[u := stored].Keys == users.Keys + {u};
      users := users[u := stored];
      ok := true;
    }

    method UpdateUser(user: User) returns (ok: bool)
      requires Valid()
      modifies this
      ensures Valid() && ok == (user.username in old(users))
      ensures !ok ==> users == old(users) && vfolders == old(vfolders)
      ensures ok ==> Carried(old(vfolders), vfolders, user.folders)
      ensures ok ==> var o := old(users)[user.username];
                     users == old(users)[user.username := user.(id := o.id, usedFiles := o.usedFiles, usedSize := o.usedSize)]
    {
      if user.username !in users {
        return false;
      }
      hide Linked, Enumerates, FolderIdsDistinct, Carried;
      var u := user.username;
      var existing := users[u];
      var folders := Relink(u, existing.folders, user.folders, WantedBy(users));
      hide WantedBy, UserIdsDistinct, NamedByKey;
      var stored := User(u, existing.id, folders, existing.usedFiles, existing.usedSize, user.info);
      WantedUpdate(users, u, stored);
      NamedUpdate(users, stored);
      IdsKept(users, users[u := stored]);
      assert users[u := stored].Keys == users.Keys;
      users := users[u := stored];
      ok := true;
    }

    method DeleteUser(u: string) returns (ok: bool)
      requires Valid()
      modifies this
      ensures Valid() && ok == (u in old(users)) && users == old(users) - {u} && Carried(old(vfolders), vfolders, [])
    {
      hide Linked, Enumerates, FolderIdsDistinct, UserIdsDistinct, Carried;
      if u !in users {
        CarriedNothing(vfolders);
        return false;
      }
      IdsOfFewer(users, u);
      ghost var w := WantedBy(users);
      RemoveFromAllFolders(u, users[u].folders, w);
      LinkedDropUser(vfolders, w, u);
      assert WantedBy(users - {u}) == w - {u};
      users := users - {u};
      usernames := SortedNames(users.Keys);
      ok := true;
    }

    method UpdateQuota(u: string, filesAdd: int, sizeAdd: int, reset: bool) returns (ok: bool)
      requires Valid()
      modifies this`users
      ensures Valid() && ok == (u in old(users))
      ensures users == if ok then
                  var o := old(users)[u];
                  old(users)[u := o.(usedFiles := if reset then filesAdd else o.usedFiles + filesAdd,
                                     usedSize := if reset then sizeAdd else o.usedSize + sizeAdd)]
                else old(users)
    {
      if u !in users {
        return false;
      }
      hide Linked, Enumerates, UserIdsDistinct;
      var user := users[u];
      if reset {
        user := user.(usedSize := sizeAdd, usedFiles := filesAdd);
      } else {
        user := user.(usedSize := user.usedSize + sizeAdd, usedFiles := user.usedFiles + filesAdd);
      }
      WantedUpdate(users, u, user);
      assert WantedBy(users)[u := FolderNames(user.folders)] == WantedBy(users);
      IdsKept(users, users[u := user]);
      assert users[u := user].Keys == users.Keys;
      users := users[u := user];
      ok := true;
    }

    // -------------------------------------------------------------------------------------------
    // Folders

    method AddFolder(given: Folder) returns (ok: bool)
      requires Valid()
      modifies this`vfolders, this`vfoldersNames
      ensures Valid() && ok == (given.name !in old(vfolders))
      ensures !ok ==> vfolders == old(vfolders)
      ensures ok ==> given.name in vfolders && var id := vfolders[given.name].id;
                     vfolders == old(vfolders)[given.name := given.(id := id, users := [])]
    {
      var name := given.name;
      if name in vfolders {
        return false;
      }
      var id := NextFolderId(vfolders);
      var folder := given.(id := id, users := []);
      LinkedNewFolder(vfolders, WantedBy(users), folder);
      hide Linked, Enumerates, WantedBy;
      vfoldersNames := AddedName(vfoldersNames, vfolders.Keys, name);
      assert vfolders[name := folder].Keys == vfolders.Keys + {name};
      vfolders := vfolders[name := folder];
      ok := true;
    }

    method UpdateFolderQuota(name: string, filesAdd: int, sizeAdd: int, reset: bool) returns (ok: bool)
      requires Valid()
      modifies this`vfolders
      ensures Valid() && ok == (name in old(vfolders))
      ensures vfolders == if ok then
                  var o := old(vfolders)[name];
                  old(vfolders)[name := o.(usedFiles := if reset then filesAdd else o.usedFiles + filesAdd,
                                           usedSize := if reset then sizeAdd else o.usedSize + sizeAdd)]
                else old(vfolders)
    {
      if name !in vfolders {
        return false;
      }
      LinkedFolder(vfolders, WantedBy(users), name);
      hide Linked, Enumerates, WantedBy;
      var folder := vfolders[name];
      if reset {
        folder := folder.(usedSize := sizeAdd, usedFiles := filesAdd);
      } else {
        folder := folder.(usedSize := folder.usedSize + sizeAdd, usedFiles := folder.usedFiles + filesAdd);
      }
      LinkedSameUsers(vfolders, WantedBy(users), name, folder);
      assert vfolders[name := folder].Keys == vfolders.Keys;
      vfolders := vfolders[name := folder];
      ok := true;
    }

    /** updateFolder: the new fields reach the folder and every user that refers to it. */
    method UpdateFolder(name: string, info: string) returns (ok: bool)
      requires Valid()
      modifies this`vfolders, this`users
      ensures Valid() && ok == (name in old(vfolders))
      ensures !ok ==> vfolders == old(vfolders) && users == old(users)
      ensures ok ==> vfolders == old(vfolders)[name := old(vfolders)[name].(info := info)]
      ensures ok ==> users.Keys == old(users).Keys
                     && forall u :: u in users ==>
                          && users[u] == old(users)[u].(folders := users[u].folders)
                          && FieldsReach(old(users)[u].folders, users[u].folders, name, info)
    {
      if name !in vfolders {
        return false;
      }
      hide Linked, Enumerates, WantedBy, NoDuplicates, Refreshed, FieldsReach, UserIdsDistinct, FolderIdsDistinct, NamedByKey;
      FolderIdsKept(vfolders, name, vfolders[name].(info := info));
      LinkedFolder(vfolders, WantedBy(users), name);
      var folder := vfolders[name].(info := info);
      LinkedSameUsers(vfolders, WantedBy(users), name, folder);
      var updated := RefreshUsers(users, folder.users, name, info);
      RefreshKeeps(vfolders, users, updated, name, info);
      IdsKept(users, updated);
      NamesKept(users, updated);
      assert vfolders[name := folder].Keys == vfolders.Keys;
      vfolders := vfolders[name := folder];
      users := updated;
      ok := true;
    }

    /** deleteFolder: the folder goes, and with it every reference to it. */
    method DeleteFolder(name: string) returns (ok: bool)
      requires Valid()
      modifies this`vfolders, this`vfoldersNames, this`users
      ensures Valid() && ok == (name in old(vfolders)) && vfolders == old(vfolders) - {name}
      ensures users.Keys == old(users).Keys
      ensures forall u :: u in users ==>
                && users[u] == old(users)[u].(folders := users[u].folders)
                && RestInOrder(old(users)[u].folders, users[u].folders, name)
    {
      hide Linked, Enumerates, WantedBy, NoDuplicates, Dropped, RestInOrder, UserIdsDistinct;
      if name !in vfolders {
        NobodyRefers(vfolders, users, name);
        return false;
      }
      LinkedFolder(vfolders, WantedBy(users), name);
      var updated := DropFromUsers(users, vfolders[name].users, name);
      DropKeeps(vfolders, users, updated, name);
      IdsKept(users, updated);
      users := updated;
      vfolders := vfolders - {name};
      vfoldersNames := SortedNames(vfolders.Keys);
      ok := true;
    }

    method Clear()
      modifies this
      ensures Valid() && users == map[] && vfolders == map[]
    {
      users, usernames, vfolders, vfoldersNames := map[], [], map[], [];
    }

    /** restoreFolders: the dumped folders and no others, without users, with the used quota of the
        first record of each and the other fields of the last. */
    method RestoreFolders(dumped: seq<Folder>)
      requires Valid() && users == map[] && vfolders == map[]
      modifies this
      ensures Valid() && users == map[] && FoldersAsDumped(vfolders, dumped)
    {
      hide Linked, Enumerates, FolderIdsDistinct, WantedBy, UsersValid, FoldersAsDumped;
      NoFolderDumped(vfolders);
      for i := 0 to |dumped|
        invariant Valid() && users == map[] && FoldersAsDumped(vfolders, dumped[..i])
      {
        var f := dumped[i];
        ghost var before := vfolders;
        assert dumped[..i + 1] == dumped[..i] + [f];
        if f.name in vfolders {
          var _ := UpdateFolder(f.name, f.info);
          NoUsers(users);
        } else {
          var _ := AddFolder(f);
        }
        OneMoreFolder(before, vfolders, dumped[..i], f);
      }
      assert dumped[..|dumped|] == dumped;
    }

    /** restoreUsers: every dumped user as its last record has it, except for the identifier and the
        used quota, and no other user.  Folders keep their identifiers and used quota. */
    method RestoreUsers(dumped: seq<User>)
      requires Valid() && users == map[]
      modifies this
      ensures Valid() && AsDumped(users, dumped) && SameUse(old(vfolders), vfolders)
    {
      hide Linked, Enumerates, FolderIdsDistinct, WantedBy, UsersValid, AsDumped, Carried, SameUse;
      NothingDumped(users);
      SameUseAtOnce(vfolders);
      for i := 0 to |dumped|
        invariant Valid() && AsDumped(users, dumped[..i]) && SameUse(old(vfolders), vfolders)
      {
        ghost var before, folders := users, vfolders;
        assert dumped[..i + 1] == dumped[..i] + [dumped[i]];
        if dumped[i].username in users {
          var _ := UpdateUser(dumped[i]);
        } else {
          var _ := AddUser(dumped[i]);
        }
        OneMoreDumped(before, users, dumped[..i], dumped[i]);
        CarriedSameUse(old(vfolders), folders, vfolders, dumped[i].folders);
      }
      assert dumped[..|dumped|] == dumped;
    }

    /** reloadConfig: whatever names the dump repeats and whichever folders it leaves out, the
        provider is consistent, has exactly the dumped users, and every dumped folder with the used
        quota it was dumped with. */
    method Restore(dumpedFolders: seq<Folder>, dumpedUsers: seq<User>)
      modifies this
      ensures Valid() && AsDumped(users, dumpedUsers)
      ensures forall f :: FirstFolder(dumpedFolders, f) != [] ==>
                && f in vfolders
                && vfolders[f].usedFiles == FirstFolder(dumpedFolders, f)[0].usedFiles
                && vfolders[f].usedSize == FirstFolder(dumpedFolders, f)[0].usedSize
    {
      hide Linked, Enumerates, FolderIdsDistinct, WantedBy, AsDumped;
      Clear();
      RestoreFolders(dumpedFolders);
      RestoreUsers(dumpedUsers);
    }
  }

  /** The first and the last record of a folder in a dump. */
  function FirstFolder(dumped: seq<Folder>, name: string): seq<Folder> {
    if dumped == [] then []
    else
      var earlier := FirstFolder(dumped[..|dumped| - 1], name);
      if earlier != [] then earlier else if dumped[|dumped| - 1].name == name then [dumped[|dumped| - 1]] else []
  }

  function LastFolder(dumped: seq<Folder>, name: string): seq<Folder> {
    if dumped == [] then []
    else if dumped[|dumped| - 1].name == name then [dumped[|dumped| - 1]]
    else LastFolder(dumped[..|dumped| - 1], name)
  }

  ghost predicate FoldersAsDumped(fs: Folders, dumped: seq<Folder>) {
    forall f :: var first, last := FirstFolder(dumped, f), LastFolder(dumped, f);
      if f in fs then
        && first != [] && last != []
        && fs[f] == Folder(f, fs[f].id, last[0].info, first[0].usedFiles, first[0].usedSize, [])
      else first == []
  }

  lemma NoFolderDumped(fs: Folders)
    requires fs == map[]
    ensures FoldersAsDumped(fs, [])
  {
  }

  lemma OneMoreFolder(before: Folders, fs: Folders, dumped: seq<Folder>, d: Folder)
    requires FoldersAsDumped(before, dumped) && d.name in fs
    requires fs[d.name] == if d.name in before then before[d.name].(info := d.info) else d.(id := fs[d.name].id, users := [])
    requires fs == before[d.name := fs[d.name]]
    ensures FoldersAsDumped(fs, dumped + [d])
  {
    assert (dumped + [d])[..|dumped|] == dumped;
  }

  /** The folders there were are there still, with their identifiers and used quota. */
  ghost predicate SameUse(before: Folders, after: Folders) {
    forall f :: f in before ==>
      && f in after && after[f].id == before[f].id
      && after[f].usedFiles == before[f].usedFiles && after[f].usedSize == before[f].usedSize
  }

  lemma SameUseAtOnce(fs: Folders)
    ensures SameUse(fs, fs)
  {
  }

  lemma CarriedSameUse(a: Folders, b: Folders, c: Folders, mentions: seq<UserFolder>)
    requires SameUse(a, b) && Carried(b, c, mentions)
    ensures SameUse(a, c)
  {
  }

  /** The last record of a user in a dump. */
  function LastRecord(dumped: seq<User>, u: string): seq<User> {
    if dumped == [] then []
    else if dumped[|dumped| - 1].username == u then [dumped[|dumped| - 1]]
    else LastRecord(dumped[..|dumped| - 1], u)
  }

  predicate SameRecord(stored: User, dumped: User) {
    stored == dumped.(id := stored.id, usedFiles := stored.usedFiles, usedSize := stored.usedSize)
  }

  ghost predicate AsDumped(us: map<string, User>, dumped: seq<User>) {
    forall u :: var r := LastRecord(dumped, u);
      if u in us then r != [] && SameRecord(us[u], r[0]) else r == []
  }

  lemma NothingDumped(us: map<string, User>)
    requires us == map[]
    ensures AsDumped(us, [])
  {
  }

  lemma OneMoreDumped(before: map<string, User>, us: map<string, User>, dumped: seq<User>, d: User)
    requires AsDumped(before, dumped) && d.username in us && SameRecord(us[d.username], d)
    requires us == before[d.username := us[d.username]]
    ensures AsDumped(us, dumped + [d])
  {
  }

  lemma NoUsers(us: map<string, User>)
    requires us.Keys == {}
    ensures us == map[]
  {
  }

  // ---------------------------------------------------------------------------------------------
  // Facts about names and references

  method NamesWithout(listed: seq<string>, u: string) returns (r: seq<string>)
    ensures r == Without(listed, u)
  {
    r := [];
    for i := 0 to |listed|
      invariant Without(listed, u) == r + Without(listed[i..], u)
    {
      assert listed[i..][1..] == listed[i + 1..];
      if listed[i] != u {
        r := r + [listed[i]];
      }
    }
  }

  method AddedName(names: seq<string>, ghost keys: set<string>, x: string) returns (r: seq<string>)
    requires Enumerates(names, keys) && x !in keys
    ensures Enumerates(r, keys + {x})
  {
    r := InsertName(names, x);
  }

  lemma NamesOneMore(fs: seq<UserFolder>, idx: nat)
    requires idx < |fs|
    ensures FolderNames(fs[..idx + 1]) == FolderNames(fs[..idx]) + {fs[idx].name}
  {
  }

  lemma WantedUpdate(us: map<string, User>, u: string, user: User)
    ensures WantedBy(us[u := user]) == WantedBy(us)[u := FolderNames(user.folders)]
  {
  }

  lemma LinkedAlike(fs: Folders, w: Wanted, w': Wanted)
    requires Linked(fs, w) && forall u, f :: Refers(w', u, f) <==> Refers(w, u, f)
    ensures Linked(fs, w')
  {
  }

  lemma LinkedNewUser(fs: Folders, w: Wanted, u: string)
    requires Linked(fs, w) && u !in w
    ensures Linked(fs, w[u := {}])
  {
    LinkedAlike(fs, w, w[u := {}]);
  }

  lemma LinkedDropUser(fs: Folders, w: Wanted, u: string)
    requires Linked(fs, w[u := {}])
    ensures Linked(fs, w - {u})
  {
    LinkedAlike(fs, w[u := {}], w - {u});
  }

  lemma LinkedNewFolder(fs: Folders, w: Wanted, folder: Folder)
    requires Linked(fs, w) && folder.name !in fs && folder.users == []
    ensures Linked(fs[folder.name := folder], w)
  {
  }

  lemma LinkedSameUsers(fs: Folders, w: Wanted, name: string, folder: Folder)
    requires Linked(fs, w) && name in fs && folder.name == name && folder.users == fs[name].users
    ensures Linked(fs[name := folder], w)
  {
  }

  lemma NobodyRefers(fs: Folders, us: map<string, User>, name: string)
    requires Linked(fs, WantedBy(us)) && name !in fs
    ensures forall u :: u in us ==> RestInOrder(us[u].folders, us[u].folders, name)
  {
    forall u | u in us
      ensures RestInOrder(us[u].folders, us[u].folders, name)
    {
      assert !Refers(WantedBy(us), u, name);
      DroppedNames(us[u].folders, name);
      DroppedRest(us[u].folders, name);
    }
  }

  lemma LinkedFolder(fs: Folders, w: Wanted, name: string)
    requires Linked(fs, w) && name in fs
    ensures fs[name].name == name && NoDuplicates(fs[name].users)
  {
  }

  lemma FolderIdsKept(fs: Folders, name: string, folder: Folder)
    requires FolderIdsDistinct(fs) && name in fs && folder.id == fs[name].id
    ensures FolderIdsDistinct(fs[name := folder])
  {
  }

  lemma IdsOfFewer(us: map<string, User>, u: string)
    requires UserIdsDistinct(us)
    ensures UserIdsDistinct(us - {u})
  {
  }

  lemma IdsKept(us: map<string, User>, r: map<string, User>)
    requires UserIdsDistinct(us) && r.Keys == us.Keys && forall u :: u in us ==> r[u].id == us[u].id
    ensures UserIdsDistinct(r)
  {
  }

  lemma NamedUpdate(us: map<string, User>, user: User)
    requires NamedByKey(us)
    ensures NamedByKey(us[user.username := user])
  {
  }

  lemma NamesKept(us: map<string, User>, r: map<string, User>)
    requires NamedByKey(us) && r.Keys == us.Keys && forall u :: u in us ==> r[u].username == us[u].username
    ensures NamedByKey(r)
  {
  }

  // ---------------------------------------------------------------------------------------------
  // Changes that reach the users of a folder

  function Refreshed(fs: seq<UserFolder>, name: string, info: string): seq<UserFolder> {
    if fs == [] then [] else
      [if fs[0].name == name then fs[0].(info := info) else fs[0]] + Refreshed(fs[1..], name, info)
  }

  function Dropped(fs: seq<UserFolder>, name: string): seq<UserFolder> {
    if fs == [] then [] else (if fs[0].name == name then [] else [fs[0]]) + Dropped(fs[1..], name)
  }

  /** Entry by entry: those of the folder have the new fields, all others are as they were. */
  predicate FieldsReach(before: seq<UserFolder>, after: seq<UserFolder>, name: string, info: string) {
    && |after| == |before|
    && forall i :: 0 <= i < |before| ==>
         after[i] == UserFolder(before[i].name, if before[i].name == name then info else before[i].info, before[i].virtualPath)
  }

  lemma {:induction false} RefreshedReach(fs: seq<UserFolder>, name: string, info: string)
    ensures FieldsReach(fs, Refreshed(fs, name, info), name, info)
  {
    if fs != [] { RefreshedReach(fs[1..], name, info); }
  }

  /** How many of the first n entries are not of the folder. */
  function OthersAmong(fs: seq<UserFolder>, name: string, n: nat): nat
    requires n <= |fs|
  {
    if n == 0 then 0 else OthersAmong(fs, name, n - 1) + if fs[n - 1].name == name then 0 else 1
  }

  /** The entries of other folders, unchanged and in order, and nothing else. */
  predicate RestInOrder(before: seq<UserFolder>, after: seq<UserFolder>, name: string) {
    && |after| == OthersAmong(before, name, |before|)
    && forall i :: 0 <= i < |before| ==> KeptAt(before, after, name, i)
  }

  /** An entry of another folder comes after as many entries as others were before it. */
  predicate KeptAt(before: seq<UserFolder>, after: seq<UserFolder>, name: string, i: nat)
    requires i < |before|
  {
    before[i].name != name ==> OthersAmong(before, name, i) < |after| && after[OthersAmong(before, name, i)] == before[i]
  }

  lemma {:induction false} OthersAfterFirst(fs: seq<UserFolder>, name: string, n: nat)
    requires 0 < n <= |fs|
    ensures OthersAmong(fs, name, n) == (if fs[0].name == name then 0 else 1) + OthersAmong(fs[1..], name, n - 1)
  {
    if n > 1 { OthersAfterFirst(fs, name, n - 1); }
  }

  lemma {:induction false} DroppedRest(fs: seq<UserFolder>, name: string)
    ensures RestInOrder(fs, Dropped(fs, name), name)
  {
    if fs != [] {
      DroppedRest(fs[1..], name);
      RestAfterFirst(fs, Dropped(fs[1..], name), name);
      assert fs[0].name == name ==> Dropped(fs, name) == Dropped(fs[1..], name);
    }
  }

  lemma KeptOneLater(fs: seq<UserFolder>, rest: seq<UserFolder>, name: string, i: nat)
    requires 0 < i < |fs| && KeptAt(fs[1..], rest, name, i - 1)
    ensures KeptAt(fs, if fs[0].name == name then rest else [fs[0]] + rest, name, i)
  {
    OthersAfterFirst(fs, name, i);
    hide OthersAmong;
    assert fs[1..][i - 1] == fs[i];
  }

  lemma RestAfterFirst(fs: seq<UserFolder>, rest: seq<UserFolder>, name: string)
    requires fs != [] && RestInOrder(fs[1..], rest, name)
    ensures RestInOrder(fs, if fs[0].name == name then rest else [fs[0]] + rest, name)
  {
    var r := if fs[0].name == name then rest else [fs[0]] + rest;
    OthersAfterFirst(fs, name, |fs|);
    assert KeptAt(fs, r, name, 0);
    hide KeptAt, OthersAmong;
    forall i | 0 < i < |fs|
      ensures KeptAt(fs, r, name, i)
    {
      KeptOneLater(fs, rest, name, i);
    }
  }

  lemma {:induction false} RefreshedNames(fs: seq<UserFolder>, name: string, info: string)
    ensures FolderNames(Refreshed(fs, name, info)) == FolderNames(fs)
    ensures name !in FolderNames(fs) ==> Refreshed(fs, name, info) == fs
  {
    if fs != [] {
      RefreshedNames(fs[1..], name, info);
      var g := if fs[0].name == name then fs[0].(info := info) else fs[0];
      assert fs == [fs[0]] + fs[1..];
      NamesPrepended(fs[0], fs[1..]);
      NamesPrepended(g, Refreshed(fs[1..], name, info));
    }
  }

  lemma {:induction false} DroppedNames(fs: seq<UserFolder>, name: string)
    ensures FolderNames(Dropped(fs, name)) == FolderNames(fs) - {name}
    ensures name !in FolderNames(fs) ==> Dropped(fs, name) == fs
  {
    if fs != [] {
      DroppedNames(fs[1..], name);
      assert fs == [fs[0]] + fs[1..];
      NamesPrepended(fs[0], fs[1..]);
      NamesPrepended(fs[0], Dropped(fs[1..], name));
      assert fs[0].name == name ==> Dropped(fs, name) == Dropped(fs[1..], name);
    }
  }

  lemma NamesPrepended(f: UserFolder, fs: seq<UserFolder>)
    ensures FolderNames([f] + fs) == {f.name} + FolderNames(fs)
  {
  }

  method RefreshUsers(us: map<string, User>, listed: seq<string>, name: string, info: string) returns (r: map<string, User>)
    requires NoDuplicates(listed)
    ensures r.Keys == us.Keys
    ensures forall u :: u in us ==>
              r[u] == if u in listed then us[u].(folders := Refreshed(us[u].folders, name, info)) else us[u]
  {
    r := us;
    for i := 0 to |listed|
      invariant r.Keys == us.Keys
      invariant forall u :: u in us ==>
                  r[u] == if u in listed[..i] then us[u].(folders := Refreshed(us[u].folders, name, info)) else us[u]
    {
      assert listed[i] !in listed[..i];
      assert listed[..i + 1] == listed[..i] + [listed[i]];
      if listed[i] in r {
        var user := r[listed[i]];
        r := r[listed[i] := user.(folders := Refreshed(user.folders, name, info))];
      }
    }
    assert listed[..|listed|] == listed;
  }

  method DropFromUsers(us: map<string, User>, listed: seq<string>, name: string) returns (r: map<string, User>)
    requires NoDuplicates(listed)
    ensures r.Keys == us.Keys
    ensures forall u :: u in us ==>
              r[u] == if u in listed then us[u].(folders := Dropped(us[u].folders, name)) else us[u]
  {
    r := us;
    for i := 0 to |listed|
      invariant r.Keys == us.Keys
      invariant forall u :: u in us ==>
                  r[u] == if u in listed[..i] then us[u].(folders := Dropped(us[u].folders, name)) else us[u]
    {
      assert listed[i] !in listed[..i];
      assert listed[..i + 1] == listed[..i] + [listed[i]];
      if listed[i] in r {
        var user := r[listed[i]];
        r := r[listed[i] := user.(folders := Dropped(user.folders, name))];
      }
    }
    assert listed[..|listed|] == listed;
  }

  /** Users that are not listed do not refer to the folder, so nothing is missed. */
  lemma RefreshKeeps(fs: Folders, us: map<string, User>, r: map<string, User>, name: string, info: string)
    requires Linked(fs, WantedBy(us)) && name in fs && r.Keys == us.Keys
    requires forall u :: u in us ==>
               r[u] == if u in fs[name].users then us[u].(folders := Refreshed(us[u].folders, name, info)) else us[u]
    ensures WantedBy(r) == WantedBy(us)
    ensures forall u :: u in us ==> r[u] == us[u].(folders := r[u].folders) && FieldsReach(us[u].folders, r[u].folders, name, info)
  {
    hide FieldsReach, Refreshed, NoDuplicates;
    forall u | u in us
      ensures FolderNames(r[u].folders) == FolderNames(us[u].folders)
      ensures r[u] == us[u].(folders := r[u].folders) && FieldsReach(us[u].folders, r[u].folders, name, info)
    {
      RefreshedNames(us[u].folders, name, info);
      RefreshedReach(us[u].folders, name, info);
      assert u in fs[name].users <==> Refers(WantedBy(us), u, name);
    }
  }

  lemma LinkedWithoutFolder(fs: Folders, w: Wanted, w': Wanted, name: string)
    requires Linked(fs, w) && forall u, f :: Refers(w', u, f) <==> Refers(w, u, f) && f != name
    ensures Linked(fs - {name}, w')
  {
  }

  lemma DropKeeps(fs: Folders, us: map<string, User>, r: map<string, User>, name: string)
    requires Linked(fs, WantedBy(us)) && name in fs && r.Keys == us.Keys
    requires forall u :: u in us ==>
               r[u] == if u in fs[name].users then us[u].(folders := Dropped(us[u].folders, name)) else us[u]
    ensures Linked(fs - {name}, WantedBy(r))
    ensures forall u :: u in us ==> r[u] == us[u].(folders := r[u].folders) && RestInOrder(us[u].folders, r[u].folders, name)
  {
    hide RestInOrder, Dropped, NoDuplicates;
    forall u | u in us
      ensures FolderNames(r[u].folders) == FolderNames(us[u].folders) - {name}
      ensures r[u] == us[u].(folders := r[u].folders) && RestInOrder(us[u].folders, r[u].folders, name)
    {
      DroppedNames(us[u].folders, name);
      DroppedRest(us[u].folders, name);
      assert u in fs[name].users <==> Refers(WantedBy(us), u, name);
    }
    hide Linked, Dropped, FolderNames;
    LinkedWithoutFolder(fs, WantedBy(us), WantedBy(r), name);
  }
}

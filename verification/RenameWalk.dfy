/** The recursive permission check before a directory is renamed (common/connection.go).

    The walk visits the tree in order and stops, accepting everything, as soon as the parent
    directories of an item grant whatever a rename may need and nothing below them says otherwise. */
module RenameWalk {
  import opened Paths
  import opened Accounts
  import Names

  datatype Kind = Regular | Directory | Symlink

  /** A walked item, by its path relative to the renamed directory.  `clear` says that the clauses
      of isRenamePermitted other than the permissions hold for it. */
  datatype Item = Item(rel: Path, kind: Kind, clear: bool)

  // ---------------------------------------------------------------------------------------------
  // Trees

  /** The contents of a directory: a list of named items, each with contents of its own. */
  datatype Forest = Empty | Entry(name: string, kind: Kind, clear: bool, contents: Forest, next: Forest)

  /** filepath.Walk: an item before its contents, in the order of the list. */
  function WalkContents(f: Forest, rel: Path): seq<Item> {
    match f
    case Empty => []
    case Entry(name, kind, clear, contents, next) =>
      [Item(rel + [name], kind, clear)] + WalkContents(contents, rel + [name]) + WalkContents(next, rel)
  }

  /** The walk over the renamed directory. */
  function Walk(clear: bool, contents: Forest): seq<Item> {
    [Item([], Directory, clear)] + WalkContents(contents, [])
  }

  /** The renamed directory comes first and everything else lies below it. */
  predicate RootFirst(items: seq<Item>) {
    items != [] && items[0].rel == [] && forall i :: 0 < i < |items| ==> items[i].rel != []
  }

  lemma {:induction false} WalkedBelow(f: Forest, rel: Path)
    ensures forall it :: it in WalkContents(f, rel) ==> rel < it.rel
  {
    match f
    case Empty =>
    case Entry(name, _, _, contents, next) =>
      WalkedBelow(contents, rel + [name]);
      WalkedBelow(next, rel);
  }

  lemma WalkIsRootFirst(clear: bool, contents: Forest)
    ensures RootFirst(Walk(clear, contents))
  {
    WalkedBelow(contents, []);
    assert forall i :: 0 < i < |Walk(clear, contents)| ==> Walk(clear, contents)[i] == WalkContents(contents, [])[i - 1];
  }

  // ---------------------------------------------------------------------------------------------
  // The checks

  /** BaseConnection.hasRenamePerms. */
  predicate HasRenamePerms(u: User, source: Path, target: Path, kind: Kind) {
    if HasPerm(u, PermRename, Parent(source)) && HasPerm(u, PermRename, Parent(target)) then true
    else if !HasPerm(u, PermDelete, Parent(source)) then false
    else match kind
      case Directory => HasPerm(u, PermCreateDirs, Parent(target))
      case Symlink => HasPerm(u, PermCreateSymlinks, Parent(target))
      case Regular => HasPerm(u, PermUpload, Parent(target))
  }

  /** The parent directories grant everything any item can need. */
  predicate GrantsAll(u: User, sourceDir: Path, targetDir: Path) {
    || (HasPerm(u, PermRename, sourceDir) && HasPerm(u, PermRename, targetDir))
    || (HasPerm(u, PermDelete, sourceDir) && HasPerms(u, [PermCreateDirs, PermUpload, PermCreateSymlinks], targetDir))
  }

  /** The condition of the early stop. */
  predicate Stops(u: User, source: Path, target: Path) {
    && !HasPermissionsInside(u, Parent(source)) && !HasPermissionsInside(u, Parent(target))
    && GrantsAll(u, Parent(source), Parent(target))
  }

  predicate StopsAt(u: User, source: Path, target: Path, it: Item) {
    Stops(u, source + it.rel, target + it.rel)
  }

  predicate PermsAt(u: User, source: Path, target: Path, it: Item) {
    HasRenamePerms(u, source + it.rel, target + it.rel, it.kind)
  }

  predicate Passes(u: User, source: Path, target: Path, it: Item) {
    it.clear && PermsAt(u, source, target, it)
  }

  lemma GrantsAllSuffices(u: User, source: Path, target: Path, kind: Kind)
    requires GrantsAll(u, Parent(source), Parent(target))
    ensures HasRenamePerms(u, source, target, kind)
  {
    var ps := [PermCreateDirs, PermUpload, PermCreateSymlinks];
    assert ps[0] == PermCreateDirs && ps[1] == PermUpload && ps[2] == PermCreateSymlinks;
  }

  /** The items before which the walk has neither stopped nor been refused. */
  predicate Reaches(u: User, source: Path, target: Path, items: seq<Item>, i: nat)
    requires i <= |items|
  {
    forall j :: 0 <= j < i ==> Passes(u, source, target, items[j])
  }

  /** The walk stops at some item before which every item passes. */
  predicate StopsSomewhere(u: User, source: Path, target: Path, items: seq<Item>) {
    exists i :: 0 <= i < |items| && Reaches(u, source, target, items, i) && StopsAt(u, source, target, items[i])
  }

  predicate WalkAccepts(u: User, source: Path, target: Path, items: seq<Item>) {
    Reaches(u, source, target, items, |items|) || StopsSomewhere(u, source, target, items)
  }

  /** BaseConnection.checkRecursiveRenameDirPermissions.  Exactly: it accepts when every item
      passes, or when it stops at an item before which every item passes. */
  method CheckRecursiveRenameDirPermissions(u: User, source: Path, target: Path, items: seq<Item>) returns (accepted: bool)
    ensures accepted <==> WalkAccepts(u, source, target, items)
  {
    hide HasPermissionsInside, HasPerm, HasPerms, HasRenamePerms;
    for i := 0 to |items|
      invariant Reaches(u, source, target, items, i)
      invariant forall j :: 0 <= j < i ==> !StopsAt(u, source, target, items[j])
    {
      var src, dst := source + items[i].rel, target + items[i].rel;
      if !HasPermissionsInside(u, Parent(src)) && !HasPermissionsInside(u, Parent(dst)) {
        if HasPerm(u, PermRename, Parent(src)) && HasPerm(u, PermRename, Parent(dst)) {
          return true;
        }
        if HasPerm(u, PermDelete, Parent(src)) && HasPerms(u, [PermCreateDirs, PermUpload, PermCreateSymlinks], Parent(dst)) {
          return true;
        }
      }
      if !(items[i].clear && HasRenamePerms(u, src, dst, items[i].kind)) {
        return false;
      }
    }
    return true;
  }

  // ---------------------------------------------------------------------------------------------
  // Which permissions a rename needs

  predicate Allows(ps: set<Perm>, p: Perm) {
    PermAny in ps || p in ps
  }

  /** An item may be renamed with rename on both parent directories, or with delete on the one it
      leaves and, on the one it goes to, create_dirs for a directory, create_symlinks for a symbolic
      link and upload for a file. */
  predicate RenameNeeds(from: set<Perm>, to: set<Perm>, kind: Kind) {
    || (Allows(from, PermRename) && Allows(to, PermRename))
    || (Allows(from, PermDelete) &&
        (|| (kind == Directory && Allows(to, PermCreateDirs))
         || (kind == Symlink && Allows(to, PermCreateSymlinks))
         || (kind == Regular && Allows(to, PermUpload))))
  }

  /** The walk over a single item asks for exactly these permissions, of the directories that hold
      the item before and after. */
  lemma OneItemNeeds(u: User, source: Path, target: Path, kind: Kind, from: set<Perm>, to: set<Perm>)
    requires PermissionsFor(u.permissions, Parent(source)) == from && PermissionsFor(u.permissions, Parent(target)) == to
    ensures WalkAccepts(u, source, target, [Item([], kind, true)]) <==> RenameNeeds(from, to, kind)
  {
    hide PermissionsFor, HasPermissionsInside;
    var items := [Item([], kind, true)];
    assert source + [] == source && target + [] == target;
    if Stops(u, source, target) { GrantsAllSuffices(u, source, target, kind); }
    if StopsSomewhere(u, source, target, items) { assert StopsAt(u, source, target, items[0]); }
    assert Passes(u, source, target, items[0]) <==> RenameNeeds(from, to, kind);
  }

  lemma {:induction false} OnlyRootSet(u: User, ps: set<Perm>, p: Path)
    requires u.permissions == map[[] := ps]
    ensures PermissionsFor(u.permissions, p) == ps
  {
    if p != [] { OnlyRootSet(u, ps, Parent(p)); }
  }

  /** With one set of permissions for everything. */
  lemma OneSetNeeds(u: User, ps: set<Perm>, source: Path, target: Path, kind: Kind)
    requires u.permissions == map[[] := ps]
    ensures WalkAccepts(u, source, target, [Item([], kind, true)]) <==>
              || PermAny in ps || PermRename in ps
              || (PermDelete in ps && (match kind case Directory => PermCreateDirs in ps case Symlink => PermCreateSymlinks in ps case Regular => PermUpload in ps))
  {
    OnlyRootSet(u, ps, Parent(source));
    OnlyRootSet(u, ps, Parent(target));
    OneItemNeeds(u, source, target, kind, ps, ps);
  }

  /** The walk stops exactly where no entry lies at or below either parent directory and these grant
      rename on both sides, or delete on the one and everything a new item may need on the other. */
  lemma StopNeeds(u: User, source: Path, target: Path, from: set<Perm>, to: set<Perm>)
    requires PermissionsFor(u.permissions, Parent(source)) == from && PermissionsFor(u.permissions, Parent(target)) == to
    ensures Stops(u, source, target) <==>
              && (forall d :: d in u.permissions ==> !(Parent(source) <= d) && !(Parent(target) <= d))
              && (|| (Allows(from, PermRename) && Allows(to, PermRename))
                  || (Allows(from, PermDelete) && (PermAny in to || {PermCreateDirs, PermUpload, PermCreateSymlinks} <= to)))
  {
    hide PermissionsFor;
    var ps := [PermCreateDirs, PermUpload, PermCreateSymlinks];
    assert ps[0] == PermCreateDirs && ps[1] == PermUpload && ps[2] == PermCreateSymlinks;
  }

  // ---------------------------------------------------------------------------------------------
  // The early stop against the full check

  /** No permission entry lies strictly below the directory. */
  predicate NoEntryBelow(u: User, dir: Path) {
    forall d :: d in u.permissions ==> !(dir < d)
  }

  /** Below a directory with no entry strictly inside, all parents have the directory's permissions. */
  lemma SamePermissionsBelow(u: User, dir: Path, rel: Path)
    requires NoEntryBelow(u, dir) && rel != []
    ensures PermissionsFor(u.permissions, Parent(dir + rel)) == PermissionsFor(u.permissions, dir)
  {
    assert Parent(dir + rel) == dir + Parent(rel);
    PermissionsInherited(u.permissions, dir, Parent(dir + rel));
  }

  /** A stop at the root: nothing at or below the parent says otherwise. */
  lemma SamePermissionsFromParent(u: User, dir: Path, rel: Path)
    requires !HasPermissionsInside(u, Parent(dir))
    ensures PermissionsFor(u.permissions, Parent(dir + rel)) == PermissionsFor(u.permissions, Parent(dir))
  {
    if rel == [] {
      assert dir + rel == dir;
    } else {
      assert Parent(dir + rel) == dir + Parent(rel);
    }
    PermissionsInherited(u.permissions, Parent(dir), Parent(dir + rel));
  }

  lemma StopCoversRest(u: User, source: Path, target: Path, items: seq<Item>, i: nat, j: nat)
    requires RootFirst(items) && NoEntryBelow(u, source) && NoEntryBelow(u, target)
    requires i <= j < |items| && StopsAt(u, source, target, items[i])
    ensures PermsAt(u, source, target, items[j])
  {
    var r, r' := items[i].rel, items[j].rel;
    if i == 0 {
      assert source + r == source && target + r == target;
      SamePermissionsFromParent(u, source, r');
      SamePermissionsFromParent(u, target, r');
    } else {
      SamePermissionsBelow(u, source, r);
      SamePermissionsBelow(u, target, r);
      SamePermissionsBelow(u, source, r');
      SamePermissionsBelow(u, target, r');
    }
    assert GrantsAll(u, Parent(source + r'), Parent(target + r'));
    GrantsAllSuffices(u, source + r', target + r', items[j].kind);
  }

  /** With no permission entry strictly below source or target, and nothing but permissions in the
      way, the stopping walk accepts exactly the trees in which every item may be renamed. */
  lemma EarlyStopEqualsFullCheck(u: User, source: Path, target: Path, items: seq<Item>)
    requires RootFirst(items) && NoEntryBelow(u, source) && NoEntryBelow(u, target)
    requires forall i :: 0 <= i < |items| ==> items[i].clear
    ensures WalkAccepts(u, source, target, items) <==> forall j :: 0 <= j < |items| ==> PermsAt(u, source, target, items[j])
  {
    if i :| 0 <= i < |items| && Reaches(u, source, target, items, i) && StopsAt(u, source, target, items[i]) {
      forall j | 0 <= j < |items|
        ensures PermsAt(u, source, target, items[j])
      {
        if j < i { assert Passes(u, source, target, items[j]); } else { StopCoversRest(u, source, target, items, i, j); }
      }
    } else if Reaches(u, source, target, items, |items|) {
      assert forall j :: 0 <= j < |items| ==> Passes(u, source, target, items[j]);
    }
  }

  // ---------------------------------------------------------------------------------------------
  // Exactly when the early stop is wrong

  function SiblingNames(f: Forest): set<string> {
    match f
    case Empty => {}
    case Entry(name, _, _, _, next) => {name} + SiblingNames(next)
  }

  /** A tree as a filesystem has it: only directories have contents and siblings have different
      names; a local filesystem also walks them in the order of their names. */
  predicate Sensible(f: Forest, byName: bool) {
    match f
    case Empty => true
    case Entry(name, kind, _, contents, next) =>
      && (contents != Empty ==> kind.Directory?)
      && (forall n :: n in SiblingNames(next) ==> n != name && (byName ==> Names.Less(name, n)))
      && Sensible(contents, byName) && Sensible(next, byName)
  }

  predicate AllClear(f: Forest) {
    f.Entry? ==> f.clear && AllClear(f.contents) && AllClear(f.next)
  }

  /** In a walk that visits a, b can come later: it lies below a, or branches off to a later name. */
  predicate Later(a: Path, b: Path, byName: bool) {
    b != [] &&
    (a == [] || (if a[0] == b[0] then Later(a[1..], b[1..], byName) else byName ==> Names.Less(a[0], b[0])))
  }

  /** The walk accepts a tree in which some item may not be renamed. */
  predicate WronglyAccepted(u: User, source: Path, target: Path, items: seq<Item>) {
    WalkAccepts(u, source, target, items) && exists j :: 0 <= j < |items| && !PermsAt(u, source, target, items[j])
  }

  /** The walk accepts a tree in which some item does not pass, for its permissions or otherwise. */
  predicate Overlooks(u: User, source: Path, target: Path, items: seq<Item>) {
    WalkAccepts(u, source, target, items) && exists j :: 0 <= j < |items| && !Passes(u, source, target, items[j])
  }

  /** The walk can get to a and stops there. */
  predicate StopReachable(u: User, source: Path, target: Path, a: Path) {
    && Stops(u, source + a, target + a)
    && (forall n :: 0 <= n < |a| ==> HasRenamePerms(u, source + a[..n], target + a[..n], Directory))
  }

  /** The walk can get to a, stops there, and b is not checked although it fails. */
  predicate StopHides(u: User, source: Path, target: Path, byName: bool, a: Path, b: Path, kind: Kind) {
    StopReachable(u, source, target, a) && Later(a, b, byName) && !HasRenamePerms(u, source + b, target + b, kind)
  }

  lemma {:induction false} WalkNames(f: Forest, rel: Path)
    ensures forall it :: it in WalkContents(f, rel) ==> rel < it.rel && it.rel[|rel|] in SiblingNames(f)
  {
    match f
    case Empty =>
    case Entry(name, _, _, contents, next) =>
      WalkedBelow(contents, rel + [name]);
      WalkNames(next, rel);
  }

  lemma {:induction false} WalkClear(f: Forest, rel: Path)
    requires AllClear(f)
    ensures forall it :: it in WalkContents(f, rel) ==> it.clear
  {
    match f
    case Empty =>
    case Entry(name, _, _, contents, next) =>
      WalkClear(contents, rel + [name]);
      WalkClear(next, rel);
  }

  /** After n common components b can come later than a. */
  predicate LaterFrom(a: Path, b: Path, n: nat, byName: bool) {
    n <= |a| && n <= |b| && Later(a[n..], b[n..], byName)
  }

  lemma LaterBelow(a: Path, b: Path, n: nat, byName: bool)
    requires n < |a| && n < |b| && a[..n + 1] == b[..n + 1]
    requires LaterFrom(a, b, n + 1, byName) || n + 1 == |a| < |b|
    ensures LaterFrom(a, b, n, byName)
  {
    assert a[n] == a[..n + 1][n] == b[n];
    assert a[n..][1..] == a[n + 1..] && b[n..][1..] == b[n + 1..];
  }

  /** Where an item of a walk comes from. */
  lemma WalkPart(f: Forest, rel: Path, i: nat)
    requires f.Entry? && i < |WalkContents(f, rel)|
    ensures var w, below, after := WalkContents(f, rel), WalkContents(f.contents, rel + [f.name]), WalkContents(f.next, rel);
            && |w| == 1 + |below| + |after|
            && w[i] == if i == 0 then Item(rel + [f.name], f.kind, f.clear)
                       else if i <= |below| then below[i - 1] else after[i - 1 - |below|]
  {
  }

  /** The items of one entry begin with its name. */
  lemma WalkedUnder(f: Forest, rel: Path, i: nat)
    requires f.Entry? && i <= |WalkContents(f.contents, rel + [f.name])|
    ensures i < |WalkContents(f, rel)| && |rel| < |WalkContents(f, rel)[i].rel|
    ensures WalkContents(f, rel)[i].rel[..|rel| + 1] == rel + [f.name]
    ensures i > 0 ==> |rel| + 1 < |WalkContents(f, rel)[i].rel|
  {
    WalkPart(f, rel, i);
    WalkedBelow(f.contents, rel + [f.name]);
    if i > 0 { assert WalkContents(f, rel)[i] in WalkContents(f.contents, rel + [f.name]); }
  }

  lemma LaterApart(a: Path, b: Path, n: nat, byName: bool)
    requires n < |a| && n < |b| && a[n] != b[n] && (byName ==> Names.Less(a[n], b[n]))
    ensures LaterFrom(a, b, n, byName)
  {
  }

  /** Of two walked items the second comes later. */
  lemma {:induction false} WalkOrder(f: Forest, rel: Path, byName: bool, i: nat, j: nat)
    requires Sensible(f, byName) && i < j < |WalkContents(f, rel)|
    ensures var w := WalkContents(f, rel);
            LaterFrom(w[i].rel, w[j].rel, |rel|, byName)
  {
    assert f.Entry?;
    hide WalkContents, LaterFrom;
    var w := WalkContents(f, rel);
    var below, after := WalkContents(f.contents, rel + [f.name]), WalkContents(f.next, rel);
    WalkPart(f, rel, i);
    WalkPart(f, rel, j);
    if i > |below| {
      WalkOrder(f.next, rel, byName, i - 1 - |below|, j - 1 - |below|);
    } else if j > |below| {
      WalkedUnder(f, rel, i);
      WalkNames(f.next, rel);
      assert w[j] in after;
      assert w[i].rel[|rel|] == w[i].rel[..|rel| + 1][|rel|] == f.name;
      LaterApart(w[i].rel, w[j].rel, |rel|, byName);
    } else {
      WalkedUnder(f, rel, i);
      WalkedUnder(f, rel, j);
      if i > 0 { WalkOrder(f.contents, rel + [f.name], byName, i - 1, j - 1); }
      LaterBelow(w[i].rel, w[j].rel, |rel|, byName);
    }
  }

  /** The directories above a walked item have been walked before it. */
  lemma {:induction false} WalkAncestors(f: Forest, rel: Path, byName: bool, i: nat, n: nat) returns (k: nat)
    requires Sensible(f, byName) && i < |WalkContents(f, rel)| && |rel| < n < |WalkContents(f, rel)[i].rel|
    ensures k < i && WalkContents(f, rel)[k].rel == WalkContents(f, rel)[i].rel[..n] && WalkContents(f, rel)[k].kind == Directory
  {
    assert f.Entry?;
    assert WalkContents(Empty, rel + [f.name]) == [];
    hide WalkContents;
    var below := WalkContents(f.contents, rel + [f.name]);
    WalkPart(f, rel, i);
    if i > |below| {
      k := WalkAncestors(f.next, rel, byName, i - 1 - |below|, n);
      k := k + 1 + |below|;
    } else {
      WalkedUnder(f, rel, i);
      if n == |rel| + 1 {
        k := 0;
      } else {
        k := WalkAncestors(f.contents, rel + [f.name], byName, i - 1, n);
        k := k + 1;
      }
    }
    WalkPart(f, rel, k);
  }

  lemma ItemOrder(byName: bool, contents: Forest, i: nat, j: nat)
    requires Sensible(contents, byName) && i < j < |Walk(true, contents)|
    ensures Later(Walk(true, contents)[i].rel, Walk(true, contents)[j].rel, byName)
  {
    hide WalkContents;
    var items, w := Walk(true, contents), WalkContents(contents, []);
    assert items[j] == w[j - 1];
    if i > 0 {
      assert items[i] == w[i - 1];
      WalkOrder(contents, [], byName, i - 1, j - 1);
      assert items[i].rel[0..] == items[i].rel && items[j].rel[0..] == items[j].rel;
    } else {
      WalkedBelow(contents, []);
      assert w[j - 1] in w;
    }
  }

  /** The directories above an item that the walk reaches have passed. */
  lemma AncestorPasses(u: User, source: Path, target: Path, byName: bool, clear: bool, contents: Forest, i: nat, n: nat)
    requires Sensible(contents, byName) && i < |Walk(clear, contents)| && n < |Walk(clear, contents)[i].rel|
    requires Reaches(u, source, target, Walk(clear, contents), i)
    ensures var a := Walk(clear, contents)[i].rel; HasRenamePerms(u, source + a[..n], target + a[..n], Directory)
  {
    hide HasRenamePerms, WalkContents, Sensible;
    var items, w := Walk(clear, contents), WalkContents(contents, []);
    assert i > 0 && items[i] == w[i - 1];
    if n == 0 {
      assert items[i].rel[..0] == [] && Passes(u, source, target, items[0]);
    } else {
      var k := WalkAncestors(contents, [], byName, i - 1, n);
      assert items[k + 1] == w[k] && Passes(u, source, target, items[k + 1]);
    }
  }

  /** An accepted tree with an item that does not pass has been stopped in. */
  lemma AcceptedAtStop(u: User, source: Path, target: Path, byName: bool, clear: bool, contents: Forest, j: nat) returns (i: nat)
    requires Sensible(contents, byName) && WalkAccepts(u, source, target, Walk(clear, contents))
    requires j < |Walk(clear, contents)| && !Passes(u, source, target, Walk(clear, contents)[j])
    ensures i < |Walk(clear, contents)| && i <= j && StopsAt(u, source, target, Walk(clear, contents)[i])
    ensures StopReachable(u, source, target, Walk(clear, contents)[i].rel)
  {
    hide HasRenamePerms, Stops, Walk, Sensible;
    var items := Walk(clear, contents);
    i :| 0 <= i < |items| && Reaches(u, source, target, items, i) && StopsAt(u, source, target, items[i]);
    var a := items[i].rel;
    forall n | 0 <= n < |a|
      ensures HasRenamePerms(u, source + a[..n], target + a[..n], Directory)
    {
      AncestorPasses(u, source, target, byName, clear, contents, i, n);
    }
  }

  /** A wrongly accepted tree shows an item the stop hides. */
  lemma WrongMeansHidden(u: User, source: Path, target: Path, byName: bool, contents: Forest)
    requires Sensible(contents, byName) && WronglyAccepted(u, source, target, Walk(true, contents))
    ensures exists a, b, kind :: StopHides(u, source, target, byName, a, b, kind)
  {
    hide HasRenamePerms, Stops, Walk, Sensible, Later, StopReachable;
    var items := Walk(true, contents);
    var j :| 0 <= j < |items| && !PermsAt(u, source, target, items[j]);
    var i := AcceptedAtStop(u, source, target, byName, true, contents, j);
    StopPasses(u, source, target, items[i]);
    ItemOrder(byName, contents, i, j);
    assert StopHides(u, source, target, byName, items[i].rel, items[j].rel, items[j].kind);
  }

  lemma StopPasses(u: User, source: Path, target: Path, it: Item)
    requires StopsAt(u, source, target, it)
    ensures PermsAt(u, source, target, it)
  {
    GrantsAllSuffices(u, source + it.rel, target + it.rel, it.kind);
  }

  // ---------------------------------------------------------------------------------------------
  // A tree for every hidden item

  /** A single item with the directories above it. */
  function Chain(p: Path, kind: Kind, clear: bool): Forest {
    if p == [] then Empty
    else if |p| == 1 then Entry(p[0], kind, clear, Empty, Empty)
    else Entry(p[0], Directory, true, Chain(p[1..], kind, clear), Empty)
  }

  /** The chain to a, and then the one to b, which shares its beginning. */
  function Fork(a: Path, b: Path, kind: Kind, clear: bool): Forest {
    if a == [] || b == [] then Chain(b, kind, clear)
    else if a[0] == b[0] then Entry(a[0], Directory, true, Fork(a[1..], b[1..], kind, clear), Empty)
    else Entry(a[0], Directory, true, Chain(a[1..], Directory, true), Chain(b, kind, clear))
  }

  lemma {:induction false} ChainSensible(p: Path, kind: Kind, clear: bool, byName: bool)
    ensures Sensible(Chain(p, kind, clear), byName) && (clear ==> AllClear(Chain(p, kind, clear)))
    ensures p != [] ==> SiblingNames(Chain(p, kind, clear)) == {p[0]}
  {
    if p != [] { ChainSensible(p[1..], kind, clear, byName); }
  }

  lemma {:induction false} ForkSensible(a: Path, b: Path, kind: Kind, clear: bool, byName: bool)
    requires Later(a, b, byName)
    ensures Sensible(Fork(a, b, kind, clear), byName) && (clear ==> AllClear(Fork(a, b, kind, clear)))
  {
    ChainSensible(b, kind, clear, byName);
    if a != [] {
      if a[0] == b[0] { ForkSensible(a[1..], b[1..], kind, clear, byName); } else { ChainSensible(a[1..], Directory, true, byName); }
    }
  }

  lemma Shifted(rel: Path, p: Path, n: nat)
    requires 0 < n <= |p|
    ensures rel + [p[0]] + p[1..][..n - 1] == rel + p[..n]
  {
  }

  lemma {:induction false} ChainWalk(p: Path, kind: Kind, clear: bool, rel: Path)
    requires p != []
    ensures Item(rel + p, kind, clear) in WalkContents(Chain(p, kind, clear), rel)
  {
    assert rel + [p[0]] + p[1..] == rel + p;
    if |p| > 1 {
      ChainWalk(p[1..], kind, clear, rel + [p[0]]);
    } else {
      assert p == [p[0]];
    }
  }

  /** The walk of a chain of directories. */
  lemma {:induction false} ChainOfDirectories(p: Path, rel: Path, n: nat)
    requires n < |p|
    ensures n < |WalkContents(Chain(p, Directory, true), rel)|
    ensures WalkContents(Chain(p, Directory, true), rel)[n] == Item(rel + p[..n + 1], Directory, true)
  {
    Shifted(rel, p, n + 1);
    if n == 0 {
      assert p[..1] == [p[0]];
    } else {
      ChainOfDirectories(p[1..], rel + [p[0]], n - 1);
      WalkPart(Chain(p, Directory, true), rel, n);
    }
  }

  /** The walk of a fork begins with the directories down to a. */
  lemma {:induction false} ForkBegins(a: Path, b: Path, kind: Kind, clear: bool, byName: bool, rel: Path, n: nat)
    requires Later(a, b, byName) && n < |a|
    ensures n < |WalkContents(Fork(a, b, kind, clear), rel)|
    ensures WalkContents(Fork(a, b, kind, clear), rel)[n] == Item(rel + a[..n + 1], Directory, true)
  {
    Shifted(rel, a, n + 1);
    if n == 0 {
      assert a[..1] == [a[0]];
    } else {
      if a[0] == b[0] {
        ForkBegins(a[1..], b[1..], kind, clear, byName, rel + [a[0]], n - 1);
      } else {
        ChainOfDirectories(a[1..], rel + [a[0]], n - 1);
      }
      WalkPart(Fork(a, b, kind, clear), rel, n);
    }
  }

  /** The walk of a fork has b somewhere. */
  lemma {:induction false} ForkReaches(a: Path, b: Path, kind: Kind, clear: bool, byName: bool, rel: Path)
    requires Later(a, b, byName)
    ensures Item(rel + b, kind, clear) in WalkContents(Fork(a, b, kind, clear), rel)
  {
    if a != [] && a[0] == b[0] {
      assert rel + [a[0]] + b[1..] == rel + b;
      ForkReaches(a[1..], b[1..], kind, clear, byName, rel + [a[0]]);
    } else {
      ChainWalk(b, kind, clear, rel);
    }
  }

  /** A fork is walked down to a, and accepted when the walk can get there and stops. */
  lemma ForkStops(u: User, source: Path, target: Path, byName: bool, a: Path, b: Path, kind: Kind, clear: bool) returns (j: nat)
    requires StopReachable(u, source, target, a) && Later(a, b, byName)
    ensures WalkAccepts(u, source, target, Walk(true, Fork(a, b, kind, clear)))
    ensures j < |Walk(true, Fork(a, b, kind, clear))| && Walk(true, Fork(a, b, kind, clear))[j] == Item(b, kind, clear)
  {
    hide HasRenamePerms, Stops, Fork, Later;
    ForkReaches(a, b, kind, clear, byName, []);
    var items, w := Walk(true, Fork(a, b, kind, clear)), WalkContents(Fork(a, b, kind, clear), []);
    forall n | 0 <= n <= |a|
      ensures n < |items| && items[n] == Item(a[..n], Directory, true)
    {
      if n > 0 {
        ForkBegins(a, b, kind, clear, byName, [], n - 1);
        assert items[n] == w[n - 1] && [] + a[..n] == a[..n];
      }
    }
    assert a[..|a|] == a;
    assert Reaches(u, source, target, items, |a|) && StopsAt(u, source, target, items[|a|]);
    j :| 0 <= j < |w| && w[j] == Item([] + b, kind, clear);
    assert [] + b == b && items[j + 1] == w[j];
    j := j + 1;
  }

  lemma HiddenMeansWrong(u: User, source: Path, target: Path, byName: bool, a: Path, b: Path, kind: Kind)
    requires StopHides(u, source, target, byName, a, b, kind)
    ensures Sensible(Fork(a, b, kind, true), byName) && AllClear(Fork(a, b, kind, true))
    ensures WronglyAccepted(u, source, target, Walk(true, Fork(a, b, kind, true)))
  {
    ForkSensible(a, b, kind, true, byName);
    hide HasRenamePerms, StopReachable, WalkAccepts, Fork, Later, Walk;
    var j := ForkStops(u, source, target, byName, a, b, kind, true);
    assert !PermsAt(u, source, target, Walk(true, Fork(a, b, kind, true))[j]);
  }

  lemma {:induction false} LaterInside(a: Path, name: string, byName: bool)
    ensures Later(a, a + [name], byName)
  {
    if a != [] {
      assert (a + [name])[1..] == a[1..] + [name];
      LaterInside(a[1..], name, byName);
    }
  }

  /** Wherever the walk can stop, a file below that is refused for another reason goes unseen. */
  lemma StopOverlooks(u: User, source: Path, target: Path, byName: bool, a: Path)
    requires StopReachable(u, source, target, a)
    ensures Sensible(Fork(a, a + ["x"], Regular, false), byName)
    ensures Overlooks(u, source, target, Walk(true, Fork(a, a + ["x"], Regular, false)))
  {
    LaterInside(a, "x", byName);
    ForkSensible(a, a + ["x"], Regular, false, byName);
    hide HasRenamePerms, StopReachable, WalkAccepts, Fork, Later, Walk;
    var j := ForkStops(u, source, target, byName, a, a + ["x"], Regular, false);
    assert !Passes(u, source, target, Walk(true, Fork(a, a + ["x"], Regular, false))[j]);
  }

  /** For which permissions the stop can overlook anything at all, be it permissions or the other
      clauses of isRenamePermitted: some tree, clear or not, is accepted although an item does not
      pass, if and only if the walk can get to a place where it stops. */
  lemma StopOverlooksIff(u: User, source: Path, target: Path, byName: bool)
    ensures (exists clear, contents :: Sensible(contents, byName) && Overlooks(u, source, target, Walk(clear, contents)))
            <==> exists a :: StopReachable(u, source, target, a)
  {
    hide StopReachable, Sensible, WalkAccepts, Walk;
    if clear, contents :| Sensible(contents, byName) && Overlooks(u, source, target, Walk(clear, contents)) {
      var j :| 0 <= j < |Walk(clear, contents)| && !Passes(u, source, target, Walk(clear, contents)[j]);
      var _ := AcceptedAtStop(u, source, target, byName, clear, contents, j);
    }
    if a :| StopReachable(u, source, target, a) {
      StopOverlooks(u, source, target, byName, a);
    }
  }

  /** For which permissions the stop is wrong about permissions: some tree whose items are all clear
      is accepted although one of them may not be renamed, if and only if the walk can get to a place where it
      stops and an item that can come later fails. */
  lemma StopIsWrongIff(u: User, source: Path, target: Path, byName: bool)
    ensures (exists contents :: Sensible(contents, byName) && AllClear(contents) && WronglyAccepted(u, source, target, Walk(true, contents)))
            <==> exists a, b, kind :: StopHides(u, source, target, byName, a, b, kind)
  {
    hide StopHides, WronglyAccepted, Sensible;
    if contents :| Sensible(contents, byName) && AllClear(contents) && WronglyAccepted(u, source, target, Walk(true, contents)) {
      WrongMeansHidden(u, source, target, byName, contents);
    }
    if a, b, kind :| StopHides(u, source, target, byName, a, b, kind) {
      HiddenMeansWrong(u, source, target, byName, a, b, kind);
    }
  }

  // ---------------------------------------------------------------------------------------------
  // A failing case

  /** A user with permissions on the source and, different ones, on one directory inside it. */
  function ExampleUser(): User {
    User([], map[[] := {PermRename}, ["s"] := {PermRename}, ["s", "z"] := {}], 0, 0, 0, true)
  }

  /** Two directories with a file each: a/b and z/q. */
  function ExampleContents(): Forest {
    Entry("a", Directory, true, Entry("b", Regular, true, Empty, Empty),
          Entry("z", Directory, true, Entry("q", Regular, true, Empty, Empty), Empty))
  }

  lemma ExampleWalk()
    ensures Walk(true, ExampleContents()) ==
              [Item([], Directory, true), Item(["a"], Directory, true), Item(["a", "b"], Regular, true),
               Item(["z"], Directory, true), Item(["z", "q"], Regular, true)]
  {
    assert [] + ["a"] == ["a"] && ["a"] + ["b"] == ["a", "b"] && [] + ["z"] == ["z"] && ["z"] + ["q"] == ["z", "q"];
    assert WalkContents(Entry("b", Regular, true, Empty, Empty), ["a"]) == [Item(["a", "b"], Regular, true)];
    assert WalkContents(Entry("q", Regular, true, Empty, Empty), ["z"]) == [Item(["z", "q"], Regular, true)];
    assert WalkContents(Entry("z", Directory, true, Entry("q", Regular, true, Empty, Empty), Empty), []) ==
           [Item(["z"], Directory, true), Item(["z", "q"], Regular, true)];
  }

  lemma ExamplePermissions()
    ensures var perms := ExampleUser().permissions;
            && PermissionsFor(perms, []) == PermissionsFor(perms, ["s"]) == PermissionsFor(perms, ["s", "a"]) == {PermRename}
            && PermissionsFor(perms, ["d"]) == PermissionsFor(perms, ["d", "a"]) == {PermRename}
            && PermissionsFor(perms, ["s", "z"]) == {}
  {
  }

  lemma ExampleNothingInside(a: string)
    requires a in {"s", "d"}
    ensures !HasPermissionsInside(ExampleUser(), [a, "a"])
  {
    forall d | d in ExampleUser().permissions
      ensures !([a, "a"] <= d)
    {
      assert [a, "a"][1] == "a" && "a" != "z";
    }
  }

  lemma ExampleParents(a: string, b: string)
    ensures Parent([a] + []) == [] && Parent([a] + [b]) == [a]
  {
  }

  lemma ExampleGrandparents(a: string, b: string, c: string)
    ensures Parent([a] + [b, c]) == [a, b]
  {
  }

  /** The hypothesis is needed: with an entry below the source, the stop inside one subdirectory
      accepts a sibling whose contents may not be renamed. */
  lemma StopSkipsSibling()
    ensures var items := Walk(true, ExampleContents());
            && Sensible(ExampleContents(), true) && AllClear(ExampleContents())
            && WalkAccepts(ExampleUser(), ["s"], ["d"], items) && |items| == 5 && !PermsAt(ExampleUser(), ["s"], ["d"], items[4])
  {
    hide Walk, WalkContents, PermissionsFor, Parent, HasPermissionsInside;
    ExampleWalk();
    ExampleNothingInside("s");
    ExampleNothingInside("d");
    ExamplePermissions();
    ExampleParents("s", "a");
    ExampleParents("d", "a");
    ExampleGrandparents("s", "a", "b");
    ExampleGrandparents("d", "a", "b");
    ExampleGrandparents("s", "z", "q");
    var items := Walk(true, ExampleContents());
    assert Reaches(ExampleUser(), ["s"], ["d"], items, 2) && StopsAt(ExampleUser(), ["s"], ["d"], items[2]);
  }

  /** A user with permissions on the root alone. */
  function RootOnlyUser(): User {
    User([], map[[] := {PermRename}], 0, 0, 0, true)
  }

  /** A failing case without any entry below source or target: the walk stops at once and accepts a
      file that is not clear. */
  lemma StopSkipsPattern()
    ensures var u, source, target := RootOnlyUser(), ["d", "s"], ["d", "e"];
            var contents := Entry("x", Regular, false, Empty, Empty);
            && NoEntryBelow(u, source) && NoEntryBelow(u, target) && Sensible(contents, true)
            && WalkAccepts(u, source, target, Walk(true, contents))
            && |Walk(true, contents)| == 2 && !Passes(u, source, target, Walk(true, contents)[1])
  {
    var u, source, target := RootOnlyUser(), ["d", "s"], ["d", "e"];
    assert Parent(source) == ["d"] && Parent(target) == ["d"] && Parent(["d"]) == [];
    assert PermissionsFor(u.permissions, ["d"]) == PermissionsFor(u.permissions, []) == {PermRename};
    var items := Walk(true, Entry("x", Regular, false, Empty, Empty));
    assert source + [] == source && target + [] == target;
    assert Reaches(u, source, target, items, 0) && StopsAt(u, source, target, items[0]);
  }
}

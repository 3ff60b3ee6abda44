/** What each step of the server does to storage, said in terms of paths, mounts and stored files
    alone (common/connection.go, common/transfer.go, ftpd/handler.go). */
module Outcomes {
  import opened Paths
  import opened Accounts
  import opened Store
  import opened Usages
  import opened Ledger
  import opened Limits
  import opened Uploads
  import opened Server
  import opened Caps

  /** Apart from the given places, the same files with the same sizes are stored. */
  ghost predicate SameFilesBut(a: Fs, b: Fs, places: set<Loc>) {
    && (forall l :: l !in places ==> (l in a.files <==> l in b.files))
    && (forall l :: l !in places && l in a.files && l in b.files ==> a.files[l] == b.files[l])
  }

  // ---------------------------------------------------------------------------------------------
  // Closing

  /** What is stored after an upload that wrote to f is closed.  When the final call works: after a
      quota error the written file is gone; an atomic upload that failed otherwise leaves neither
      the temporary nor the requested file; an upload that did not fail, or failed otherwise in the
      mode that resumes, is at the requested place with exactly what was written; one in standard
      mode keeps its file.  When it does not work nothing moves.  The upload is closed either way
      and no other file is touched. */
  lemma ClosedFiles(cfg: Config, u: User, w: World, f: Loc, ioOk: bool)
    requires Valid(u, w) && f in w.uploads
    ensures f in w.fs.files
    ensures var up, w' := w.uploads[f], Closed(cfg, u, w, f, ioOk);
            var size, fs' := w.fs.files[f], w'.fs;
            && (ioOk && up.err == QuotaExceeded ==> f !in fs'.files && up.target !in fs'.files)
            && (ioOk && up.err == OtherError && f != up.target && cfg.uploadMode != AtomicWithResume ==>
                  f !in fs'.files && up.target !in fs'.files)
            && (ioOk && f != up.target && (up.err == NoError || (up.err == OtherError && cfg.uploadMode == AtomicWithResume)) ==>
                  f !in fs'.files && up.target in fs'.files && fs'.files[up.target] == size)
            && (f == up.target && up.err != QuotaExceeded ==> f in fs'.files && fs'.files[f] == size)
            && (!ioOk ==> fs' == w.fs)
            && SameFilesBut(w.fs, fs', {f, up.target}) && fs'.dirs == w.fs.dirs
            && w'.uploads.Keys == w.uploads.Keys - {f}
  {
    hide FolderFor, Charge, CloseCharge;
    assert ValidUpload(u, w, f);
  }

  // ---------------------------------------------------------------------------------------------
  // Opening

  /** The upload is let in: there is room in the ledger the item is checked against, by the number of
      files only for a new file, and a resumed file is below the largest upload. */
  predicate LetIn(cfg: Config, u: User, w: World, s: Step)
    requires s.UploadFile?
  {
    var l, b := Resolve(u, s.request), LimitingBook(u, s.request);
    && (cfg.trackQuota != 0 && BookLimit(u, b, Bytes) > 0 ==> Balance(w.books, b, Bytes) < BookLimit(u, b, Bytes))
    && (cfg.trackQuota != 0 && l !in w.fs.files && BookLimit(u, b, Files) > 0 ==> Balance(w.books, b, Files) < BookLimit(u, b, Files))
    && (s.resume && l in w.fs.files && u.maxUploadFileSize > 0 ==> w.fs.files[l] < u.maxUploadFileSize)
  }

  /** Everything an upload needs to be opened. */
  predicate MayOpen(cfg: Config, u: User, w: World, s: Step)
    requires s.UploadFile?
  {
    var l := Resolve(u, s.request);
    && s.permitted && l.path != [] && l !in w.fs.dirs && LetIn(cfg, u, w, s) && s.createOk
    && (l !in w.fs.files ==> ParentLoc(l).path == [] || ParentLoc(l) in w.fs.dirs)
    && (l in w.fs.files && cfg.uploadMode != Standard ==> s.moveOk)
  }

  lemma LetInIsAdmitted(cfg: Config, u: User, w: World, s: Step)
    requires ValidUser(u) && s.UploadFile?
    ensures var l := Resolve(u, s.request);
            var size := if l in w.fs.files then w.fs.files[l] else 0;
            LetIn(cfg, u, w, s) <==>
              HasSpaceFor(cfg, u, w.books, l !in w.fs.files, s.request)
              && !ResumeRefused(u.maxUploadFileSize, s.resume && l in w.fs.files, size, true)
  {
    LimitOfBook(u, s.request, Files);
    LimitOfBook(u, s.request, Bytes);
  }

  /** An upload is opened if and only if all of this holds; it writes to the requested place, or to
      the temporary one in the atomic modes. */
  lemma UploadOpensIff(cfg: Config, u: User, w: World, s: Step)
    requires ValidUser(u) && Valid(u, w) && s.UploadFile? && Admissible(cfg, u, w, s)
    ensures var f := if cfg.uploadMode == Standard then Resolve(u, s.request) else s.temp;
            && f !in w.uploads
            && (MayOpen(cfg, u, w, s) <==> f in Uploaded(cfg, u, w, s).uploads)
  {
    hide FolderFor, HasSpaceFor, CapFor, Charge, BookLimit, Balance, LetIn;
    LetInIsAdmitted(cfg, u, w, s);
    var l := Resolve(u, s.request);
    if l in w.fs.files {
      FilePlace(w.fs, l, l);
      if IsAtomic(cfg) { FilePlace(w.fs, l, s.temp); }
    }
  }

  /** An upload that is not opened changes nothing, except that in the atomic modes an existing file
      that was let in and moved aside stays under the temporary name if it cannot be opened there. */
  lemma RefusedUpload(cfg: Config, u: User, w: World, s: Step)
    requires ValidUser(u) && Valid(u, w) && s.UploadFile? && Admissible(cfg, u, w, s) && !MayOpen(cfg, u, w, s)
    ensures var w', l := Uploaded(cfg, u, w, s), Resolve(u, s.request);
            var aside := s.permitted && l in w.fs.files && LetIn(cfg, u, w, s) && cfg.uploadMode != Standard && s.moveOk && !s.createOk;
            && w'.books == w.books && w'.uploads == w.uploads && w'.fs.dirs == w.fs.dirs
            && (!aside ==> w' == w)
            && (aside ==> && l !in w'.fs.files && s.temp in w'.fs.files && w'.fs.files[s.temp] == w.fs.files[l]
                          && SameFilesBut(w.fs, w'.fs, {l, s.temp}))
  {
    hide FolderFor, HasSpaceFor, CapFor, Charge, BookLimit, Balance, LetIn;
    LetInIsAdmitted(cfg, u, w, s);
    var l := Resolve(u, s.request);
    if l in w.fs.files {
      FilePlace(w.fs, l, l);
      if IsAtomic(cfg) { FilePlace(w.fs, l, s.temp); }
    }
  }

  /** An opened upload starts from an empty file, or from what was there when it is resumed; in the
      atomic modes the requested place is empty meanwhile. */
  lemma OpenedFiles(cfg: Config, u: User, w: World, s: Step)
    requires ValidUser(u) && Valid(u, w) && s.UploadFile? && Admissible(cfg, u, w, s) && MayOpen(cfg, u, w, s)
    ensures var w', l := Uploaded(cfg, u, w, s), Resolve(u, s.request);
            var f := if cfg.uploadMode == Standard then l else s.temp;
            && f in w'.fs.files && w'.fs.files[f] == (if s.resume && l in w.fs.files then w.fs.files[l] else 0)
            && (f != l ==> l !in w'.fs.files) && SameFilesBut(w.fs, w'.fs, {l, f}) && w'.fs.dirs == w.fs.dirs
  {
    hide FolderFor, HasSpaceFor, CapFor, Charge, BookLimit, Balance, LetIn;
    LetInIsAdmitted(cfg, u, w, s);
    var l := Resolve(u, s.request);
    if l in w.fs.files {
      FilePlace(w.fs, l, l);
      if IsAtomic(cfg) { FilePlace(w.fs, l, s.temp); }
    }
  }

  // ---------------------------------------------------------------------------------------------
  // Removing, truncating and directories

  /** A permitted remove takes the file away and nothing else; any other remove changes nothing. */
  lemma RemovedFiles(cfg: Config, u: User, w: World, s: Step)
    requires s.RemoveFile?
    ensures var w', l := Removed(cfg, u, w, s), Resolve(u, s.request);
            if s.permitted && s.ioOk && l in w.fs.files then
              l !in w'.fs.files && SameFilesBut(w.fs, w'.fs, {l}) && w'.fs.dirs == w.fs.dirs && w'.uploads == w.uploads
            else w' == w
  {
  }

  /** A permitted truncation by path sets the size of that file alone. */
  lemma TruncatedFiles(cfg: Config, u: User, w: World, s: Step)
    requires s.TruncateFile? && forall f :: f in w.uploads ==> w.uploads[f].target != Resolve(u, s.request)
    ensures var w', l := TruncatedBy(cfg, u, w, s), Resolve(u, s.request);
            if s.permitted && s.ioOk && l in w.fs.files then
              && l in w'.fs.files && w'.fs.files[l] == s.size
              && SameFilesBut(w.fs, w'.fs, {l}) && w'.fs.dirs == w.fs.dirs && w'.uploads == w.uploads
            else w' == w
  {
    assert forall f :: !OpenFor(w, Resolve(u, s.request), f);
  }

  /** A directory is created where there is nothing, in a directory; an empty one is removed. */
  lemma ChangedDirs(u: User, w: World, s: Step)
    requires s.CreateDir? || s.RemoveDir?
    ensures var w', l := DirChanged(u, w, s), Resolve(u, s.request);
            var done := s.permitted && s.ioOk && l.path != [] &&
              if s.CreateDir? then l !in w.fs.files && l !in w.fs.dirs && (ParentLoc(l).path == [] || ParentLoc(l) in w.fs.dirs)
              else l in w.fs.dirs && forall k :: k in w.fs.files || k in w.fs.dirs ==> ParentLoc(k) != l;
            Sound(w.fs) ==>
              w' == if done then w.(fs := w.fs.(dirs := if s.CreateDir? then w.fs.dirs + {l} else w.fs.dirs - {l})) else w
  {
    assert Sound(w.fs) && Resolve(u, s.request) in w.fs.dirs ==> Entry(w.fs, Resolve(u, s.request));
  }

  // ---------------------------------------------------------------------------------------------
  // Renaming

  /** The area is on the local filesystem. */
  predicate LocalArea(u: User, c: Container) {
    match c
    case Home => u.local
    case Folder(name) => exists i :: 0 <= i < |u.mounts| && u.mounts[i].name == name && u.mounts[i].local
  }

  lemma LocalAreaOf(u: User, p: Path)
    requires ValidUser(u)
    ensures LocalArea(u, Resolve(u, p).container) <==> IsLocalAt(u, FolderFor(u, p))
  {
    var f := FolderFor(u, p);
    if f.Some? {
      var i :| 0 <= i < |u.mounts| && u.mounts[i] == f.value;
    }
  }

  /** Both places are in the same area, or both areas are local. */
  predicate Reachable(u: User, source: Path, target: Path) {
    var a, b := Resolve(u, source).container, Resolve(u, target).container;
    a == b || (LocalArea(u, a) && LocalArea(u, b))
  }

  lemma ReachableIsAllowed(u: User, source: Path, target: Path)
    requires ValidUser(u)
    ensures Reachable(u, source, target) <==> IsLocalOrSameFolderRename(u, source, target)
  {
    LocalAreaOf(u, source);
    LocalAreaOf(u, target);
  }

  /** Somewhere strictly below the path a folder is mounted. */
  predicate MountBelow(u: User, p: Path) {
    exists i :: 0 <= i < |u.mounts| && p < u.mounts[i].at
  }

  predicate MountAt(u: User, p: Path) {
    exists i :: 0 <= i < |u.mounts| && u.mounts[i].at == p
  }

  /** The number of files and bytes a rename moves fit into the ledgers. */
  ghost predicate Fits(cfg: Config, u: User, w: World, s: Step)
    requires s.RenameItem?
  {
    var src, dst := Resolve(u, s.source), Resolve(u, s.target);
    RenameFits(cfg, u, w.books, s.source, s.target, OverwrittenAt(w.fs, dst), MovedPart(w.fs, src, Bytes), MovedPart(w.fs, src, Files))
  }

  /** Nothing but storage stands in the way of a rename. */
  ghost predicate RenameOpen(cfg: Config, u: User, w: World, s: Step)
    requires s.RenameItem?
  {
    && s.permitted && s.ioOk && s.source != [] && Reachable(u, s.source, s.target)
    && !MountAt(u, s.source) && !MountAt(u, s.target) && Fits(cfg, u, w, s)
  }

  lemma RenameHappensIff(cfg: Config, u: User, w: World, s: Step)
    requires ValidUser(u) && Valid(u, w) && s.RenameItem?
    ensures var src, dst := Resolve(u, s.source), Resolve(u, s.target);
            RenameHappens(cfg, u, w, s) <==>
              && RenameOpen(cfg, u, w, s)
              && dst.path != [] && dst !in w.fs.dirs && (ParentLoc(dst).path == [] || ParentLoc(dst) in w.fs.dirs)
              && (|| src in w.fs.files
                  || (src in w.fs.dirs && !MountBelow(u, s.source) && dst !in w.fs.files && !Under(src, dst)))
  {
    hide RenameFits, MovedPart, OverwrittenAt, Resolve, IsLocalOrSameFolderRename, Reachable;
    ReachableIsAllowed(u, s.source, s.target);
    MountsInside(u, s.source);
    var src := Resolve(u, s.source);
    if src in w.fs.dirs || src in w.fs.files { assert Entry(w.fs, src); }
    if src.path == [] && s.source != [] { RootIsRoot(u, s.source); }
  }

  lemma MountsInside(u: User, p: Path)
    ensures HasVirtualFoldersInside(u, p) <==> MountBelow(u, p)
    ensures IsVirtualFolder(u, p) <==> MountAt(u, p)
  {
  }

  /** Only the root and the virtual folders are roots of an area. */
  lemma RootIsRoot(u: User, p: Path)
    requires ValidUser(u) && Resolve(u, p).path == [] && p != []
    ensures MountAt(u, p)
  {
    FolderForMeaning(u, p);
  }

  /** A directory without a mount at or below it goes to a free place outside itself with everything
      in it, and leaves nothing behind. */
  lemma DirectoryRenamed(cfg: Config, u: User, w: World, s: Step, rel: Path)
    requires ValidUser(u) && Valid(u, w) && s.RenameItem? && RenameOpen(cfg, u, w, s)
    requires var src, dst := Resolve(u, s.source), Resolve(u, s.target);
             && src in w.fs.dirs && !MountBelow(u, s.source)
             && dst.path != [] && dst !in w.fs.dirs && dst !in w.fs.files && !Under(src, dst)
             && (ParentLoc(dst).path == [] || ParentLoc(dst) in w.fs.dirs)
    ensures var src, dst, fs' := Resolve(u, s.source), Resolve(u, s.target), RenamedBy(cfg, u, w, s).fs;
            var before, after := Loc(src.container, src.path + rel), Loc(dst.container, dst.path + rel);
            && (before in w.fs.dirs <==> after in fs'.dirs) && (before in w.fs.files <==> after in fs'.files)
            && (before in w.fs.files ==> fs'.files[after] == w.fs.files[before])
            && before !in fs'.files && before !in fs'.dirs
            && (forall l :: !Under(src, l) && !Under(dst, l) ==>
                  && (l in fs'.dirs <==> l in w.fs.dirs) && (l in fs'.files <==> l in w.fs.files)
                  && (l in w.fs.files ==> fs'.files[l] == w.fs.files[l]))
  {
    hide RenameOpen, ChargeRename, MovedPart, FolderFor, MountBelow;
    RenameHappensIff(cfg, u, w, s);
    var src, dst := Resolve(u, s.source), Resolve(u, s.target);
    assert src !in w.fs.files;
    MovedSubtree(w.fs, src, dst, rel);
  }

  lemma MovedSubtree(fs: Fs, src: Loc, dst: Loc, rel: Path)
    requires Sound(fs) && CanMoveDir(fs, src, dst)
    ensures var before, after, fs' := Loc(src.container, src.path + rel), Loc(dst.container, dst.path + rel), MoveDir(fs, src, dst);
            && (before in fs.dirs <==> after in fs'.dirs) && (before in fs.files <==> after in fs'.files)
            && (before in fs.files ==> fs'.files[after] == fs.files[before])
            && before !in fs'.files && before !in fs'.dirs
  {
    var before, after := Loc(src.container, src.path + rel), Loc(dst.container, dst.path + rel);
    assert Rebase(before, src, dst) == after && Rebase(after, dst, src) == before;
    assert forall k :: Under(src, k) && Rebase(k, src, dst) == after ==> k == Rebase(Rebase(k, src, dst), dst, src);
    NothingBelow(fs, dst, after);
    if Under(dst, src) { NothingBelow(fs, dst, src); }
    if Under(dst, before) { PrefixesMeet(src, dst, before); }
  }

  /** Of two places above a third, one is above the other. */
  lemma PrefixesMeet(src: Loc, dst: Loc, l: Loc)
    requires Under(src, l) && Under(dst, l)
    ensures Under(src, dst) || Under(dst, src)
  {
  }

  /** A file goes to a place where there is no directory, over the file that may be there. */
  lemma FileRenamed(cfg: Config, u: User, w: World, s: Step)
    requires ValidUser(u) && Valid(u, w) && s.RenameItem? && RenameOpen(cfg, u, w, s)
    requires var src, dst := Resolve(u, s.source), Resolve(u, s.target);
             && src in w.fs.files && dst.path != [] && dst !in w.fs.dirs
             && (ParentLoc(dst).path == [] || ParentLoc(dst) in w.fs.dirs)
    ensures var src, dst, fs' := Resolve(u, s.source), Resolve(u, s.target), RenamedBy(cfg, u, w, s).fs;
            && dst in fs'.files && fs'.files[dst] == w.fs.files[src] && (src != dst ==> src !in fs'.files)
            && SameFilesBut(w.fs, fs', {src, dst}) && fs'.dirs == w.fs.dirs
  {
    hide RenameOpen, ChargeRename, MovedPart, FolderFor;
    RenameHappensIff(cfg, u, w, s);
  }

  /** What is never renamed: the root, a virtual folder on either side, a directory with a mount
      below it, anything onto a directory, and anything between areas that are not both local. */
  lemma RenameRefused(cfg: Config, u: User, w: World, s: Step)
    requires ValidUser(u) && Valid(u, w) && s.RenameItem?
    requires || !s.permitted || s.source == [] || MountAt(u, s.source) || MountAt(u, s.target)
             || (Resolve(u, s.source) in w.fs.dirs && MountBelow(u, s.source))
             || Resolve(u, s.target).path == [] || Resolve(u, s.target) in w.fs.dirs
             || !Reachable(u, s.source, s.target)
             || !Fits(cfg, u, w, s)
    ensures RenamedBy(cfg, u, w, s) == w
  {
    hide Fits, Reachable, MountBelow, MountAt, ChargeRename, MovedPart, FolderFor;
    RenameHappensIff(cfg, u, w, s);
    var src := Resolve(u, s.source);
    if src in w.fs.dirs { assert Entry(w.fs, src); }
  }

  // ---------------------------------------------------------------------------------------------
  // Which renames fit

  /** Renames within one area, and all renames when quotas are not tracked, need no room. */
  lemma RenameInPlaceFits(cfg: Config, u: User, w: World, s: Step)
    requires ValidUser(u) && s.RenameItem? && !MountAt(u, s.source) && !MountAt(u, s.target)
    requires cfg.trackQuota == 0 || Resolve(u, s.source).container == Resolve(u, s.target).container
    ensures Fits(cfg, u, w, s)
  {
    ResolvedContainer(u, s.source);
    ResolvedContainer(u, s.target);
  }

  /** A rename into another area fits if and only if the ledger that limits the target can take what
      is moved, less the bytes and the file it replaces, on top of what it counts now; when it is
      already full only a replacement passes, by its bytes alone.  A move from the home directory
      into a folder of the user's own quota is not looked at. */
  lemma CrossRenameFitsIff(cfg: Config, u: User, w: World, s: Step)
    requires ValidUser(u) && s.RenameItem? && !MountAt(u, s.source) && !MountAt(u, s.target)
    requires cfg.trackQuota != 0 && Resolve(u, s.source).container != Resolve(u, s.target).container
    ensures var src, dst, b := Resolve(u, s.source), Resolve(u, s.target), LimitingBook(u, s.target);
            var usedFiles, usedBytes := Balance(w.books, b, Files), Balance(w.books, b, Bytes);
            var maxFiles, maxBytes := BookLimit(u, b, Files), BookLimit(u, b, Bytes);
            var overwrites := dst in w.fs.files;
            var bytes := usedBytes + MovedPart(w.fs, src, Bytes) - (if overwrites then w.fs.files[dst] else 0);
            var files := usedFiles + (if overwrites then 0 else MovedPart(w.fs, src, Files));
            var full := (maxFiles > 0 && usedFiles >= maxFiles) || (maxBytes > 0 && usedBytes >= maxBytes);
            Fits(cfg, u, w, s) <==>
              || (src.container == Home && b == UserBook)
              || ((maxBytes > 0 ==> bytes <= maxBytes) && (if full then overwrites else maxFiles > 0 ==> files <= maxFiles))
  {
    hide MovedPart, BookLimit, Limit;
    ResolvedContainer(u, s.source);
    ResolvedContainer(u, s.target);
    LimitOfBook(u, s.target, Files);
    LimitOfBook(u, s.target, Bytes);
  }

  // ---------------------------------------------------------------------------------------------
  // Ledgers that are not kept

  /** Without tracking no ledger changes, and with tracking under restrictions only, the ledger of a
      user without restrictions does not. */
  predicate NotKept(cfg: Config, u: User, before: Books, after: Books) {
    && (cfg.trackQuota == 0 ==> after == before)
    && (cfg.trackQuota == 2 && u.quotaFiles <= 0 && u.quotaSize <= 0 ==> after.user == before.user)
  }

  lemma ChargeNotKept(cfg: Config, u: User, bs: Books, request: Path, files: int, size: int)
    ensures NotKept(cfg, u, bs, Charge(cfg, u, bs, request, files, size))
  {
  }

  lemma RenameNotKept(cfg: Config, u: User, w: World, s: Step)
    requires s.RenameItem?
    ensures NotKept(cfg, u, w.books, RenamedBy(cfg, u, w, s).books)
  {
    hide FolderFor, RenameHappens, MovedPart, Moving;
  }

  lemma UntrackedLedgers(cfg: Config, u: User, w: World, s: Step)
    requires Valid(u, w) && Admissible(cfg, u, w, s)
    ensures NotKept(cfg, u, w.books, Next(cfg, u, w, s).books)
  {
    hide Charge, RenamedBy, HasSpaceFor, CapFor, Resolve, CloseCharge;
    forall request, files, size
      ensures NotKept(cfg, u, w.books, Charge(cfg, u, w.books, request, files, size))
    {
      ChargeNotKept(cfg, u, w.books, request, files, size);
    }
    match s
    case WriteTo(file, _, _, _) => assert ValidUpload(u, w, file);
    case CloseUpload(file, _) => assert ValidUpload(u, w, file);
    case RenameItem(_, _, _, _) => RenameNotKept(cfg, u, w, s);
    case _ =>
  }
}

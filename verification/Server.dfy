/** The server as a state machine: storage, ledgers and open uploads of one user, and the operations
    that change them (common/connection.go, common/transfer.go, ftpd/handler.go).

    Outcomes the server does not control - permissions, failures of the filesystem, the temporary
    names of atomic uploads - are parameters of the operations. */
module Server {
  import opened Options
  import opened Paths
  import opened Accounts
  import opened Store
  import opened Usages
  import opened Ledger
  import opened Limits
  import opened Uploads

  /** Open uploads are known by the file they write to. */
  datatype World = World(fs: Fs, books: Books, uploads: map<Loc, Upload>)

  datatype Step =
    | UploadFile(request: Path, temp: Loc, resume: bool, permitted: bool, moveOk: bool, createOk: bool)
    | WriteTo(file: Loc, offset: nat, n: nat, ioErr: bool)
    | TruncateFile(request: Path, size: nat, permitted: bool, ioOk: bool)
    | CloseUpload(file: Loc, ioOk: bool)
    | RemoveFile(request: Path, permitted: bool, ioOk: bool)
    | RenameItem(source: Path, target: Path, permitted: bool, ioOk: bool)
    | CreateDir(request: Path, permitted: bool, ioOk: bool)
    | RemoveDir(request: Path, permitted: bool, ioOk: bool)

  // ---------------------------------------------------------------------------------------------
  // Uploads

  predicate IsAtomic(cfg: Config) {
    !cfg.uploadMode.Standard?
  }

  /** handleFTPUploadToNewFile. */
  function UploadNew(cfg: Config, u: User, w: World, request: Path, file: Loc, createOk: bool): World {
    if HasSpaceFor(cfg, u, w.books, true, request) && createOk && CanCreate(w.fs, file) then
      World(Put(w.fs, file, 0), w.books,
            w.uploads[file := Opened(request, Resolve(u, request), NewFile, 0, CapFor(cfg, u, w.books, request, false, 0))])
    else w
  }

  function MovedAside(w: World, l: Loc, file: Loc): World
    requires l in w.fs.files
  {
    if file == l then w else w.(fs := MoveFile(w.fs, l, file))
  }

  /** The file is opened: truncated and no longer counted, or kept when the upload is resumed. */
  function OpenedExisting(cfg: Config, u: User, w: World, request: Path, file: Loc, kind: OpenKind, size: nat): World {
    World(Put(w.fs, file, OpenSize(kind, size)),
          Charge(cfg, u, w.books, request, 0, OpenCharge(kind, size)),
          w.uploads[file := Opened(request, Resolve(u, request), kind, size, CapFor(cfg, u, w.books, request, kind.Resume?, size))])
  }

  /** handleFTPUploadToExistingFile: in atomic mode the existing file is first renamed to the
      temporary name, where it stays if it cannot be opened. */
  function UploadExisting(
      cfg: Config, u: User, w: World, request: Path, file: Loc, resume: bool, moveOk: bool, createOk: bool): World
    requires Resolve(u, request) in w.fs.files
  {
    var l := Resolve(u, request);
    var size := w.fs.files[l];
    if !HasSpaceFor(cfg, u, w.books, false, request) || ResumeRefused(u.maxUploadFileSize, resume, size, true) then w
    else if file != l && !(moveOk && CanMoveFile(w.fs, l, file)) then w
    else if !createOk then MovedAside(w, l, file)
    else OpenedExisting(cfg, u, MovedAside(w, l, file), request, file, if resume then Resume else Overwrite, size)
  }

  /** Connection.uploadFile. */
  function Uploaded(cfg: Config, u: User, w: World, s: Step): World
    requires s.UploadFile?
  {
    var l := Resolve(u, s.request);
    var file := if IsAtomic(cfg) then s.temp else l;
    if !s.permitted || IsDir(w.fs, l) then w
    else if l in w.fs.files then UploadExisting(cfg, u, w, s.request, file, s.resume, s.moveOk, s.createOk)
    else UploadNew(cfg, u, w, s.request, file, s.createOk)
  }

  function WrittenTo(w: World, file: Loc, offset: nat, n: nat, ioErr: bool): World
    requires file in w.uploads && file in w.fs.files
  {
    w.(fs := Put(w.fs, file, SizeAfterWrite(w.fs.files[file], offset, n)),
       uploads := w.uploads[file := Written(w.uploads[file], n, ioErr)])
  }

  /** The open upload of a requested location. */
  predicate OpenFor(w: World, target: Loc, f: Loc) {
    f in w.uploads && w.uploads[f].target == target
  }

  function HandleTruncated(cfg: Config, u: User, w: World, request: Path, f: Loc, size: nat): World
    requires f in w.uploads
  {
    World(Put(w.fs, f, size),
          Charge(cfg, u, w.books, request, 0, size - w.uploads[f].initialSize),
          w.uploads[f := Truncated(w.uploads[f], size)])
  }

  function PathTruncated(cfg: Config, u: User, w: World, request: Path, l: Loc, size: nat): World
    requires l in w.fs.files
  {
    w.(fs := Put(w.fs, l, size), books := Charge(cfg, u, w.books, request, 0, size - w.fs.files[l]))
  }

  /** BaseConnection.truncateFile: through the handle of an open upload when there is one, else by
      path.  Either way the change against what was counted is charged. */
  ghost function TruncatedBy(cfg: Config, u: User, w: World, s: Step): World
    requires s.TruncateFile?
  {
    var l := Resolve(u, s.request);
    if !s.permitted || !s.ioOk then w
    else if f: Loc :| OpenFor(w, l, f) then HandleTruncated(cfg, u, w, s.request, f, s.size)
    else if l in w.fs.files then PathTruncated(cfg, u, w, s.request, l, s.size)
    else w
  }

  function FateOf(cfg: Config, w: World, file: Loc, ioOk: bool): Fate
    requires file in w.uploads
  {
    CloseFate(cfg.uploadMode, w.uploads[file], file != w.uploads[file].target, ioOk)
  }

  function FsAfterClose(fs: Fs, file: Loc, target: Loc, fate: Fate): Fs
    requires file in fs.files
  {
    match fate
    case Deleted => Remove(fs, file)
    case Renamed => MoveFile(fs, file, target)
    case LeftInPlace => fs
  }

  /** BaseTransfer.Close. */
  function Closed(cfg: Config, u: User, w: World, file: Loc, ioOk: bool): World
    requires file in w.uploads && file in w.fs.files
  {
    var up, size := w.uploads[file], w.fs.files[file];
    var atomic, fate := file != up.target, FateOf(cfg, w, file, ioOk);
    World(FsAfterClose(w.fs, file, up.target, fate),
          Charge(cfg, u, w.books, up.request, CloseCharge(up, fate, atomic, size, Files), CloseCharge(up, fate, atomic, size, Bytes)),
          w.uploads - {file})
  }

  // ---------------------------------------------------------------------------------------------
  // Removes, renames and directories

  /** BaseConnection.RemoveFile. */
  function Removed(cfg: Config, u: User, w: World, s: Step): World
    requires s.RemoveFile?
  {
    var l := Resolve(u, s.request);
    if s.permitted && s.ioOk && l in w.fs.files then
      var size: int := w.fs.files[l];
      w.(fs := Remove(w.fs, l), books := Charge(cfg, u, w.books, s.request, -1, -size))
    else w
  }

  predicate IsLocalAt(u: User, f: Option<Mount>) {
    if f.Some? then f.value.local else u.local
  }

  /** BaseConnection.isLocalOrSameFolderRename. */
  predicate IsLocalOrSameFolderRename(u: User, source: Path, target: Path) {
    var s, d := FolderFor(u, source), FolderFor(u, target);
    || (s.None? && d.None?)
    || (s.Some? && d.Some? && s.value.name == d.value.name)
    || (IsLocalAt(u, s) && IsLocalAt(u, d))
  }

  /** The checks of BaseConnection.Rename that do not depend on permissions. */
  predicate RenameAllowed(u: User, fs: Fs, source: Path, target: Path) {
    && Exists(fs, Resolve(u, source))
    && IsLocalOrSameFolderRename(u, source, target)
    && source != []
    && !IsVirtualFolder(u, source) && !IsVirtualFolder(u, target)
    && !IsDir(fs, Resolve(u, target))
    && (IsDir(fs, Resolve(u, source)) ==> !HasVirtualFoldersInside(u, source))
  }

  /** fs.Rename: a directory does not replace a file. */
  predicate CanRename(fs: Fs, s: Loc, d: Loc) {
    if s in fs.files then CanMoveFile(fs, s, d) else CanMoveDir(fs, s, d)
  }

  function Moving(fs: Fs, s: Loc, d: Loc): Fs {
    if s in fs.files then MoveFile(fs, s, d) else MoveDir(fs, s, d)
  }

  /** What a rename moves: the file, or what fs.GetDirSize counts. */
  ghost function MovedPart(fs: Fs, s: Loc, k: Measure): int {
    if s in fs.files then Part(1, fs.files[s], k) else Subtree(Scanned(fs.files), s, k)
  }

  function OverwrittenAt(fs: Fs, d: Loc): Overwritten {
    if d in fs.files then Some(fs.files[d]) else None
  }

  ghost predicate RenameHappens(cfg: Config, u: User, w: World, s: Step)
    requires s.RenameItem?
  {
    var src, dst := Resolve(u, s.source), Resolve(u, s.target);
    && s.permitted && RenameAllowed(u, w.fs, s.source, s.target)
    && RenameFits(cfg, u, w.books, s.source, s.target, OverwrittenAt(w.fs, dst), MovedPart(w.fs, src, Bytes), MovedPart(w.fs, src, Files))
    && s.ioOk && CanRename(w.fs, src, dst)
  }

  /** BaseConnection.Rename. */
  ghost function RenamedBy(cfg: Config, u: User, w: World, s: Step): World
    requires s.RenameItem?
  {
    var src, dst := Resolve(u, s.source), Resolve(u, s.target);
    if RenameHappens(cfg, u, w, s) then
      w.(fs := Moving(w.fs, src, dst),
         books := ChargeRename(cfg, u, w.books, s.source, s.target, OverwrittenAt(w.fs, dst), MovedPart(w.fs, src, Bytes), MovedPart(w.fs, src, Files)))
    else w
  }

  function DirChanged(u: User, w: World, s: Step): World
    requires s.CreateDir? || s.RemoveDir?
  {
    var l := Resolve(u, s.request);
    if !s.permitted || !s.ioOk then w
    else if s.CreateDir? then
      if CanMkdir(w.fs, l) then w.(fs := Mkdir(w.fs, l)) else w
    else
      if CanRmdir(w.fs, l) then w.(fs := Rmdir(w.fs, l)) else w
  }

  // ---------------------------------------------------------------------------------------------
  // Steps

  /** No open upload writes to the location or will end there. */
  predicate Free(w: World, l: Loc) {
    forall f :: f in w.uploads ==> f != l && w.uploads[f].target != l
  }

  /** No open upload writes to the location or anywhere below it. */
  predicate Untouched(w: World, r: Loc) {
    forall f :: f in w.uploads ==> !Under(r, f) && !Under(r, w.uploads[f].target)
  }

  /** What is assumed of the order of operations: an item with an open upload is not uploaded again,
      removed or renamed meanwhile, and temporary names are fresh names in the same directory. */
  predicate Admissible(cfg: Config, u: User, w: World, s: Step) {
    match s
    case UploadFile(request, temp, _, _, _, _) =>
      && Free(w, Resolve(u, request))
      && (IsAtomic(cfg) ==>
            && ParentLoc(temp) == ParentLoc(Resolve(u, request)) && temp != Resolve(u, request)
            && !Exists(w.fs, temp) && Free(w, temp))
    case WriteTo(file, _, _, _) => file in w.uploads
    case CloseUpload(file, _) => file in w.uploads
    case TruncateFile(request, _, _, _) => Resolve(u, request) in w.uploads ==> w.uploads[Resolve(u, request)].target == Resolve(u, request)
    case RemoveFile(request, _, _) => Free(w, Resolve(u, request))
    case RenameItem(source, target, _, _) => Untouched(w, Resolve(u, source)) && Untouched(w, Resolve(u, target))
    case CreateDir(request, _, _) => Free(w, Resolve(u, request))
    case RemoveDir(_, _, _) => true
  }

  ghost function Next(cfg: Config, u: User, w: World, s: Step): World
    requires Valid(u, w) && Admissible(cfg, u, w, s)
  {
    match s
    case UploadFile(_, _, _, _, _, _) => Uploaded(cfg, u, w, s)
    case WriteTo(file, offset, n, ioErr) => WrittenTo(w, file, offset, n, ioErr)
    case TruncateFile(_, _, _, _) => TruncatedBy(cfg, u, w, s)
    case CloseUpload(file, ioOk) => Closed(cfg, u, w, file, ioOk)
    case RemoveFile(_, _, _) => Removed(cfg, u, w, s)
    case RenameItem(_, _, _, _) => RenamedBy(cfg, u, w, s)
    case CreateDir(_, _, _) => DirChanged(u, w, s)
    case RemoveDir(_, _, _) => DirChanged(u, w, s)
  }

  // ---------------------------------------------------------------------------------------------
  // The invariant on storage and open uploads

  predicate ValidUpload(u: User, w: World, f: Loc)
    requires f in w.uploads
  {
    var up := w.uploads[f];
    && f in w.fs.files
    && up.initialSize <= w.fs.files[f]
    && ParentLoc(f) == ParentLoc(up.target)
    && up.target == Resolve(u, up.request) && !IsVirtualFolder(u, up.request)
    && (f != up.target ==> !Exists(w.fs, up.target))
  }

  predicate DistinctTargets(ups: map<Loc, Upload>) {
    forall f, g :: f in ups && g in ups && f != g ==> ups[f].target != ups[g].target
  }

  ghost predicate Valid(u: User, w: World) {
    && Sound(w.fs)
    && (forall f :: f in w.uploads ==> ValidUpload(u, w, f))
    && DistinctTargets(w.uploads)
  }
}

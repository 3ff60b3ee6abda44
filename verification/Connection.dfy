/** The operations in the form the server has them: objects whose fields are updated step by step
    (common/transfer.go, common/connection.go, ftpd/handler.go, ftpd/transfer.go).  Every method is
    proved to take the state where the state machine of module Server takes it. */
module Connection {
  import opened Options
  import opened Paths
  import opened Accounts
  import opened Store
  import opened Usages
  import opened Ledger
  import opened Limits
  import opened Uploads
  import opened Server
  import opened Scans

  datatype TruncateResult = Done | IoFailure | Mismatch

  /** The connection of a user, with the storage and the ledgers it works on. */
  class BaseConnection {
    const cfg: Config
    const user: User
    var fs: Fs
    var books: Books
    var transfers: map<Loc, BaseTransfer>

    constructor (cfg: Config, user: User, fs: Fs, books: Books)
      requires Sound(fs)
      ensures Linked() && State() == World(fs, books, map[]) && Server.Valid(user, State())
      ensures this.cfg == cfg && this.user == user
    {
      this.cfg, this.user, this.fs, this.books, this.transfers := cfg, user, fs, books, map[];
    }

    ghost function Snapshots(): map<Loc, Upload>
      reads this, transfers.Values
    {
      map f | f in transfers :: transfers[f].Snapshot()
    }

    ghost function State(): World
      reads this, transfers.Values
    {
      World(fs, books, Snapshots())
    }

    /** The registered transfers are the open uploads of this connection. */
    ghost predicate Linked()
      reads this, transfers.Values
    {
      forall f :: f in transfers ==> transfers[f].conn == this && transfers[f].file == f
    }

    // -------------------------------------------------------------------------------------------
    // Ledger updates

    method UpdateUserQuota(files: int, size: int)
      modifies this`books
      ensures books == Ledger.UpdateUserQuota(cfg, user, old(books), files, size)
    {
      if cfg.trackQuota == 0 {
        return;
      } else if cfg.trackQuota == 2 && !user.HasQuotaRestrictions() {
        return;
      }
      if files == 0 && size == 0 {
        return;
      }
      books := books.(user := Usage(books.user.files + files, books.user.bytes + size));
    }

    method UpdateVirtualFolderQuota(name: string, files: int, size: int)
      modifies this`books
      ensures books == Ledger.UpdateVirtualFolderQuota(cfg, old(books), name, files, size)
    {
      if cfg.trackQuota == 0 {
        return;
      }
      if files == 0 && size == 0 {
        return;
      }
      var usedFiles, usedSize := FolderUsage(books, name, Files), FolderUsage(books, name, Bytes);
      books := books.(folders := books.folders[name := Usage(usedFiles + files, usedSize + size)]);
    }

    method UpdateFolder(m: Mount, files: int, size: int)
      modifies this`books
      ensures books == ChargeFolder(cfg, user, old(books), m, files, size)
    {
      UpdateVirtualFolderQuota(m.name, files, size);
      if m.IsIncludedInUserQuota() {
        UpdateUserQuota(files, size);
      }
    }

    method UpdateItem(request: Path, files: int, size: int)
      modifies this`books
      ensures books == Charge(cfg, user, old(books), request, files, size)
    {
      var vfolder := GetVirtualFolderForPath(user, Parent(request));
      if vfolder.Some? {
        UpdateFolder(vfolder.value, files, size);
      } else {
        UpdateUserQuota(files, size);
      }
    }

    // -------------------------------------------------------------------------------------------
    // Operations on open uploads

    method WriteUpload(f: Loc, offset: nat, n: nat, ioErr: bool)
      requires Linked() && f in transfers && f in fs.files
      modifies this`fs, transfers[f]
      ensures Linked() && State() == WrittenTo(old(State()), f, offset, n, ioErr)
    {
      transfers[f].Write(offset, n, ioErr);
      assert Snapshots() == old(Snapshots())[f := Written(old(Snapshots())[f], n, ioErr)];
    }

    method CloseUpload(f: Loc, ioOk: bool)
      requires Linked() && f in transfers && f in fs.files
      requires f != transfers[f].target ==> transfers[f].target !in fs.files
      modifies this`fs, this`books, this`transfers, transfers[f]
      ensures Linked() && State() == Closed(cfg, user, old(State()), f, ioOk)
    {
      var _ := transfers[f].Close(ioOk);
      assert Snapshots() == old(Snapshots()) - {f};
    }

    // -------------------------------------------------------------------------------------------
    // Removes and truncations

    method RemoveFile(request: Path, permitted: bool, ioOk: bool)
      modifies this`fs, this`books
      ensures State() == Removed(cfg, user, old(State()), Step.RemoveFile(request, permitted, ioOk))
    {
      var l := Resolve(user, request);
      if !permitted || l !in fs.files || !ioOk {
        return;
      }
      var size: int := fs.files[l];
      fs := Remove(fs, l);
      UpdateItem(request, -1, -size);
    }

    /** Each transfer is asked in turn; the first one that is for this path decides. */
    method TruncateOpenHandle(fsPath: Loc, size: nat, ioOk: bool) returns (initialSize: nat, owner: Option<Loc>)
      requires Linked()
      modifies this`fs, transfers.Values
      ensures Linked() && books == old(books)
      ensures owner.None? ==> State() == old(State()) && forall g :: !OpenFor(old(State()), fsPath, g)
      ensures owner.Some? ==>
                && OpenFor(old(State()), fsPath, owner.value)
                && initialSize == old(Snapshots())[owner.value].initialSize
                && if ioOk then fs == Put(old(fs), owner.value, size) && Snapshots() == old(Snapshots())[owner.value := Truncated(old(Snapshots())[owner.value], size)]
                   else State() == old(State())
    {
      var rest := transfers.Keys;
      while rest != {}
        invariant rest <= transfers.Keys && Linked()
        invariant fs == old(fs) && books == old(books) && transfers == old(transfers)
        invariant Snapshots() == old(Snapshots())
        invariant forall g :: g in transfers && g !in rest ==> transfers[g].target != fsPath
      {
        var g :| g in rest;
        var initial, r := transfers[g].Truncate(fsPath, size, ioOk);
        if r != Mismatch {
          assert r == Done ==> Snapshots() == old(Snapshots())[g := Truncated(old(Snapshots())[g], size)];
          return initial, Some(g);
        }
        rest := rest - {g};
      }
      return 0, None;
    }

    /** BaseConnection.truncateFile; by TruncatedByHandle this is the step of the state machine. */
    method TruncateFile(request: Path, size: nat, ioOk: bool) returns (owner: Option<Loc>)
      requires Linked()
      modifies this`fs, this`books, transfers.Values
      ensures Linked()
      ensures !ioOk ==> State() == old(State())
      ensures ioOk && owner.Some? ==>
                && OpenFor(old(State()), Resolve(user, request), owner.value)
                && State() == HandleTruncated(cfg, user, old(State()), request, owner.value, size)
      ensures ioOk && owner.None? ==>
                && (forall g :: !OpenFor(old(State()), Resolve(user, request), g))
                && State() == if Resolve(user, request) in old(fs).files
                              then PathTruncated(cfg, user, old(State()), request, Resolve(user, request), size) else old(State())
    {
      hide FolderFor, Charge, Truncated, Resolve, OpenFor;
      var l := Resolve(user, request);
      var initialSize;
      initialSize, owner := TruncateOpenHandle(l, size, ioOk);
      if !ioOk {
        return;
      }
      if owner.None? {
        if l !in fs.files {
          return;
        }
        initialSize := fs.files[l];
        fs := Put(fs, l, size);
      }
      var sizeDiff := initialSize - size;
      UpdateItem(request, 0, -sizeDiff);
    }

    // -------------------------------------------------------------------------------------------
    // Opening uploads

    method RegisterTransfer(request: Path, file: Loc, kind: OpenKind, fileSize: nat, maxWriteSize: int)
      requires Linked() && file !in transfers
      modifies this`transfers
      ensures Linked() && file in transfers && fresh(transfers[file])
      ensures Snapshots() == old(Snapshots())[file := Opened(request, Resolve(user, request), kind, fileSize, maxWriteSize)]
    {
      var kept := if kind.Resume? then fileSize else 0;
      var t := new BaseTransfer(this, file, Resolve(user, request), request, kept, kept, maxWriteSize, kind.NewFile?);
      transfers := transfers[file := t];
    }

    method HandleUploadToNewFile(request: Path, file: Loc, createOk: bool)
      requires ValidUser(user) && Linked() && file !in transfers
      modifies this`fs, this`transfers
      ensures Linked() && State() == UploadNew(cfg, user, old(State()), request, file, createOk)
    {
      hide FolderFor, HasSpaceFor, CapFor;
      var cap := AdmitUpload(cfg, user, books, request, true, false, 0);
      if cap.Refused? {
        return;
      }
      if !createOk || file.path == [] || file in fs.dirs || !IsDir(fs, ParentLoc(file)) {
        return;
      }
      fs := Put(fs, file, 0);
      RegisterTransfer(request, file, NewFile, 0, cap.maxWriteSize);
    }

    method OpenExistingFile(request: Path, file: Loc, resume: bool, fileSize: nat, maxWriteSize: int)
      requires Linked() && file !in transfers
      modifies this`fs, this`books, this`transfers
      ensures var kind := if resume then Resume else Overwrite;
              && Linked()
              && fs == Put(old(fs), file, OpenSize(kind, fileSize))
              && books == Charge(cfg, user, old(books), request, 0, OpenCharge(kind, fileSize))
              && Snapshots() == old(Snapshots())[file := Opened(request, Resolve(user, request), kind, fileSize, maxWriteSize)]
    {
      fs := Put(fs, file, if resume then fileSize else 0);
      if resume {
        NoCharge(cfg, user, books, request);
      } else {
        UpdateItem(request, 0, OpenCharge(Overwrite, fileSize));
      }
      RegisterTransfer(request, file, if resume then Resume else Overwrite, fileSize, maxWriteSize);
    }

    method HandleUploadToExistingFile(request: Path, file: Loc, resume: bool, moveOk: bool, createOk: bool)
      requires ValidUser(user) && Linked() && file !in transfers && Resolve(user, request) in fs.files
      modifies this`fs, this`books, this`transfers
      ensures Linked() && State() == UploadExisting(cfg, user, old(State()), request, file, resume, moveOk, createOk)
    {
      hide FolderFor, HasSpaceFor, CapFor, Charge, Resolve, ResumeRefused, Opened, OpenSize, OpenCharge, Put;
      var l := Resolve(user, request);
      var fileSize := fs.files[l];
      var cap := AdmitUpload(cfg, user, books, request, false, resume, fileSize);
      if cap.Refused? {
        return;
      }
      if file != l {
        if !moveOk || !CanMoveFile(fs, l, file) {
          return;
        }
        fs := MoveFile(fs, l, file);
      }
      assert State() == MovedAside(old(State()), l, file);
      if !createOk {
        return;
      }
      hide MovedAside;
      OpenExistingFile(request, file, resume, fileSize, cap.maxWriteSize);
    }

    /** Connection.uploadFile. */
    method UploadFile(request: Path, temp: Loc, resume: bool, permitted: bool, moveOk: bool, createOk: bool)
      requires ValidUser(user) && Linked() && (if IsAtomic(cfg) then temp else Resolve(user, request)) !in transfers
      modifies this`fs, this`books, this`transfers
      ensures Linked()
      ensures State() == Uploaded(cfg, user, old(State()), Step.UploadFile(request, temp, resume, permitted, moveOk, createOk))
    {
      hide UploadExisting, UploadNew, FolderFor;
      var l := Resolve(user, request);
      var filePath := l;
      if IsAtomic(cfg) {
        filePath := temp;
      }
      if !permitted || IsDir(fs, l) {
        return;
      }
      if l !in fs.files {
        HandleUploadToNewFile(request, filePath, createOk);
        return;
      }
      HandleUploadToExistingFile(request, filePath, resume, moveOk, createOk);
    }

    // -------------------------------------------------------------------------------------------
    // Renames

    method UpdateQuotaMoveBetweenVFolders(s: Mount, d: Mount, o: Overwritten, filesSize: int, numFiles: int)
      modifies this`books
      ensures books == MoveBetweenFolders(cfg, user, old(books), s, d, o, filesSize, numFiles)
    {
      if s.name == d.name {
        if o.Some? {
          UpdateFolder(d, -numFiles, 0 - o.value);
        }
        return;
      }
      UpdateFolder(s, -numFiles, -filesSize);
      if o.None? {
        UpdateFolder(d, numFiles, filesSize);
      } else {
        UpdateFolder(d, 0, filesSize - o.value);
      }
    }

    method UpdateQuotaMoveFromVFolder(s: Mount, o: Overwritten, filesSize: int, numFiles: int)
      modifies this`books
      ensures books == MoveFromFolder(cfg, user, old(books), s, o, filesSize, numFiles)
    {
      UpdateFolder(s, -numFiles, -filesSize);
      if o.None? {
        UpdateUserQuota(numFiles, filesSize);
      } else {
        UpdateUserQuota(0, filesSize - o.value);
      }
    }

    method UpdateQuotaMoveToVFolder(d: Mount, o: Overwritten, filesSize: int, numFiles: int)
      modifies this`books
      ensures books == MoveToFolder(cfg, user, old(books), d, o, filesSize, numFiles)
    {
      UpdateUserQuota(-numFiles, -filesSize);
      if o.None? {
        UpdateFolder(d, numFiles, filesSize);
      } else {
        UpdateFolder(d, 0, filesSize - o.value);
      }
    }

    /** BaseConnection.updateQuotaAfterRename: what was moved is measured where it is now. */
    method UpdateQuotaAfterRename(source: Path, target: Path, o: Overwritten)
      modifies this`books
      ensures var dst := Resolve(user, target);
              books == ChargeRename(cfg, user, old(books), source, target, o, MovedPart(fs, dst, Bytes), MovedPart(fs, dst, Files))
    {
      hide Subtree, FolderFor;
      if cfg.trackQuota == 0 {
        return;
      }
      var sourceFolder := GetVirtualFolderForPath(user, Parent(source));
      var dstFolder := GetVirtualFolderForPath(user, Parent(target));
      if sourceFolder.None? && dstFolder.None? {
        if o.Some? {
          UpdateUserQuota(-1, 0 - o.value);
        }
        return;
      }
      var numFiles, filesSize := MeasureItem(Resolve(user, target));
      if sourceFolder.Some? && dstFolder.Some? {
        UpdateQuotaMoveBetweenVFolders(sourceFolder.value, dstFolder.value, o, filesSize, numFiles);
      }
      if sourceFolder.Some? && dstFolder.None? {
        UpdateQuotaMoveFromVFolder(sourceFolder.value, o, filesSize, numFiles);
      }
      if sourceFolder.None? && dstFolder.Some? {
        UpdateQuotaMoveToVFolder(dstFolder.value, o, filesSize, numFiles);
      }
    }

    /** A file, or all the files of a directory. */
    method MeasureItem(l: Loc) returns (numFiles: int, filesSize: int)
      ensures numFiles == MovedPart(fs, l, Files) && filesSize == MovedPart(fs, l, Bytes)
    {
      numFiles, filesSize := 1, 0;
      if l in fs.files {
        filesSize := fs.files[l];
      } else {
        numFiles, filesSize := GetDirSize(fs, l);
      }
    }

    /** BaseConnection.Rename.  What is moved is measured before the move for the space check and
        after it, at the target, for the ledgers. */
    method Rename(source: Path, target: Path, permitted: bool, ioOk: bool)
      requires ValidUser(user) && Sound(fs)
      modifies this`fs, this`books
      ensures State() == RenamedBy(cfg, user, old(State()), RenameItem(source, target, permitted, ioOk))
    {
      hide FolderFor, RenameFits, ChargeRename, Subtree, MoveFile, MoveDir;
      var src, dst := Resolve(user, source), Resolve(user, target);
      if !permitted || !RenameAllowed(user, fs, source, target) {
        return;
      }
      var o := OverwrittenAt(fs, dst);
      var isRegular := src in fs.files;
      if !isRegular && o.Some? {
        return;
      }
      var numFiles, filesSize := MeasureItem(src);
      var fits := HasSpaceForRename(cfg, user, books, source, target, o, isRegular, filesSize, numFiles);
      if !fits || !ioOk || !CanRename(fs, src, dst) {
        return;
      }
      MeasuredAtTarget(fs, src, dst, Files);
      MeasuredAtTarget(fs, src, dst, Bytes);
      fs := Moving(fs, src, dst);
      UpdateQuotaAfterRename(source, target, o);
    }
  }

  /** An upload in progress. */
  class BaseTransfer {
    const conn: BaseConnection
    const request: Path
    const target: Loc
    const file: Loc
    const isNew: bool
    var minWriteOffset: nat
    var initialSize: nat
    var maxWriteSize: int
    var received: nat
    var err: TransferError
    var isFinished: bool

    constructor (conn: BaseConnection, file: Loc, target: Loc, request: Path, minWriteOffset: nat, initialSize: nat,
                 maxWriteSize: int, isNew: bool)
      ensures this.conn == conn && this.file == file && !isFinished
      ensures Snapshot() == Upload(request, target, minWriteOffset, initialSize, maxWriteSize, isNew, 0, NoError)
    {
      this.conn, this.file, this.target, this.request := conn, file, target, request;
      this.minWriteOffset, this.initialSize, this.maxWriteSize, this.isNew := minWriteOffset, initialSize, maxWriteSize, isNew;
      this.received, this.err, this.isFinished := 0, NoError, false;
    }

    function Snapshot(): Upload
      reads this
    {
      Upload(request, target, minWriteOffset, initialSize, maxWriteSize, isNew, received, err)
    }

    method TransferError(e: TransferError)
      modifies this`err
      ensures Snapshot() == Failed(old(Snapshot()), e)
    {
      if err != NoError {
        return;
      }
      err := e;
    }

    /** transfer.Write: the bytes reach the file before the cap is checked. */
    method Write(offset: nat, n: nat, ioErr: bool)
      requires file in conn.fs.files
      modifies this`received, this`err, conn`fs
      ensures conn.fs == Put(old(conn.fs), file, SizeAfterWrite(old(conn.fs).files[file], offset, n))
      ensures Snapshot() == Written(old(Snapshot()), n, ioErr)
    {
      conn.fs := Put(conn.fs, file, SizeAfterWrite(conn.fs.files[file], offset, n));
      received := received + n;
      var e := if ioErr then OtherError else NoError;
      if maxWriteSize > 0 && e == NoError && received > maxWriteSize {
        e := QuotaExceeded;
      }
      if e != NoError {
        TransferError(e);
      }
    }

    method Truncate(fsPath: Loc, size: nat, ioOk: bool) returns (initial: nat, r: TruncateResult)
      modifies this`initialSize, this`maxWriteSize, this`received, conn`fs
      ensures r == if fsPath != target then Mismatch else if ioOk then Done else IoFailure
      ensures r != Mismatch ==> initial == old(initialSize)
      ensures r == Done ==> conn.fs == Put(old(conn.fs), file, size) && Snapshot() == Truncated(old(Snapshot()), size)
      ensures r != Done ==> conn.fs == old(conn.fs) && Snapshot() == old(Snapshot())
    {
      if fsPath == target {
        initial := initialSize;
        if ioOk {
          conn.fs := Put(conn.fs, file, size);
          initialSize := size;
          if maxWriteSize > 0 {
            var sizeDiff := initial - size;
            maxWriteSize := maxWriteSize + sizeDiff;
            received := 0;
          }
          return initial, Done;
        }
        return initial, IoFailure;
      }
      return 0, Mismatch;
    }

    method UpdateQuota(numFiles: int, fileSize: nat)
      modifies conn`books
      ensures var sizeDiff := fileSize - initialSize;
              var charged := numFiles != 0 || sizeDiff > 0;
              conn.books == Charge(conn.cfg, conn.user, old(conn.books), request,
                                   if charged then numFiles else 0, if charged then sizeDiff else 0)
    {
      var sizeDiff := fileSize - initialSize;
      if numFiles != 0 || sizeDiff > 0 {
        conn.UpdateItem(request, numFiles, sizeDiff);
      } else {
        NoCharge(conn.cfg, conn.user, conn.books, request);
      }
    }

    /** The first half of BaseTransfer.Close: the file is removed, renamed or left where it is. */
    method FinishFile(ioOk: bool) returns (numFiles: int, failed: bool)
      requires file in conn.fs.files
      modifies this`received, this`minWriteOffset, conn`fs
      ensures var fate := CloseFate(conn.cfg.uploadMode, old(Snapshot()), file != target, ioOk);
              && conn.fs == FsAfterClose(old(conn.fs), file, target, fate)
              && numFiles == One(isNew) - One(fate.Deleted?)
              && received + minWriteOffset == if fate.Deleted? then 0 else old(received + minWriteOffset)
      ensures failed <==> !ioOk && (err.QuotaExceeded? || file != target)
    {
      numFiles, failed := 0, false;
      if isNew {
        numFiles := 1;
      }
      if err == QuotaExceeded {
        failed := !ioOk;
        if ioOk {
          conn.fs := Remove(conn.fs, file);
          numFiles := numFiles - 1;
          received := 0;
          minWriteOffset := 0;
        }
      } else if file != target {
        failed := !ioOk;
        if err == NoError || conn.cfg.uploadMode == AtomicWithResume {
          if ioOk {
            conn.fs := MoveFile(conn.fs, file, target);
          }
        } else if ioOk {
          conn.fs := Remove(conn.fs, file);
          numFiles := numFiles - 1;
          received := 0;
          minWriteOffset := 0;
        }
      }
    }

    /** What closing does to storage, ledgers and the table of transfers. */
    twostate predicate ClosedNow(ioOk: bool)
      requires file in old(conn.fs).files
      reads this, conn
    {
      var up, size, atomic := old(Snapshot()), old(conn.fs).files[file], file != target;
      var fate := CloseFate(conn.cfg.uploadMode, up, atomic, ioOk);
      && conn.fs == FsAfterClose(old(conn.fs), file, target, fate)
      && conn.books == Charge(conn.cfg, conn.user, old(conn.books), request,
                              CloseCharge(up, fate, atomic, size, Files), CloseCharge(up, fate, atomic, size, Bytes))
      && conn.transfers == old(conn.transfers) - {file}
    }

    /** BaseTransfer.Close.  The requested path is looked at only after the file has been removed or
        renamed. */
    method Close(ioOk: bool) returns (r: TransferError)
      requires file in conn.fs.files && (file != target ==> target !in conn.fs.files)
      modifies this`received, this`minWriteOffset, conn`fs, conn`books, conn`transfers
      ensures ClosedNow(ioOk)
      ensures r.NoError? <==> err.NoError? && (file != target ==> ioOk)
    {
      hide Charge, Put;
      var numFiles, failed := FinishFile(ioOk);
      var fileSize := received + minWriteOffset;
      if target in conn.fs.files {
        fileSize := conn.fs.files[target];
      }
      UpdateQuota(numFiles, fileSize);
      conn.transfers := conn.transfers - {file};
      r := if failed then OtherError else err;
    }

    /** transfer.Close: a second call is refused and changes nothing. */
    method CloseTransfer(ioOk: bool) returns (closed: bool)
      requires !isFinished ==> file in conn.fs.files && (file != target ==> target !in conn.fs.files)
      modifies this`isFinished, this`received, this`minWriteOffset, conn`fs, conn`books, conn`transfers
      ensures closed == !old(isFinished) && isFinished
      ensures !closed ==> conn.fs == old(conn.fs) && conn.books == old(conn.books) && conn.transfers == old(conn.transfers)
      ensures closed ==> ClosedNow(ioOk)
    {
      if isFinished {
        return false;
      }
      isFinished := true;
      var _ := Close(ioOk);
      closed := true;
    }
  }

  /** A rename moves as much as it measures at the target. */
  lemma MeasuredAtTarget(fs: Fs, s: Loc, d: Loc, k: Measure)
    requires Sound(fs) && CanRename(fs, s, d)
    ensures MovedPart(Moving(fs, s, d), d, k) == MovedPart(fs, s, k)
  {
    if s !in fs.files {
      forall l | l in fs.files
        ensures !Under(d, l)
      {
        if Under(d, l) { NothingBelow(fs, d, l); }
      }
      SubtreeAfterMove(fs.files, s, d, k);
      assert Rebase(d, d, s) == s;
    }
  }

  /** There is one upload per requested path, so it is the one that is found. */
  lemma TruncatedByHandle(cfg: Config, u: User, w: World, s: Step, f: Loc)
    requires s.TruncateFile? && s.permitted && s.ioOk && DistinctTargets(w.uploads) && OpenFor(w, Resolve(u, s.request), f)
    ensures TruncatedBy(cfg, u, w, s) == HandleTruncated(cfg, u, w, s.request, f, s.size)
  {
  }
}

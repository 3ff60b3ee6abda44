/** Conservation: what the ledgers count is what is stored.

    While uploads are open a ledger counts their files as they were charged, not as they are.
    `Booked` is the storage as the ledgers should count it; the error of a ledger is its distance
    from that.  No operation changes the error, except for the named drifts. */
module Conservation {
  import opened Options
  import opened Paths
  import opened Accounts
  import opened Store
  import opened Usages
  import opened Ledger
  import opened Limits
  import opened Uploads
  import opened Server
  import opened Validity

  function BookedAt(w: World, l: Loc): Usage
    requires l in w.fs.files
  {
    if l in w.uploads then Usage(Counted(w.uploads[l], Files), Counted(w.uploads[l], Bytes)) else Usage(1, w.fs.files[l])
  }

  function Booked(w: World): map<Loc, Usage> {
    map l | l in w.fs.files :: BookedAt(w, l)
  }

  ghost function Error(u: User, w: World, b: Book, k: Measure): int {
    Balance(w.books, b, k) - Total(Booked(w), Covered(u, b), k)
  }

  // ---------------------------------------------------------------------------------------------
  // The drifts

  /** How far one operation takes the ledgers covering an area from what is stored there. */
  datatype Drift = Drift(area: Container, files: int, bytes: int)

  const NO_DRIFT := Drift(Home, 0, 0)

  function Amount(d: Drift, k: Measure): int {
    if k.Files? then d.files else d.bytes
  }

  function DriftOfClose(cfg: Config, w: World, file: Loc, ioOk: bool): Drift
    requires file in w.uploads && file in w.fs.files
  {
    var up, size := w.uploads[file], w.fs.files[file];
    var atomic, fate := file != up.target, FateOf(cfg, w, file, ioOk);
    Drift(file.container, CloseDrift(up, fate, atomic, size, Files), CloseDrift(up, fate, atomic, size, Bytes))
  }

  /** Renaming a file to itself takes it out of the ledger. */
  ghost function DriftOfRename(cfg: Config, u: User, w: World, s: Step): Drift
    requires s.RenameItem?
  {
    var src := Resolve(u, s.source);
    if RenameHappens(cfg, u, w, s) && src == Resolve(u, s.target) && src in w.fs.files then
      var size: int := w.fs.files[src];
      Drift(src.container, -1, -size)
    else NO_DRIFT
  }

  ghost function DriftOf(cfg: Config, u: User, w: World, s: Step): Drift
    requires Valid(u, w) && Admissible(cfg, u, w, s)
  {
    match s
    case CloseUpload(file, ioOk) => assert ValidUpload(u, w, file); DriftOfClose(cfg, w, file, ioOk)
    case RenameItem(_, _, _, _) => DriftOfRename(cfg, u, w, s)
    case _ => NO_DRIFT
  }

  // ---------------------------------------------------------------------------------------------
  // Uploads

  lemma UploadNewError(cfg: Config, u: User, w: World, request: Path, file: Loc, createOk: bool, b: Book, k: Measure)
    requires file !in w.fs.files && file !in w.uploads
    ensures Error(u, UploadNew(cfg, u, w, request, file, createOk), b, k) == Error(u, w, b, k)
  {
    hide FolderFor, Total, Charge;
    var w' := UploadNew(cfg, u, w, request, file, createOk);
    if w' != w {
      assert Booked(w') == Booked(w)[file := BookedAt(w', file)];
      TotalPut(Booked(w), file, BookedAt(w', file), Covered(u, b), k);
    }
  }

  lemma MovedAsideError(u: User, w: World, l: Loc, file: Loc, b: Book, k: Measure)
    requires l in w.fs.files && l !in w.uploads && file !in w.uploads && l.container == file.container
    requires file != l ==> file !in w.fs.files
    ensures Error(u, MovedAside(w, l, file), b, k) == Error(u, w, b, k)
  {
    hide FolderFor, Total, Charge;
    var w' := MovedAside(w, l, file);
    if file != l {
      var m := Booked(w) - {l};
      assert Booked(w') == m[file := BookedAt(w, l)];
      TotalRemove(Booked(w), l, Covered(u, b), k);
      TotalPut(m, file, BookedAt(w, l), Covered(u, b), k);
    }
  }

  lemma OpenedExistingError(
      cfg: Config, u: User, w: World, request: Path, file: Loc, kind: OpenKind, size: nat, b: Book, k: Measure)
    requires ValidUser(u) && ValidConfig(cfg) && Tracked(cfg, u, b) && !IsVirtualFolder(u, request)
    requires file in w.fs.files && file !in w.uploads && w.fs.files[file] == size && !kind.NewFile?
    requires file.container == Resolve(u, request).container
    ensures Error(u, OpenedExisting(cfg, u, w, request, file, kind, size), b, k) == Error(u, w, b, k)
  {
    hide FolderFor, Total, Charge;
    var w' := OpenedExisting(cfg, u, w, request, file, kind, size);
    assert Booked(w') == Booked(w)[file := BookedAt(w', file)];
    TotalPut(Booked(w), file, BookedAt(w', file), Covered(u, b), k);
    ChargeBalance(cfg, u, w.books, request, 0, OpenCharge(kind, size), b, k);
  }

  lemma UploadedError(cfg: Config, u: User, w: World, s: Step, b: Book, k: Measure)
    requires ValidUser(u) && ValidConfig(cfg) && Tracked(cfg, u, b)
    requires Valid(u, w) && s.UploadFile? && Admissible(cfg, u, w, s)
    ensures Error(u, Uploaded(cfg, u, w, s), b, k) == Error(u, w, b, k)
  {
    hide FolderFor, Total, Charge;
    var l := Resolve(u, s.request);
    var file := if IsAtomic(cfg) then s.temp else l;
    if IsDir(w.fs, l) {
    } else if l in w.fs.files {
      FileIsNoVirtualFolder(u, s.request);
      MovedAsideError(u, w, l, file, b, k);
      OpenedExistingError(cfg, u, MovedAside(w, l, file), s.request, file, if s.resume then Resume else Overwrite, w.fs.files[l], b, k);
    } else {
      UploadNewError(cfg, u, w, s.request, file, s.createOk, b, k);
    }
  }

  lemma WriteError(u: User, w: World, file: Loc, offset: nat, n: nat, ioErr: bool, b: Book, k: Measure)
    requires Valid(u, w) && file in w.uploads
    ensures ValidUpload(u, w, file)
    ensures Error(u, WrittenTo(w, file, offset, n, ioErr), b, k) == Error(u, w, b, k)
  {
    hide FolderFor, Total, Charge;
    assert ValidUpload(u, w, file);
    assert Booked(WrittenTo(w, file, offset, n, ioErr)) == Booked(w);
  }

  lemma HandleTruncatedError(cfg: Config, u: User, w: World, request: Path, f: Loc, size: nat, b: Book, k: Measure)
    requires ValidUser(u) && ValidConfig(cfg) && Tracked(cfg, u, b) && !IsVirtualFolder(u, request)
    requires f in w.uploads && f in w.fs.files && f.container == Resolve(u, request).container
    ensures Error(u, HandleTruncated(cfg, u, w, request, f, size), b, k) == Error(u, w, b, k)
  {
    hide FolderFor, Total, Charge;
    var w' := HandleTruncated(cfg, u, w, request, f, size);
    assert Booked(w') == Booked(w)[f := BookedAt(w', f)];
    TotalPut(Booked(w), f, BookedAt(w', f), Covered(u, b), k);
    ChargeBalance(cfg, u, w.books, request, 0, size - w.uploads[f].initialSize, b, k);
  }

  lemma PathTruncatedError(cfg: Config, u: User, w: World, request: Path, size: nat, b: Book, k: Measure)
    requires ValidUser(u) && ValidConfig(cfg) && Tracked(cfg, u, b) && !IsVirtualFolder(u, request)
    requires Resolve(u, request) in w.fs.files && Resolve(u, request) !in w.uploads
    ensures Error(u, PathTruncated(cfg, u, w, request, Resolve(u, request), size), b, k) == Error(u, w, b, k)
  {
    hide FolderFor, Total, Charge;
    var l := Resolve(u, request);
    var w' := PathTruncated(cfg, u, w, request, l, size);
    assert Booked(w') == Booked(w)[l := BookedAt(w', l)];
    TotalPut(Booked(w), l, BookedAt(w', l), Covered(u, b), k);
    ChargeBalance(cfg, u, w.books, request, 0, size - w.fs.files[l], b, k);
  }

  lemma TruncateError(cfg: Config, u: User, w: World, s: Step, b: Book, k: Measure)
    requires ValidUser(u) && ValidConfig(cfg) && Tracked(cfg, u, b)
    requires Valid(u, w) && s.TruncateFile? && Admissible(cfg, u, w, s)
    ensures Error(u, TruncatedBy(cfg, u, w, s), b, k) == Error(u, w, b, k)
  {
    var l := Resolve(u, s.request);
    forall f | OpenFor(w, l, f)
      ensures Error(u, HandleTruncated(cfg, u, w, s.request, f, s.size), b, k) == Error(u, w, b, k)
    {
      assert ValidUpload(u, w, f);
      FilePlace(w.fs, f, w.uploads[f].target);
      FileIsNoVirtualFolder(u, s.request);
      HandleTruncatedError(cfg, u, w, s.request, f, s.size, b, k);
    }
    if l in w.fs.files && !OpenFor(w, l, l) {
      FilePlace(w.fs, l, l);
      FileIsNoVirtualFolder(u, s.request);
      PathTruncatedError(cfg, u, w, s.request, s.size, b, k);
    }
  }

  /** One file leaves the books and another entry takes its place. */
  lemma TotalReplace(m: map<Loc, Usage>, file: Loc, target: Loc, v: Usage, cs: set<Container>, k: Measure)
    requires file in m && target.container == file.container && (target != file ==> target !in m)
    ensures Total((m - {file})[target := v], cs, k) == Total(m, cs, k) + Share(file.container, Of(v, k) - Of(m[file], k), cs)
  {
    TotalRemove(m, file, cs, k);
    TotalPut(m - {file}, target, v, cs, k);
  }

  /** What the ledgers should count after the close. */
  lemma BookedAfterClose(cfg: Config, u: User, w: World, file: Loc, ioOk: bool, cs: set<Container>, k: Measure)
    requires Valid(u, w) && file in w.uploads
    ensures ValidUpload(u, w, file)
    ensures var fate := FateOf(cfg, w, file, ioOk);
            Total(Booked(Closed(cfg, u, w, file, ioOk)), cs, k) ==
            Total(Booked(w), cs, k) + Share(file.container, Final(fate, w.fs.files[file], k) - Counted(w.uploads[file], k), cs)
  {
    hide FolderFor, Total, Charge;
    assert ValidUpload(u, w, file);
    FileStaysAlone(u, w, file);
    var w', m, v := Closed(cfg, u, w, file, ioOk), Booked(w), Usage(1, w.fs.files[file]);
    match FateOf(cfg, w, file, ioOk)
    case Deleted =>
      assert Booked(w') == m - {file};
      TotalRemove(m, file, cs, k);
    case Renamed =>
      assert Booked(w') == (m - {file})[w.uploads[file].target := v];
      TotalReplace(m, file, w.uploads[file].target, v, cs, k);
    case LeftInPlace =>
      assert Booked(w') == (m - {file})[file := v];
      TotalReplace(m, file, file, v, cs, k);
  }

  lemma FileStaysAlone(u: User, w: World, file: Loc)
    requires Valid(u, w) && file in w.uploads
    ensures var target := w.uploads[file].target; target != file ==> target !in w.uploads && target !in w.fs.files
  {
  }

  lemma CloseError(cfg: Config, u: User, w: World, file: Loc, ioOk: bool, b: Book, k: Measure)
    requires ValidUser(u) && ValidConfig(cfg) && Tracked(cfg, u, b)
    requires Valid(u, w) && file in w.uploads
    ensures ValidUpload(u, w, file)
    ensures var d := DriftOfClose(cfg, w, file, ioOk);
            Error(u, Closed(cfg, u, w, file, ioOk), b, k) == Error(u, w, b, k) + Share(d.area, Amount(d, k), Covered(u, b))
  {
    hide FolderFor, Total, Charge;
    assert ValidUpload(u, w, file);
    var up, size := w.uploads[file], w.fs.files[file];
    var atomic, fate := file != up.target, FateOf(cfg, w, file, ioOk);
    BookedAfterClose(cfg, u, w, file, ioOk, Covered(u, b), k);
    ChargeBalance(cfg, u, w.books, up.request,
                  CloseCharge(up, fate, atomic, size, Files), CloseCharge(up, fate, atomic, size, Bytes), b, k);
  }

  // ---------------------------------------------------------------------------------------------
  // Removes and renames

  lemma RemoveError(cfg: Config, u: User, w: World, s: Step, b: Book, k: Measure)
    requires ValidUser(u) && ValidConfig(cfg) && Tracked(cfg, u, b)
    requires Valid(u, w) && s.RemoveFile? && Free(w, Resolve(u, s.request))
    ensures Error(u, Removed(cfg, u, w, s), b, k) == Error(u, w, b, k)
  {
    hide FolderFor, Total, Charge;
    var l := Resolve(u, s.request);
    var w' := Removed(cfg, u, w, s);
    if w' != w {
      var size: int := w.fs.files[l];
      FilePlace(w.fs, l, l);
      FileIsNoVirtualFolder(u, s.request);
      assert Booked(w') == Booked(w) - {l};
      TotalRemove(Booked(w), l, Covered(u, b), k);
      ChargeBalance(cfg, u, w.books, s.request, -1, -size, b, k);
    }
  }

  /** A file that moves, possibly over another one. */
  lemma TotalMoveFile(w: World, s: Loc, d: Loc, cs: set<Container>, k: Measure)
    requires s in w.fs.files && s !in w.uploads && d !in w.uploads
    ensures Total(Booked(w.(fs := MoveFile(w.fs, s, d))), cs, k) ==
            Total(Booked(w), cs, k) +
              (if s == d then 0 else RenameEffect(s.container, d.container, OverwrittenAt(w.fs, d), w.fs.files[s], 1, cs, k))
  {
    var w', m := w.(fs := MoveFile(w.fs, s, d)), Booked(w) - {s};
    if s == d {
      assert Booked(w') == Booked(w);
    } else {
      assert Booked(w') == m[d := BookedAt(w, s)];
      TotalRemove(Booked(w), s, cs, k);
      TotalPut(m, d, BookedAt(w, s), cs, k);
    }
  }

  /** A directory that moves with everything in it. */
  lemma TotalMoveDir(u: User, w: World, s: Loc, d: Loc, cs: set<Container>, k: Measure)
    requires Valid(u, w) && CanMoveDir(w.fs, s, d) && Untouched(w, s) && Untouched(w, d) && s !in w.fs.files
    ensures Total(Booked(w.(fs := MoveDir(w.fs, s, d))), cs, k) ==
            Total(Booked(w), cs, k) + RenameEffect(s.container, d.container, None, MovedPart(w.fs, s, Bytes), MovedPart(w.fs, s, Files), cs, k)
  {
    var m := Booked(w);
    forall l | l in m
      ensures !Under(d, l)
    {
      if Under(d, l) { NothingBelow(w.fs, d, l); }
    }
    TotalMoveMap(m, s, d, cs, k);
    SubtreeAsScanned(w, s, k);
    BookedMoves(w, s, d);
  }

  lemma SubtreeAsScanned(w: World, s: Loc, k: Measure)
    requires Untouched(w, s)
    ensures Subtree(Booked(w), s, k) == Subtree(Scanned(w.fs.files), s, k)
  {
    assert LocsBelow(Booked(w), s) == LocsBelow(Scanned(w.fs.files), s);
    SumAgree(Booked(w), Scanned(w.fs.files), LocsBelow(Booked(w), s), k);
  }

  lemma BookedMoves(w: World, s: Loc, d: Loc)
    requires Untouched(w, s) && Untouched(w, d)
    ensures Booked(w.(fs := MoveDir(w.fs, s, d))) == MoveMap(Booked(w), s, d)
  {
    hide FolderFor, Total, Charge, MoveMap;
    var w', m := w.(fs := MoveDir(w.fs, s, d)), Booked(w);
    forall l | l in w'.fs.files
      ensures l in MoveMap(m, s, d) && MoveMap(m, s, d)[l] == BookedAt(w', l)
    {
      var _ := MovedFrom(w.fs.files, m, s, d, l);
    }
    forall l | l in MoveMap(m, s, d)
      ensures l in w'.fs.files
    {
      var _ := MovedFrom(m, w.fs.files, s, d, l);
    }
  }

  /** A rename moves what it moves, over what it replaces; a file renamed to itself stays. */
  lemma TotalRename(u: User, w: World, src: Loc, dst: Loc, cs: set<Container>, k: Measure)
    requires Valid(u, w) && Untouched(w, src) && Untouched(w, dst) && CanRename(w.fs, src, dst)
    ensures Total(Booked(w.(fs := Moving(w.fs, src, dst))), cs, k) ==
            Total(Booked(w), cs, k) +
              (if src == dst && src in w.fs.files then 0
               else RenameEffect(src.container, dst.container, OverwrittenAt(w.fs, dst), MovedPart(w.fs, src, Bytes), MovedPart(w.fs, src, Files), cs, k))
  {
    hide Total, Subtree, Booked, Valid, MoveFile, MoveDir;
    if src in w.fs.files {
      TotalMoveFile(w, src, dst, cs, k);
    } else {
      TotalMoveDir(u, w, src, dst, cs, k);
    }
  }

  lemma RenameError(cfg: Config, u: User, w: World, s: Step, b: Book, k: Measure)
    requires ValidUser(u) && ValidConfig(cfg) && Tracked(cfg, u, b)
    requires Valid(u, w) && s.RenameItem? && Admissible(cfg, u, w, s)
    ensures var d := DriftOfRename(cfg, u, w, s);
            Error(u, RenamedBy(cfg, u, w, s), b, k) == Error(u, w, b, k) + Share(d.area, Amount(d, k), Covered(u, b))
  {
    hide Resolve, Total, ChargeRename, RenameFits, MovedPart, Booked, Covered, Balance, Moving, CanRename, Untouched, Valid;
    var src, dst := Resolve(u, s.source), Resolve(u, s.target);
    if RenameHappens(cfg, u, w, s) {
      if OverwrittenAt(w.fs, dst).Some? { OneFileReplaces(w.fs, src, dst); }
      RenameBalance(cfg, u, w.books, s.source, s.target, OverwrittenAt(w.fs, dst),
                    MovedPart(w.fs, src, Bytes), MovedPart(w.fs, src, Files), b, k);
      TotalRename(u, w, src, dst, Covered(u, b), k);
      BookedIgnoresBooks(w, RenamedBy(cfg, u, w, s).books, Moving(w.fs, src, dst));
      if src == dst && src in w.fs.files { SelfRenameEffect(w.fs, src, Covered(u, b), k); }
    }
  }

  lemma OneFileReplaces(fs: Fs, src: Loc, dst: Loc)
    requires CanRename(fs, src, dst) && OverwrittenAt(fs, dst).Some?
    ensures MovedPart(fs, src, Files) == 1
  {
  }

  lemma SelfRenameEffect(fs: Fs, src: Loc, cs: set<Container>, k: Measure)
    requires src in fs.files
    ensures var size: int := fs.files[src];
            RenameEffect(src.container, src.container, OverwrittenAt(fs, src), MovedPart(fs, src, Bytes), MovedPart(fs, src, Files), cs, k) ==
            Share(src.container, Part(-1, -size, k), cs)
  {
  }

  /** Exactly when a rename takes the ledgers covering the source from what is stored: a file is
      renamed to itself. */
  lemma RenameDriftsIff(cfg: Config, u: User, w: World, s: Step, b: Book)
    requires ValidUser(u) && ValidConfig(cfg) && Tracked(cfg, u, b)
    requires Valid(u, w) && s.RenameItem? && Admissible(cfg, u, w, s) && Resolve(u, s.source).container in Covered(u, b)
    ensures Error(u, RenamedBy(cfg, u, w, s), b, Files) != Error(u, w, b, Files) <==>
              RenameHappens(cfg, u, w, s) && s.source == s.target && Resolve(u, s.source) in w.fs.files
  {
    hide Error, RenamedBy, RenameHappens, Resolve, Covered;
    RenameError(cfg, u, w, s, b, Files);
    if Resolve(u, s.source) == Resolve(u, s.target) { ResolveInjective(u, s.source, s.target); }
  }

  lemma BookedIgnoresBooks(w: World, bs: Books, fs: Fs)
    ensures Booked(w.(fs := fs, books := bs)) == Booked(w.(fs := fs))
  {
  }

  lemma DirChangeError(u: User, w: World, s: Step, b: Book, k: Measure)
    requires s.CreateDir? || s.RemoveDir?
    ensures Error(u, DirChanged(u, w, s), b, k) == Error(u, w, b, k)
  {
    assert Booked(DirChanged(u, w, s)) == Booked(w);
  }

  // ---------------------------------------------------------------------------------------------
  // Every step

  /** No operation changes the error of a tracked ledger except by its drift. */
  lemma StepError(cfg: Config, u: User, w: World, s: Step, b: Book, k: Measure)
    requires ValidUser(u) && ValidConfig(cfg) && Tracked(cfg, u, b)
    requires Valid(u, w) && Admissible(cfg, u, w, s)
    ensures var d := DriftOf(cfg, u, w, s);
            Error(u, Next(cfg, u, w, s), b, k) == Error(u, w, b, k) + Share(d.area, Amount(d, k), Covered(u, b))
  {
    hide FolderFor, Total, Error, Uploaded, WrittenTo, TruncatedBy, Closed, Removed, RenamedBy, DirChanged, ValidUpload;
    match s
    case UploadFile(_, _, _, _, _, _) => UploadedError(cfg, u, w, s, b, k);
    case WriteTo(file, offset, n, ioErr) =>
      WriteError(u, w, file, offset, n, ioErr, b, k);
    case TruncateFile(_, _, _, _) => TruncateError(cfg, u, w, s, b, k);
    case CloseUpload(file, ioOk) => CloseError(cfg, u, w, file, ioOk, b, k);
    case RemoveFile(_, _, _) => RemoveError(cfg, u, w, s, b, k);
    case RenameItem(_, _, _, _) => RenameError(cfg, u, w, s, b, k);
    case CreateDir(_, _, _) => DirChangeError(u, w, s, b, k);
    case RemoveDir(_, _, _) => DirChangeError(u, w, s, b, k);
  }
}

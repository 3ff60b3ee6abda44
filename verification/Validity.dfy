/** Every admissible operation keeps storage and open uploads consistent. */
module Validity {
  import opened Paths
  import opened Accounts
  import opened Store
  import opened Usages
  import opened Ledger
  import opened Limits
  import opened Uploads
  import opened Server

  /** A file is never requested by the path of a virtual folder: that resolves to a root. */
  lemma FileIsNoVirtualFolder(u: User, p: Path)
    requires Resolve(u, p).path != []
    ensures !IsVirtualFolder(u, p) && p != []
  {
  }

  /** The file an upload writes to is distinct from every requested location but its own. */
  lemma FileOfOneUpload(u: User, w: World, f: Loc, g: Loc)
    requires Valid(u, w) && f in w.uploads && g in w.uploads && f != g
    ensures w.uploads[g].target != f
  {
  }

  // ---------------------------------------------------------------------------------------------
  // One upload under a change of the store

  lemma KeepsUpload(u: User, w: World, w': World, f: Loc)
    requires f in w.uploads && f in w'.uploads && ValidUpload(u, w, f)
    requires w'.uploads[f].target == w.uploads[f].target && w'.uploads[f].request == w.uploads[f].request
    requires f in w'.fs.files && w'.uploads[f].initialSize <= w'.fs.files[f]
    requires Exists(w'.fs, w.uploads[f].target) ==> Exists(w.fs, w.uploads[f].target)
    ensures ValidUpload(u, w', f)
  {
  }

  lemma DistinctUpdate(ups: map<Loc, Upload>, f: Loc, up: Upload)
    requires DistinctTargets(ups)
    requires forall g :: g in ups && g != f ==> ups[g].target != up.target
    ensures DistinctTargets(ups[f := up])
  {
  }

  lemma UploadNewValid(cfg: Config, u: User, w: World, request: Path, file: Loc, createOk: bool)
    requires Valid(u, w) && !Exists(w.fs, Resolve(u, request)) && Free(w, Resolve(u, request))
    requires file == Resolve(u, request) || (ParentLoc(file) == ParentLoc(Resolve(u, request)) && !Exists(w.fs, file) && Free(w, file))
    ensures Valid(u, UploadNew(cfg, u, w, request, file, createOk))
  {
    hide FolderFor, Charge;
    var w' := UploadNew(cfg, u, w, request, file, createOk);
    FileIsNoVirtualFolder(u, request);
    if w' != w {
      PutSound(w.fs, file, 0);
      DistinctUpdate(w.uploads, file, w'.uploads[file]);
      forall f | f in w'.uploads
        ensures ValidUpload(u, w', f)
      {
        if f != file { KeepsUpload(u, w, w', f); }
      }
    }
  }

  lemma MovedAsideValid(u: User, w: World, l: Loc, file: Loc)
    requires Valid(u, w) && l in w.fs.files && Free(w, l)
    requires file != l ==> CanCreate(w.fs, file) && Free(w, file)
    ensures Valid(u, MovedAside(w, l, file))
  {
    hide FolderFor, Charge;
    var w' := MovedAside(w, l, file);
    if file != l { MoveFileSound(w.fs, l, file); }
    forall f | f in w'.uploads
      ensures ValidUpload(u, w', f)
    {
      KeepsUpload(u, w, w', f);
    }
  }

  lemma OpenedExistingValid(cfg: Config, u: User, w: World, request: Path, file: Loc, kind: OpenKind, size: nat)
    requires Valid(u, w) && file in w.fs.files && Free(w, file) && Free(w, Resolve(u, request))
    requires ParentLoc(file) == ParentLoc(Resolve(u, request)) && !IsVirtualFolder(u, request)
    requires file != Resolve(u, request) ==> !Exists(w.fs, Resolve(u, request))
    ensures Valid(u, OpenedExisting(cfg, u, w, request, file, kind, size))
  {
    hide FolderFor, Charge;
    var w' := OpenedExisting(cfg, u, w, request, file, kind, size);
    FilePlace(w.fs, file, file);
    PutSound(w.fs, file, OpenSize(kind, size));
    DistinctUpdate(w.uploads, file, w'.uploads[file]);
    forall f | f in w'.uploads
      ensures ValidUpload(u, w', f)
    {
      if f != file { KeepsUpload(u, w, w', f); }
    }
  }

  lemma UploadExistingValid(
      cfg: Config, u: User, w: World, request: Path, file: Loc, resume: bool, moveOk: bool, createOk: bool)
    requires Valid(u, w) && Resolve(u, request) in w.fs.files && Free(w, Resolve(u, request))
    requires file == Resolve(u, request) || (ParentLoc(file) == ParentLoc(Resolve(u, request)) && !Exists(w.fs, file) && Free(w, file))
    ensures Valid(u, UploadExisting(cfg, u, w, request, file, resume, moveOk, createOk))
  {
    var l := Resolve(u, request);
    FilePlace(w.fs, l, file);
    FileIsNoVirtualFolder(u, request);
    MovedAsideValid(u, w, l, file);
    OpenedExistingValid(cfg, u, MovedAside(w, l, file), request, file, if resume then Resume else Overwrite, w.fs.files[l]);
  }

  lemma WriteValid(u: User, w: World, file: Loc, offset: nat, n: nat, ioErr: bool)
    requires Valid(u, w) && file in w.uploads
    ensures ValidUpload(u, w, file) && Valid(u, WrittenTo(w, file, offset, n, ioErr))
  {
    hide Resolve, IsVirtualFolder;
    assert ValidUpload(u, w, file);
    var w' := WrittenTo(w, file, offset, n, ioErr);
    FilePlace(w.fs, file, file);
    PutSound(w.fs, file, w'.fs.files[file]);
    DistinctUpdate(w.uploads, file, w'.uploads[file]);
    hide Sound;
    forall f | f in w'.uploads
      ensures ValidUpload(u, w', f)
    {
      KeepsUpload(u, w, w', f);
    }
  }

  lemma HandleTruncatedValid(cfg: Config, u: User, w: World, request: Path, f: Loc, size: nat)
    requires Valid(u, w) && f in w.uploads
    ensures Valid(u, HandleTruncated(cfg, u, w, request, f, size))
  {
    hide FolderFor, Charge;
    var w' := HandleTruncated(cfg, u, w, request, f, size);
    assert ValidUpload(u, w, f);
    FilePlace(w.fs, f, f);
    PutSound(w.fs, f, size);
    DistinctUpdate(w.uploads, f, w'.uploads[f]);
    forall g | g in w'.uploads
      ensures ValidUpload(u, w', g)
    {
      KeepsUpload(u, w, w', g);
    }
  }

  lemma PathTruncatedValid(cfg: Config, u: User, w: World, request: Path, l: Loc, size: nat)
    requires Valid(u, w) && l in w.fs.files && l !in w.uploads
    ensures Valid(u, PathTruncated(cfg, u, w, request, l, size))
  {
    hide FolderFor, Charge;
    var w' := PathTruncated(cfg, u, w, request, l, size);
    FilePlace(w.fs, l, l);
    PutSound(w.fs, l, size);
    forall g | g in w'.uploads
      ensures ValidUpload(u, w', g)
    {
      KeepsUpload(u, w, w', g);
    }
  }

  lemma TruncateValid(cfg: Config, u: User, w: World, s: Step)
    requires Valid(u, w) && s.TruncateFile? && Admissible(cfg, u, w, s)
    ensures Valid(u, TruncatedBy(cfg, u, w, s))
  {
    var l := Resolve(u, s.request);
    forall f | OpenFor(w, l, f)
      ensures Valid(u, HandleTruncated(cfg, u, w, s.request, f, s.size))
    {
      HandleTruncatedValid(cfg, u, w, s.request, f, s.size);
    }
    if l in w.fs.files && !OpenFor(w, l, l) {
      PathTruncatedValid(cfg, u, w, s.request, l, s.size);
    }
  }

  /** Whatever becomes of the file, storage stays well-formed and other places stay as they are. */
  lemma FsAfterCloseSound(fs: Fs, file: Loc, target: Loc, fate: Fate)
    requires Sound(fs) && file in fs.files && CanCreate(fs, target)
    ensures Sound(FsAfterClose(fs, file, target, fate))
    ensures forall l :: l != file && l != target ==>
              && (Exists(FsAfterClose(fs, file, target, fate), l) <==> Exists(fs, l))
              && (l in FsAfterClose(fs, file, target, fate).files <==> l in fs.files)
              && (l in fs.files ==> FsAfterClose(fs, file, target, fate).files[l] == fs.files[l])
  {
    match fate
    case Deleted => RemoveSound(fs, file);
    case Renamed => MoveFileSound(fs, file, target);
    case LeftInPlace =>
  }

  lemma CloseValid(cfg: Config, u: User, w: World, file: Loc, ioOk: bool)
    requires Valid(u, w) && file in w.uploads
    ensures ValidUpload(u, w, file) && Valid(u, Closed(cfg, u, w, file, ioOk))
  {
    hide FolderFor, Charge, CloseCharge, FsAfterClose, FateOf;
    assert ValidUpload(u, w, file);
    var w' := Closed(cfg, u, w, file, ioOk);
    var target := w.uploads[file].target;
    FilePlace(w.fs, file, target);
    FsAfterCloseSound(w.fs, file, target, FateOf(cfg, w, file, ioOk));
    hide Sound, Exists;
    forall f | f in w'.uploads
      ensures ValidUpload(u, w', f)
    {
      assert ValidUpload(u, w, f);
      FileOfOneUpload(u, w, f, file);
      FileOfOneUpload(u, w, file, f);
      KeepsUpload(u, w, w', f);
    }
  }

  lemma RemoveValid(cfg: Config, u: User, w: World, s: Step)
    requires Valid(u, w) && s.RemoveFile? && Free(w, Resolve(u, s.request))
    ensures Valid(u, Removed(cfg, u, w, s))
  {
    var w' := Removed(cfg, u, w, s);
    RemoveSound(w.fs, Resolve(u, s.request));
    forall f | f in w'.uploads
      ensures ValidUpload(u, w', f)
    {
      KeepsUpload(u, w, w', f);
    }
  }

  lemma RenameValid(cfg: Config, u: User, w: World, s: Step)
    requires Valid(u, w) && s.RenameItem?
    requires Untouched(w, Resolve(u, s.source)) && Untouched(w, Resolve(u, s.target))
    ensures Valid(u, RenamedBy(cfg, u, w, s))
  {
    hide FolderFor, Charge, ChargeRename, RenameFits, Subtree;
    var w' := RenamedBy(cfg, u, w, s);
    var src, dst := Resolve(u, s.source), Resolve(u, s.target);
    if RenameHappens(cfg, u, w, s) {
      if src in w.fs.files { MoveFileSound(w.fs, src, dst); } else { MoveDirSound(w.fs, src, dst); }
      forall f | f in w.uploads
        ensures ValidUpload(u, w', f)
      {
        if src !in w.fs.files { MoveDirElsewhere(w.fs, src, dst, f); MoveDirElsewhere(w.fs, src, dst, w.uploads[f].target); }
        KeepsUpload(u, w, w', f);
      }
    }
  }

  /** Outside the two subtrees a directory move changes nothing. */
  lemma MoveDirElsewhere(fs: Fs, s: Loc, d: Loc, l: Loc)
    requires !Under(s, l) && !Under(d, l)
    ensures l in MoveDir(fs, s, d).files <==> l in fs.files
    ensures l in fs.files ==> MoveDir(fs, s, d).files[l] == fs.files[l]
    ensures l in MoveDir(fs, s, d).dirs <==> l in fs.dirs
  {
  }

  lemma DirChangeValid(cfg: Config, u: User, w: World, s: Step)
    requires Valid(u, w) && (s.CreateDir? || s.RemoveDir?) && Admissible(cfg, u, w, s)
    ensures Valid(u, DirChanged(u, w, s))
  {
    hide FolderFor, Resolve;
    var w' := DirChanged(u, w, s);
    var l := Resolve(u, s.request);
    if CanMkdir(w.fs, l) { MkdirSound(w.fs, l); }
    if CanRmdir(w.fs, l) { RmdirSound(w.fs, l); }
    forall f | f in w'.uploads
      ensures ValidUpload(u, w', f)
    {
      KeepsUpload(u, w, w', f);
    }
  }

  lemma NextValid(cfg: Config, u: User, w: World, s: Step)
    requires Valid(u, w) && Admissible(cfg, u, w, s)
    ensures Valid(u, Next(cfg, u, w, s))
  {
    match s
    case UploadFile(request, temp, resume, permitted, moveOk, createOk) =>
      var l := Resolve(u, request);
      var file := if IsAtomic(cfg) then temp else l;
      if l in w.fs.files {
        UploadExistingValid(cfg, u, w, request, file, resume, moveOk, createOk);
      } else if !IsDir(w.fs, l) {
        UploadNewValid(cfg, u, w, request, file, createOk);
      }
    case WriteTo(file, offset, n, ioErr) => WriteValid(u, w, file, offset, n, ioErr);
    case TruncateFile(_, _, _, _) => TruncateValid(cfg, u, w, s);
    case CloseUpload(file, ioOk) => CloseValid(cfg, u, w, file, ioOk);
    case RemoveFile(_, _, _) => RemoveValid(cfg, u, w, s);
    case RenameItem(_, _, _, _) => RenameValid(cfg, u, w, s);
    case CreateDir(_, _, _) => DirChangeValid(cfg, u, w, s);
    case RemoveDir(_, _, _) => DirChangeValid(cfg, u, w, s);
  }
}

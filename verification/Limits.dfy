/** Quota limits: the space check before an upload, the cap on what an upload may write, and the
    space check before a rename (common/connection.go, vfs/vfs.go). */
module Limits {
  import opened Paths
  import opened Accounts
  import opened Usages
  import opened Ledger

  datatype QuotaCheckResult = QuotaCheckResult(
    hasSpace: bool, usedSize: int, usedFiles: int, quotaSize: int, quotaFiles: int)
  {
    /** 0 when there is no limit. */
    function GetRemainingSize(): int {
      if quotaSize > 0 then quotaSize - usedSize else 0
    }

    function GetRemainingFiles(): int {
      if quotaFiles > 0 then quotaFiles - usedFiles else 0
    }
  }

  // ---------------------------------------------------------------------------------------------
  // The ledger that limits an item

  /** The ledger checked for an item, and its limits: the folder's own, unless the folder is part
      of the user's quota. */
  function LimitingBook(u: User, request: Path): Book {
    match FolderFor(u, Parent(request))
    case Some(m) => if m.IsIncludedInUserQuota() then UserBook else FolderBook(m.name)
    case None => UserBook
  }

  function Limit(u: User, request: Path, k: Measure): int {
    match FolderFor(u, Parent(request))
    case Some(m) =>
      if m.IsIncludedInUserQuota() then (if k.Files? then u.quotaFiles else u.quotaSize)
      else (if k.Files? then m.quotaFiles else m.quotaSize)
    case None => if k.Files? then u.quotaFiles else u.quotaSize
  }

  /** The limit allows at least one more unit; 0 is no limit. */
  predicate Below(limit: int, used: int) {
    limit > 0 ==> used < limit
  }

  predicate Within(limit: int, used: int) {
    limit > 0 ==> used <= limit
  }

  lemma LimitsNonNegative(u: User, request: Path, k: Measure)
    requires ValidUser(u)
    ensures Limit(u, request, k) >= 0
  {
  }

  /** An item limited this way may be written to. */
  predicate HasSpaceFor(cfg: Config, u: User, bs: Books, checkFiles: bool, request: Path) {
    var b := LimitingBook(u, request);
    cfg.trackQuota != 0 ==>
      && (checkFiles ==> Below(Limit(u, request, Files), Balance(bs, b, Files)))
      && Below(Limit(u, request, Bytes), Balance(bs, b, Bytes))
  }

  /** The limit a check reports for the item; nothing is limited when quotas are not tracked. */
  function CheckedLimit(cfg: Config, u: User, request: Path, k: Measure): int {
    if cfg.trackQuota == 0 then 0 else Limit(u, request, k)
  }

  /** BaseConnection.HasSpace. */
  method HasSpace(cfg: Config, u: User, bs: Books, checkFiles: bool, getUsage: bool, request: Path) returns (result: QuotaCheckResult)
    requires ValidUser(u)
    ensures result.hasSpace <==> HasSpaceFor(cfg, u, bs, checkFiles, request)
    ensures result.quotaSize == CheckedLimit(cfg, u, request, Bytes)
    ensures result.quotaSize > 0 ==> result.usedSize == Balance(bs, LimitingBook(u, request), Bytes)
    ensures checkFiles ==> result.quotaFiles == CheckedLimit(cfg, u, request, Files)
    ensures checkFiles && result.quotaFiles > 0 ==> result.usedFiles == Balance(bs, LimitingBook(u, request), Files)
  {
    result := QuotaCheckResult(true, 0, 0, 0, 0);
    if cfg.trackQuota == 0 {
      return;
    }
    LimitsNonNegative(u, request, Files);
    LimitsNonNegative(u, request, Bytes);
    var vfolder := GetVirtualFolderForPath(u, Parent(request));
    if vfolder.Some? && !vfolder.value.IsIncludedInUserQuota() {
      var m := vfolder.value;
      if m.quotaSize == 0 && (!checkFiles || m.quotaFiles == 0) && !getUsage {
        return;
      }
      result := result.(quotaSize := m.quotaSize, quotaFiles := m.quotaFiles,
                        usedFiles := FolderUsage(bs, m.name, Files), usedSize := FolderUsage(bs, m.name, Bytes));
    } else {
      if u.quotaSize == 0 && (!checkFiles || u.quotaFiles == 0) && !getUsage {
        return;
      }
      result := result.(quotaSize := u.quotaSize, quotaFiles := u.quotaFiles,
                        usedFiles := bs.user.files, usedSize := bs.user.bytes);
    }
    if (checkFiles && result.quotaFiles > 0 && result.usedFiles >= result.quotaFiles) ||
       (result.quotaSize > 0 && result.usedSize >= result.quotaSize)
    {
      result := result.(hasSpace := false);
    }
  }

  // ---------------------------------------------------------------------------------------------
  // The cap of an upload

  datatype MaxWrite = Refused | Allowed(maxWriteSize: int)

  /** The file may hold this many bytes: what the quota leaves over besides the file itself, and the
      largest upload allowed.  0 is no limit. */
  predicate FileCap(maxUpload: int, sizeLimit: int, sizeUsed: int, sizeAtOpen: nat, size: int) {
    && (sizeLimit > 0 ==> size <= sizeLimit - sizeUsed + sizeAtOpen)
    && (maxUpload > 0 ==> size <= maxUpload)
  }

  predicate IsLimited(maxUpload: int, sizeLimit: int) {
    sizeLimit > 0 || maxUpload > 0
  }

  predicate ResumeRefused(maxUpload: int, isResume: bool, sizeAtOpen: nat, isUploadResumeSupported: bool) {
    isResume && (!isUploadResumeSupported || 0 < maxUpload <= sizeAtOpen)
  }

  /** The cap on the bytes received by an upload that the space check has let through: 0 when
      nothing limits the file. */
  function WriteCap(maxUpload: int, sizeLimit: int, sizeUsed: int, isResume: bool, sizeAtOpen: nat): int {
    var byQuota := sizeLimit - sizeUsed + (if isResume then 0 else sizeAtOpen);
    var byUpload := maxUpload - (if isResume then sizeAtOpen else 0);
    if sizeLimit > 0 && maxUpload > 0 then (if byQuota < byUpload then byQuota else byUpload)
    else if sizeLimit > 0 then byQuota
    else if maxUpload > 0 then byUpload
    else 0
  }

  /** The cap is the largest amount that keeps the file within its limits: a resumed file already
      counts for its size, an overwritten file for nothing. */
  lemma WriteCapIsExact(maxUpload: int, sizeLimit: int, sizeUsed: int, isResume: bool, sizeAtOpen: nat, size: int)
    requires Below(sizeLimit, sizeUsed) && !ResumeRefused(maxUpload, isResume, sizeAtOpen, true)
    requires IsLimited(maxUpload, sizeLimit)
    ensures var w := WriteCap(maxUpload, sizeLimit, sizeUsed, isResume, sizeAtOpen);
            && w > 0
            && (FileCap(maxUpload, sizeLimit, sizeUsed, sizeAtOpen, size) <==> size <= (if isResume then sizeAtOpen else 0) + w)
  {
  }

  /** BaseConnection.GetMaxWriteSize. */
  method GetMaxWriteSize(u: User, quotaResult: QuotaCheckResult, isResume: bool, fileSize: nat, isUploadResumeSupported: bool)
    returns (r: MaxWrite)
    ensures r.Refused? <==> isResume && (!isUploadResumeSupported || (u.maxUploadFileSize > 0 && fileSize >= u.maxUploadFileSize))
    ensures r.Allowed? && Below(quotaResult.quotaSize, quotaResult.usedSize) ==>
              r.maxWriteSize == WriteCap(u.maxUploadFileSize, quotaResult.quotaSize, quotaResult.usedSize, isResume, fileSize)
  {
    var maxWriteSize := quotaResult.GetRemainingSize();
    if isResume {
      if !isUploadResumeSupported {
        return Refused;
      }
      if u.maxUploadFileSize > 0 && u.maxUploadFileSize <= fileSize {
        return Refused;
      }
      if u.maxUploadFileSize > 0 {
        var maxUploadSize := u.maxUploadFileSize - fileSize;
        if maxUploadSize < maxWriteSize || maxWriteSize == 0 {
          maxWriteSize := maxUploadSize;
        }
      }
    } else {
      if maxWriteSize > 0 {
        maxWriteSize := maxWriteSize + fileSize;
      }
      if u.maxUploadFileSize > 0 && (u.maxUploadFileSize < maxWriteSize || maxWriteSize == 0) {
        maxWriteSize := u.maxUploadFileSize;
      }
    }
    return Allowed(maxWriteSize);
  }

  function CapFor(cfg: Config, u: User, bs: Books, request: Path, isResume: bool, fileSize: nat): int {
    WriteCap(u.maxUploadFileSize, CheckedLimit(cfg, u, request, Bytes), Balance(bs, LimitingBook(u, request), Bytes),
             isResume, fileSize)
  }

  /** The two checks every upload starts with. */
  method AdmitUpload(cfg: Config, u: User, bs: Books, request: Path, isNew: bool, isResume: bool, fileSize: nat) returns (r: MaxWrite)
    requires ValidUser(u)
    ensures r.Allowed? <==>
              HasSpaceFor(cfg, u, bs, isNew, request) && !ResumeRefused(u.maxUploadFileSize, isResume, fileSize, true)
    ensures r.Allowed? ==> r.maxWriteSize == CapFor(cfg, u, bs, request, isResume, fileSize)
  {
    hide FolderFor, Balance, Limit;
    var quotaResult := HasSpace(cfg, u, bs, isNew, false, request);
    if !quotaResult.hasSpace {
      return Refused;
    }
    r := GetMaxWriteSize(u, quotaResult, isResume, fileSize, true);
  }

  // ---------------------------------------------------------------------------------------------
  // Renames

  /** The check of a rename that moves data into another ledger.  When the target's ledger has no
      space left only the replacement of a file can pass, and only if the new size fits. */
  predicate CrossRenameFits(cfg: Config, u: User, bs: Books, target: Path, o: Overwritten, filesSize: int, numFiles: int) {
    var b := LimitingBook(u, target);
    var sizeLimit, filesLimit := CheckedLimit(cfg, u, target, Bytes), CheckedLimit(cfg, u, target, Files);
    var sizeAfter := Balance(bs, b, Bytes) + filesSize - Lost(o);
    var filesAfter := Balance(bs, b, Files) + GainedFiles(numFiles, o);
    if HasSpaceFor(cfg, u, bs, true, target) then Within(filesLimit, filesAfter) && Within(sizeLimit, sizeAfter)
    else o.Some? && Within(sizeLimit, sizeAfter)
  }

  /** BaseConnection.hasSpaceForRename: renames that stay in one ledger, or go from the home
      directory to a folder included in the user's quota, are accepted unseen. */
  predicate RenameFits(cfg: Config, u: User, bs: Books, source: Path, target: Path, o: Overwritten, filesSize: int, numFiles: int) {
    var s, d := FolderFor(u, Parent(source)), FolderFor(u, Parent(target));
    || cfg.trackQuota == 0
    || (s.None? && d.None?)
    || (s.Some? && d.Some? && s.value.name == d.value.name)
    || (s.None? && d.Some? && d.value.IsIncludedInUserQuota())
    || CrossRenameFits(cfg, u, bs, target, o, filesSize, numFiles)
  }

  /** BaseConnection.hasSpaceForCrossRename; initialSize is -1 unless a file is overwritten. */
  method HasSpaceForCrossRename(r: QuotaCheckResult, initialSize: int, isRegular: bool, filesSize: int, numFiles: int) returns (ok: bool)
    requires initialSize >= -1 && (isRegular ==> numFiles == 1)
    ensures var isReplace := isRegular && initialSize != -1;
            var filesDiff := if isReplace then 0 else numFiles;
            var sizeDiff := if isReplace then filesSize - initialSize else filesSize;
            ok <==>
              if r.hasSpace then Within(r.quotaFiles, r.usedFiles + filesDiff) && Within(r.quotaSize, r.usedSize + sizeDiff)
              else initialSize != -1 && (r.quotaSize != 0 ==> Within(r.quotaSize, r.usedSize + sizeDiff))
  {
    if !r.hasSpace && initialSize == -1 {
      return false;
    }
    var sizeDiff, filesDiff := filesSize, numFiles;
    if isRegular {
      if initialSize != -1 {
        sizeDiff := sizeDiff - initialSize;
        filesDiff := 0;
      }
    }
    if !r.hasSpace && initialSize != -1 {
      if r.quotaSize == 0 {
        return true;
      }
      var r' := r.(usedSize := r.usedSize + sizeDiff);
      return r'.GetRemainingSize() >= 0;
    }
    if r.quotaFiles > 0 {
      var remainingFiles := r.GetRemainingFiles();
      if remainingFiles < filesDiff {
        return false;
      }
    }
    if r.quotaSize > 0 {
      var remainingSize := r.GetRemainingSize();
      if remainingSize < sizeDiff {
        return false;
      }
    }
    return true;
  }

  /** The whole check as the server runs it decides RenameFits. */
  method HasSpaceForRename(
      cfg: Config, u: User, bs: Books, source: Path, target: Path, o: Overwritten, isRegular: bool, filesSize: int, numFiles: int)
    returns (ok: bool)
    requires ValidUser(u)
    requires (o.Some? ==> isRegular) && (isRegular ==> numFiles == 1)
    ensures ok <==> RenameFits(cfg, u, bs, source, target, o, filesSize, numFiles)
  {
    if cfg.trackQuota == 0 {
      return true;
    }
    var sourceFolder := GetVirtualFolderForPath(u, Parent(source));
    var dstFolder := GetVirtualFolderForPath(u, Parent(target));
    if sourceFolder.None? && dstFolder.None? {
      return true;
    }
    if sourceFolder.Some? && dstFolder.Some? {
      if sourceFolder.value.name == dstFolder.value.name {
        return true;
      }
    }
    if sourceFolder.None? && dstFolder.value.IsIncludedInUserQuota() {
      return true;
    }
    var quotaResult := HasSpace(cfg, u, bs, true, false, target);
    var initialSize := if o.Some? then o.value else -1;
    LimitsNonNegative(u, target, Bytes);
    ok := HasSpaceForCrossRename(quotaResult, initialSize, isRegular, filesSize, numFiles);
  }

  lemma LimitingBookCovers(u: User, target: Path)
    requires ValidUser(u) && !IsVirtualFolder(u, target)
    ensures Resolve(u, target).container in Covered(u, LimitingBook(u, target))
  {
  }

  /** An accepted rename leaves the ledger that limits the target within its limit, or does not
      increase it - for files and for bytes, in every placement and on every accepting branch. */
  lemma AcceptedRenameRespectsLimits(
      cfg: Config, u: User, bs: Books, source: Path, target: Path, o: Overwritten, filesSize: nat, numFiles: nat, k: Measure)
    requires ValidUser(u) && ValidConfig(cfg) && !IsVirtualFolder(u, source) && !IsVirtualFolder(u, target)
    requires o.Some? ==> numFiles == 1
    requires RenameFits(cfg, u, bs, source, target, o, filesSize, numFiles)
    ensures var b := LimitingBook(u, target);
            var after := Balance(ChargeRename(cfg, u, bs, source, target, o, filesSize, numFiles), b, k);
            Within(Limit(u, target, k), after) || after <= Balance(bs, b, k)
  {
    var b := LimitingBook(u, target);
    if Tracked(cfg, u, b) {
      RenameBalance(cfg, u, bs, source, target, o, filesSize, numFiles, b, k);
      LimitingBookCovers(u, target);
      ResolvedContainer(u, source);
      ResolvedContainer(u, target);
    }
  }
}

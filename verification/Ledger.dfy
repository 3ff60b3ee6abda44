/** The quota ledgers: used space per user and per shared folder, and the rules that decide which
    ledger an item is charged to (dataprovider/dataprovider.go, common/connection.go). */
module Ledger {
  import opened Options
  import opened Paths
  import opened Accounts
  import opened Usages

  datatype UploadMode = Standard | Atomic | AtomicWithResume

  datatype Config = Config(trackQuota: int, uploadMode: UploadMode)

  datatype Books = Books(user: Usage, folders: map<string, Usage>)

  datatype Book = UserBook | FolderBook(name: string)

  function FolderUsage(bs: Books, name: string, k: Measure): int {
    if name in bs.folders then Of(bs.folders[name], k) else 0
  }

  function Balance(bs: Books, b: Book, k: Measure): int {
    match b
    case UserBook => Of(bs.user, k)
    case FolderBook(f) => FolderUsage(bs, f, k)
  }

  /** The storage areas a ledger accounts for.  The user's ledger covers the home directory and
      every folder included in the user's quota, as User.ScanQuota does. */
  function Covered(u: User, b: Book): set<Container> {
    match b
    case UserBook => {Home} + set m | m in u.mounts && m.IsIncludedInUserQuota() :: Folder(m.name)
    case FolderBook(f) => {Folder(f)}
  }

  /** The ledgers that the configuration keeps up to date. */
  predicate Tracked(cfg: Config, u: User, b: Book) {
    match b
    case UserBook => cfg.trackQuota == 1 || (cfg.trackQuota == 2 && u.HasQuotaRestrictions())
    case FolderBook(_) => cfg.trackQuota != 0
  }

  predicate ValidConfig(cfg: Config) {
    0 <= cfg.trackQuota <= 2
  }

  // ---------------------------------------------------------------------------------------------
  // Updates

  /** dataprovider.UpdateUserQuota without reset. */
  function UpdateUserQuota(cfg: Config, u: User, bs: Books, files: int, size: int): Books {
    if cfg.trackQuota == 0 then bs
    else if cfg.trackQuota == 2 && !u.HasQuotaRestrictions() then bs
    else bs.(user := Usage(bs.user.files + files, bs.user.bytes + size))
  }

  /** dataprovider.UpdateVirtualFolderQuota without reset. */
  function UpdateVirtualFolderQuota(cfg: Config, bs: Books, name: string, files: int, size: int): Books {
    if cfg.trackQuota == 0 || (files == 0 && size == 0) then bs
    else bs.(folders := bs.folders[name := Usage(FolderUsage(bs, name, Files) + files, FolderUsage(bs, name, Bytes) + size)])
  }

  /** Charge a folder and, when the folder is part of the user's quota, the user too. */
  function ChargeFolder(cfg: Config, u: User, bs: Books, m: Mount, files: int, size: int): Books {
    var bs1 := UpdateVirtualFolderQuota(cfg, bs, m.name, files, size);
    if m.IsIncludedInUserQuota() then UpdateUserQuota(cfg, u, bs1, files, size) else bs1
  }

  /** Charge the ledger of the item at the virtual path `request`: the folder is searched for from
      the item's parent directory. */
  function Charge(cfg: Config, u: User, bs: Books, request: Path, files: int, size: int): Books {
    match FolderFor(u, Parent(request))
    case Some(m) => ChargeFolder(cfg, u, bs, m, files, size)
    case None => UpdateUserQuota(cfg, u, bs, files, size)
  }

  lemma NoCharge(cfg: Config, u: User, bs: Books, request: Path)
    ensures Charge(cfg, u, bs, request, 0, 0) == bs
  {
  }

  /** What the ledgers cover: the user's the home directory and the folders with both limits at -1, a
      folder's that folder. */
  lemma CoveredMeaning(u: User, c: Container)
    ensures c in Covered(u, UserBook) <==>
              c == Home || exists i :: 0 <= i < |u.mounts| && c == Folder(u.mounts[i].name) && u.mounts[i].quotaFiles == u.mounts[i].quotaSize == -1
    ensures forall f :: c in Covered(u, FolderBook(f)) <==> c == Folder(f)
  {
    if i :| 0 <= i < |u.mounts| && c == Folder(u.mounts[i].name) && u.mounts[i].quotaFiles == u.mounts[i].quotaSize == -1 {
      assert u.mounts[i] in u.mounts;
    }
  }

  /** The kept ledgers are exactly those that an update reaches. */
  lemma TrackedIff(cfg: Config, u: User, bs: Books, b: Book, files: int, size: int, k: Measure)
    requires ValidConfig(cfg) && Part(files, size, k) != 0
    ensures Tracked(cfg, u, b) <==>
              Balance(if b.UserBook? then UpdateUserQuota(cfg, u, bs, files, size) else UpdateVirtualFolderQuota(cfg, bs, b.name, files, size), b, k)
              == Balance(bs, b, k) + Part(files, size, k)
  {
  }

  lemma ChargeFolderBalance(cfg: Config, u: User, bs: Books, m: Mount, files: int, size: int, b: Book, k: Measure)
    requires ValidUser(u) && ValidConfig(cfg) && Tracked(cfg, u, b) && m in u.mounts
    ensures Balance(ChargeFolder(cfg, u, bs, m, files, size), b, k) ==
            Balance(bs, b, k) + Share(Folder(m.name), Part(files, size, k), Covered(u, b))
  {
  }

  lemma ChargeHomeBalance(cfg: Config, u: User, bs: Books, files: int, size: int, b: Book, k: Measure)
    requires ValidConfig(cfg) && Tracked(cfg, u, b)
    ensures Balance(UpdateUserQuota(cfg, u, bs, files, size), b, k) ==
            Balance(bs, b, k) + Share(Home, Part(files, size, k), Covered(u, b))
  {
  }

  /** A charge reaches exactly the ledgers that cover the storage area of the item. */
  lemma ChargeBalance(cfg: Config, u: User, bs: Books, request: Path, files: int, size: int, b: Book, k: Measure)
    requires ValidUser(u) && ValidConfig(cfg) && Tracked(cfg, u, b)
    requires !IsVirtualFolder(u, request)
    ensures Balance(Charge(cfg, u, bs, request, files, size), b, k) ==
            Balance(bs, b, k) + Share(Resolve(u, request).container, Part(files, size, k), Covered(u, b))
  {
    ResolvedContainer(u, request);
    match FolderFor(u, Parent(request))
    case Some(m) => ChargeFolderBalance(cfg, u, bs, m, files, size, b, k);
    case None => ChargeHomeBalance(cfg, u, bs, files, size, b, k);
  }

  // ---------------------------------------------------------------------------------------------
  // Renames

  /** The size of the overwritten file, when a file is overwritten. */
  type Overwritten = Option<nat>

  /** The bytes an overwritten file takes with it. */
  function Lost(o: Overwritten): int {
    if o.None? then 0 else o.value
  }

  /** What reaches the target: everything moved, or only the difference in size when the target
      file existed. */
  function GainedFiles(numFiles: int, o: Overwritten): int {
    if o.None? then numFiles else 0
  }

  /** BaseConnection.updateQuotaMoveBetweenVFolders. */
  function MoveBetweenFolders(
      cfg: Config, u: User, bs: Books, s: Mount, d: Mount, o: Overwritten, filesSize: int, numFiles: int): Books
  {
    if s.name == d.name then
      if o.None? then bs else ChargeFolder(cfg, u, bs, d, -numFiles, -Lost(o))
    else
      ChargeFolder(cfg, u, ChargeFolder(cfg, u, bs, s, -numFiles, -filesSize), d, GainedFiles(numFiles, o), filesSize - Lost(o))
  }

  /** BaseConnection.updateQuotaMoveFromVFolder. */
  function MoveFromFolder(cfg: Config, u: User, bs: Books, s: Mount, o: Overwritten, filesSize: int, numFiles: int): Books {
    UpdateUserQuota(cfg, u, ChargeFolder(cfg, u, bs, s, -numFiles, -filesSize), GainedFiles(numFiles, o), filesSize - Lost(o))
  }

  /** BaseConnection.updateQuotaMoveToVFolder. */
  function MoveToFolder(cfg: Config, u: User, bs: Books, d: Mount, o: Overwritten, filesSize: int, numFiles: int): Books {
    ChargeFolder(cfg, u, UpdateUserQuota(cfg, u, bs, -numFiles, -filesSize), d, GainedFiles(numFiles, o), filesSize - Lost(o))
  }

  /** BaseConnection.updateQuotaAfterRename. */
  function ChargeRename(
      cfg: Config, u: User, bs: Books, source: Path, target: Path, o: Overwritten, filesSize: int, numFiles: int): Books
  {
    if cfg.trackQuota == 0 then bs
    else match (FolderFor(u, Parent(source)), FolderFor(u, Parent(target)))
      case (None, None) => if o.None? then bs else UpdateUserQuota(cfg, u, bs, -1, -Lost(o))
      case (Some(s), Some(d)) => MoveBetweenFolders(cfg, u, bs, s, d, o, filesSize, numFiles)
      case (Some(s), None) => MoveFromFolder(cfg, u, bs, s, o, filesSize, numFiles)
      case (None, Some(d)) => MoveToFolder(cfg, u, bs, d, o, filesSize, numFiles)
  }

  /** What a ledger has to change by when `numFiles` files of `filesSize` bytes go from one area to
      another and replace the file `o` there. */
  function RenameEffect(
      sc: Container, dc: Container, o: Overwritten, filesSize: int, numFiles: int, cs: set<Container>, k: Measure): int
  {
    var moved, replaced := Part(numFiles, filesSize, k), Part(if o.Some? then 1 else 0, Lost(o), k);
    Share(dc, moved, cs) - Share(sc, moved, cs) - Share(dc, replaced, cs)
  }

  lemma BetweenFoldersBalance(
      cfg: Config, u: User, bs: Books, s: Mount, d: Mount, o: Overwritten, filesSize: int, numFiles: int, b: Book, k: Measure)
    requires ValidUser(u) && ValidConfig(cfg) && Tracked(cfg, u, b) && s in u.mounts && d in u.mounts
    requires o.Some? ==> numFiles == 1
    ensures Balance(MoveBetweenFolders(cfg, u, bs, s, d, o, filesSize, numFiles), b, k) ==
            Balance(bs, b, k) + RenameEffect(Folder(s.name), Folder(d.name), o, filesSize, numFiles, Covered(u, b), k)
  {
    hide ChargeFolder, Balance, Covered, FolderFor;
    if s.name == d.name {
      if o.Some? { ChargeFolderBalance(cfg, u, bs, d, -numFiles, -Lost(o), b, k); }
    } else {
      var bs1 := ChargeFolder(cfg, u, bs, s, -numFiles, -filesSize);
      ChargeFolderBalance(cfg, u, bs, s, -numFiles, -filesSize, b, k);
      ChargeFolderBalance(cfg, u, bs1, d, GainedFiles(numFiles, o), filesSize - Lost(o), b, k);
    }
  }

  lemma FromFolderBalance(
      cfg: Config, u: User, bs: Books, s: Mount, o: Overwritten, filesSize: int, numFiles: int, b: Book, k: Measure)
    requires ValidUser(u) && ValidConfig(cfg) && Tracked(cfg, u, b) && s in u.mounts
    requires o.Some? ==> numFiles == 1
    ensures Balance(MoveFromFolder(cfg, u, bs, s, o, filesSize, numFiles), b, k) ==
            Balance(bs, b, k) + RenameEffect(Folder(s.name), Home, o, filesSize, numFiles, Covered(u, b), k)
  {
  }

  lemma ToFolderBalance(
      cfg: Config, u: User, bs: Books, d: Mount, o: Overwritten, filesSize: int, numFiles: int, b: Book, k: Measure)
    requires ValidUser(u) && ValidConfig(cfg) && Tracked(cfg, u, b) && d in u.mounts
    requires o.Some? ==> numFiles == 1
    ensures Balance(MoveToFolder(cfg, u, bs, d, o, filesSize, numFiles), b, k) ==
            Balance(bs, b, k) + RenameEffect(Home, Folder(d.name), o, filesSize, numFiles, Covered(u, b), k)
  {
    var bs1 := UpdateUserQuota(cfg, u, bs, -numFiles, -filesSize);
    ChargeHomeBalance(cfg, u, bs, -numFiles, -filesSize, b, k);
    ChargeFolderBalance(cfg, u, bs1, d, GainedFiles(numFiles, o), filesSize - Lost(o), b, k);
  }

  /** In every placement of source and target, each ledger loses what left its areas, gains what
      arrived in them and loses the overwritten file. */
  lemma RenameBalance(
      cfg: Config, u: User, bs: Books, source: Path, target: Path, o: Overwritten, filesSize: int, numFiles: int, b: Book, k: Measure)
    requires ValidUser(u) && ValidConfig(cfg) && Tracked(cfg, u, b)
    requires !IsVirtualFolder(u, source) && !IsVirtualFolder(u, target)
    requires o.Some? ==> numFiles == 1
    ensures Balance(ChargeRename(cfg, u, bs, source, target, o, filesSize, numFiles), b, k) ==
            Balance(bs, b, k) +
            RenameEffect(Resolve(u, source).container, Resolve(u, target).container, o, filesSize, numFiles, Covered(u, b), k)
  {
    ResolvedContainer(u, source);
    ResolvedContainer(u, target);
    match (FolderFor(u, Parent(source)), FolderFor(u, Parent(target)))
    case (None, None) => if o.Some? { ChargeHomeBalance(cfg, u, bs, -1, -Lost(o), b, k); }
    case (Some(s), Some(d)) => BetweenFoldersBalance(cfg, u, bs, s, d, o, filesSize, numFiles, b, k);
    case (Some(s), None) => FromFolderBalance(cfg, u, bs, s, o, filesSize, numFiles, b, k);
    case (None, Some(d)) => ToFolderBalance(cfg, u, bs, d, o, filesSize, numFiles, b, k);
  }
}

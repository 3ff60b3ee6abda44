/** One upload, from open to close (common/transfer.go, ftpd/transfer.go, ftpd/handler.go).

    `size` is the size of the file being written, `initialSize` the part of it that the ledger
    already counts. */
module Uploads {
  import opened Paths
  import opened Accounts
  import opened Usages
  import opened Ledger
  import opened Limits

  datatype TransferError = NoError | QuotaExceeded | OtherError

  datatype Upload = Upload(
    request: Path,
    target: Loc,
    minWriteOffset: nat,
    initialSize: nat,
    maxWriteSize: int,
    isNew: bool,
    received: nat,
    err: TransferError)

  // ---------------------------------------------------------------------------------------------
  // Opening

  datatype OpenKind = NewFile | Overwrite | Resume

  /** A fresh transfer for a file of the given size. */
  function Opened(request: Path, target: Loc, kind: OpenKind, fileSize: nat, maxWriteSize: int): Upload {
    var kept := if kind.Resume? then fileSize else 0;
    Upload(request, target, kept, kept, maxWriteSize, kind.NewFile?, 0, NoError)
  }

  /** What is charged when the file is opened: an overwritten file stops counting. */
  function OpenCharge(kind: OpenKind, fileSize: nat): int {
    if kind.Overwrite? then 0 - fileSize else 0
  }

  function OpenSize(kind: OpenKind, fileSize: nat): nat {
    if kind.Resume? then fileSize else 0
  }

  // ---------------------------------------------------------------------------------------------
  // Writing and truncating

  /** The size of a file after n bytes are written at an offset. */
  function SizeAfterWrite(size: nat, offset: nat, n: nat): nat {
    if n == 0 || offset + n <= size then size else offset + n
  }

  /** Only the first error is kept. */
  function Failed(up: Upload, e: TransferError): Upload {
    if up.err.NoError? then up.(err := e) else up
  }

  function Written(up: Upload, n: nat, ioErr: bool): Upload {
    var up1 := up.(received := up.received + n);
    if ioErr then Failed(up1, OtherError)
    else if up.maxWriteSize > 0 && up1.received > up.maxWriteSize then Failed(up1, QuotaExceeded)
    else up1
  }

  function Truncated(up: Upload, size: nat): Upload {
    var up1 := up.(initialSize := size);
    if up.maxWriteSize > 0 then up1.(maxWriteSize := up.maxWriteSize + up.initialSize - size, received := 0) else up1
  }

  // ---------------------------------------------------------------------------------------------
  // Closing

  /** What becomes of the written file. */
  datatype Fate = Deleted | Renamed | LeftInPlace

  /** `atomic` says that the file is written under a temporary name. */
  function CloseFate(mode: UploadMode, up: Upload, atomic: bool, ioOk: bool): Fate {
    if up.err.QuotaExceeded? then (if ioOk then Deleted else LeftInPlace)
    else if atomic then
      if !ioOk then LeftInPlace
      else if up.err.NoError? || mode.AtomicWithResume? then Renamed
      else Deleted
    else LeftInPlace
  }

  /** The size the server goes by: that of the file at the requested path when there is one, else
      what it has counted itself. */
  function ReportedSize(up: Upload, fate: Fate, atomic: bool, size: nat): nat {
    match fate
    case Deleted => 0
    case Renamed => size
    case LeftInPlace => if atomic then up.received + up.minWriteOffset else size
  }

  function One(b: bool): int {
    if b then 1 else 0
  }

  /** BaseTransfer.updateQuota: nothing is charged for an unchanged number of files unless the size
      has grown. */
  function CloseCharge(up: Upload, fate: Fate, atomic: bool, size: nat, k: Measure): int {
    var numFiles := One(up.isNew) - One(fate.Deleted?);
    var sizeDiff := ReportedSize(up, fate, atomic, size) - up.initialSize;
    if numFiles != 0 || sizeDiff > 0 then (if k.Files? then numFiles else sizeDiff) else 0
  }

  /** What the ledger counts for the file while the upload is open. */
  function Counted(up: Upload, k: Measure): int {
    if k.Files? then One(!up.isNew) else up.initialSize
  }

  /** What the ledger should count for the file once the upload is closed. */
  function Final(fate: Fate, size: nat, k: Measure): int {
    if fate.Deleted? then 0 else if k.Files? then 1 else size
  }

  /** How far closing leaves the ledger from what is stored. */
  function CloseDrift(up: Upload, fate: Fate, atomic: bool, size: nat, k: Measure): int {
    Counted(up, k) + CloseCharge(up, fate, atomic, size, k) - Final(fate, size, k)
  }

  /** The size recorded for a file that is left under its temporary name. */
  function Recorded(up: Upload): nat {
    if up.isNew || up.received + up.minWriteOffset > up.initialSize then up.received + up.minWriteOffset else up.initialSize
  }

  /** Closing settles the ledger exactly, except in two cases: a new file that is deleted after its
      handle was truncated to a positive size stays charged for that size, and a file left under
      its temporary name is charged for the bytes counted, which truncations and writes at other
      offsets make wrong. */
  lemma CloseSettlesIff(up: Upload, fate: Fate, atomic: bool, size: nat)
    requires up.initialSize <= size
    ensures CloseDrift(up, fate, atomic, size, Files) == 0
    ensures CloseDrift(up, fate, atomic, size, Bytes) == 0 <==>
              && !(fate.Deleted? && up.isNew && up.initialSize > 0)
              && !(fate.LeftInPlace? && atomic && Recorded(up) != size)
  {
  }

  // ---------------------------------------------------------------------------------------------
  // Sessions: any mix of writes and handle truncations

  datatype Action = Write(offset: nat, n: nat, ioErr: bool) | Truncate(newSize: nat)

  /** An open upload, the size of its file and the bytes charged since before it was opened. */
  datatype Session = Session(up: Upload, size: nat, charged: int)

  function Open(request: Path, target: Loc, kind: OpenKind, fileSize: nat, maxWriteSize: int): Session {
    Session(Opened(request, target, kind, fileSize, maxWriteSize), OpenSize(kind, fileSize), OpenCharge(kind, fileSize))
  }

  /** A truncation of the handle is charged at once, by the change of initialSize. */
  function Perform(s: Session, a: Action): Session {
    match a
    case Write(offset, n, ioErr) => Session(Written(s.up, n, ioErr), SizeAfterWrite(s.size, offset, n), s.charged)
    case Truncate(newSize) => Session(Truncated(s.up, newSize), newSize, s.charged - (s.up.initialSize - newSize))
  }

  function PerformAll(s: Session, acts: seq<Action>): Session
    decreases |acts|
  {
    if acts == [] then s else PerformAll(Perform(s, acts[0]), acts[1..])
  }

  /** initialSize is what has been charged for the file and never exceeds its size. */
  predicate Accounted(s: Session, sizeAtOpen: nat) {
    s.up.initialSize == sizeAtOpen + s.charged && s.up.initialSize <= s.size
  }

  lemma {:induction false} PerformAllAccounted(s: Session, acts: seq<Action>, sizeAtOpen: nat)
    requires Accounted(s, sizeAtOpen)
    ensures Accounted(PerformAll(s, acts), sizeAtOpen)
    ensures PerformAll(s, acts).up.isNew == s.up.isNew
    decreases |acts|
  {
    if acts != [] {
      PerformAllAccounted(Perform(s, acts[0]), acts[1..], sizeAtOpen);
    }
  }

  function SizeAtOpen(kind: OpenKind, fileSize: nat): nat {
    if kind.NewFile? then 0 else fileSize
  }

  /** Truncation telescopes: whatever is written and truncated, an upload whose file is kept under
      the requested name is charged, from open to close, exactly the change in size of the file,
      and one file when it is new. */
  lemma SessionTelescopes(
      request: Path, target: Loc, kind: OpenKind, fileSize: nat, maxWriteSize: int, acts: seq<Action>, fate: Fate, atomic: bool)
    requires fate.Renamed? || (fate.LeftInPlace? && !atomic)
    ensures var s := PerformAll(Open(request, target, kind, fileSize, maxWriteSize), acts);
            && s.charged + CloseCharge(s.up, fate, atomic, s.size, Bytes) == s.size - SizeAtOpen(kind, fileSize)
            && CloseCharge(s.up, fate, atomic, s.size, Files) == One(kind.NewFile?)
  {
    PerformAllAccounted(Open(request, target, kind, fileSize, maxWriteSize), acts, SizeAtOpen(kind, fileSize));
  }

  /** The first error decides: whatever happens later, an upload that has failed stays failed in that
      way. */
  lemma {:induction false} FirstErrorStays(s: Session, acts: seq<Action>)
    requires !s.up.err.NoError?
    ensures PerformAll(s, acts).up.err == s.up.err
    decreases |acts|
  {
    if acts != [] { FirstErrorStays(Perform(s, acts[0]), acts[1..]); }
  }

  /** How an upload fails: by the error of a write, and only without one by exceeding its cap. */
  lemma HowWritesFail(s: Session, offset: nat, n: nat, ioErr: bool)
    requires s.up.err.NoError?
    ensures var e := Perform(s, Write(offset, n, ioErr)).up.err;
            && (e == OtherError <==> ioErr)
            && (e == QuotaExceeded <==> !ioErr && s.up.maxWriteSize > 0 && s.up.received + n > s.up.maxWriteSize)
  {
  }

  // ---------------------------------------------------------------------------------------------
  // Sessions without truncation

  /** A write that starts at the end of the file. */
  predicate Appends(s: Session, a: Action) {
    a.Write? && a.offset == s.size
  }

  predicate AllAppend(s: Session, acts: seq<Action>)
    decreases |acts|
  {
    acts != [] ==> Appends(s, acts[0]) && AllAppend(Perform(s, acts[0]), acts[1..])
  }

  lemma {:induction false} AppendsCounted(s: Session, acts: seq<Action>)
    requires AllAppend(s, acts) && s.up.received + s.up.minWriteOffset == s.size
    requires s.up.initialSize <= s.size && (s.up.isNew ==> s.up.initialSize == 0)
    ensures var t := PerformAll(s, acts);
            && t.up.received + t.up.minWriteOffset == t.size
            && t.up.initialSize == s.up.initialSize <= t.size
            && t.up.isNew == s.up.isNew && t.charged == s.charged
    decreases |acts|
  {
    if acts != [] {
      AppendsCounted(Perform(s, acts[0]), acts[1..]);
    }
  }

  /** Session conservation: a new, overwriting or resumed upload without handle truncation, in any
      upload mode, ending in any way and with the final remove or rename succeeding or failing,
      changes the ledger by exactly the change in files and bytes stored. */
  lemma SessionConserves(
      mode: UploadMode, request: Path, target: Loc, kind: OpenKind, fileSize: nat, maxWriteSize: int,
      acts: seq<Action>, atomic: bool, ioOk: bool)
    requires AllAppend(Open(request, target, kind, fileSize, maxWriteSize), acts)
    ensures var s := PerformAll(Open(request, target, kind, fileSize, maxWriteSize), acts);
            var fate := CloseFate(mode, s.up, atomic, ioOk);
            && s.charged + CloseCharge(s.up, fate, atomic, s.size, Bytes) ==
               Final(fate, s.size, Bytes) - SizeAtOpen(kind, fileSize)
            && CloseCharge(s.up, fate, atomic, s.size, Files) == Final(fate, s.size, Files) - One(!kind.NewFile?)
  {
    AppendsCounted(Open(request, target, kind, fileSize, maxWriteSize), acts);
  }

  // ---------------------------------------------------------------------------------------------
  // The cap

  /** An upload that has not failed holds no more than its cap allows. */
  predicate WithinCap(s: Session) {
    s.up.err.NoError? ==> s.size <= s.up.initialSize + s.up.maxWriteSize
  }

  /** A limited upload within its cap, where the cap keeps the file within `bound`. */
  predicate Capped(s: Session, bound: int) {
    s.up.maxWriteSize > 0 && s.up.initialSize + s.up.maxWriteSize <= bound && WithinCap(s)
  }

  /** A write that ends within the cap, adds nothing or fails, and a truncation below the cap. */
  predicate KeepsCap(s: Session, a: Action) {
    match a
    case Write(offset, n, ioErr) =>
      ioErr || n == 0 || offset + n <= s.up.initialSize + s.up.maxWriteSize || s.up.received + n > s.up.maxWriteSize
    case Truncate(newSize) => newSize < s.up.initialSize + s.up.maxWriteSize
  }

  predicate AllKeepCap(s: Session, acts: seq<Action>)
    decreases |acts|
  {
    acts != [] ==> KeepsCap(s, acts[0]) && AllKeepCap(Perform(s, acts[0]), acts[1..])
  }

  /** Exactly the writes that keep a limited upload within its cap or make it fail. */
  lemma WriteKeepsCapIff(s: Session, offset: nat, n: nat, ioErr: bool)
    requires s.up.maxWriteSize > 0 && s.up.err.NoError? && WithinCap(s)
    ensures WithinCap(Perform(s, Write(offset, n, ioErr))) <==> KeepsCap(s, Write(offset, n, ioErr))
  {
  }

  lemma {:induction false} PerformAllCapped(s: Session, acts: seq<Action>, bound: int)
    requires Capped(s, bound) && AllKeepCap(s, acts)
    ensures Capped(PerformAll(s, acts), bound)
    decreases |acts|
  {
    if acts != [] {
      PerformAllCapped(Perform(s, acts[0]), acts[1..], bound);
    }
  }

  /** Writes that append without an error of their own, and truncations below the cap. */
  predicate AppendsAndCuts(size: nat, acts: seq<Action>, bound: int)
    decreases |acts|
  {
    acts == [] ||
    match acts[0]
    case Write(offset, n, ioErr) => offset == size && !ioErr && AppendsAndCuts(size + n, acts[1..], bound)
    case Truncate(newSize) => newSize < bound && AppendsAndCuts(newSize, acts[1..], bound)
  }

  /** The file never grows beyond the bound. */
  predicate NeverBeyond(size: nat, acts: seq<Action>, bound: int)
    decreases |acts|
  {
    acts == [] ||
    match acts[0]
    case Write(_, n, _) => (n == 0 || size + n <= bound) && NeverBeyond(size + n, acts[1..], bound)
    case Truncate(newSize) => NeverBeyond(newSize, acts[1..], bound)
  }

  /** The cap stops an upload neither early nor late: with appending writes and truncations below the
      cap in any order, it ends without error if and only if the file never grows beyond what the
      cap allows. */
  lemma {:induction false} CapStopsExactly(s: Session, acts: seq<Action>)
    requires s.up.maxWriteSize > 0 && s.up.err.NoError? && s.size == s.up.initialSize + s.up.received && s.up.received <= s.up.maxWriteSize
    requires AppendsAndCuts(s.size, acts, s.up.initialSize + s.up.maxWriteSize)
    ensures PerformAll(s, acts).up.err.NoError? <==> NeverBeyond(s.size, acts, s.up.initialSize + s.up.maxWriteSize)
    decreases |acts|
  {
    if acts != [] {
      var t := Perform(s, acts[0]);
      if t.up.err.NoError? { CapStopsExactly(t, acts[1..]); } else { FirstErrorStays(t, acts[1..]); }
    }
  }

  /** A handle truncation keeps the cap armed exactly when it stays below initialSize plus the cap;
      from there on the upload is unlimited, because a cap that is not positive is no cap. */
  lemma TruncationKeepsCapIff(up: Upload, newSize: nat)
    requires up.maxWriteSize > 0 && up.err.NoError?
    ensures (exists n: nat :: Written(Truncated(up, newSize), n, false).err.QuotaExceeded?) <==>
            newSize < up.initialSize + up.maxWriteSize
  {
    var t := Truncated(up, newSize);
    if t.maxWriteSize > 0 {
      var n: nat := t.maxWriteSize + 1;
      assert Written(t, n, false).err.QuotaExceeded?;
    }
  }

  /** A write that leaves no hole, and a truncation below the cap. */
  predicate NoHole(s: Session, a: Action) {
    match a
    case Write(offset, _, _) => offset <= s.size
    case Truncate(newSize) => newSize < s.up.initialSize + s.up.maxWriteSize
  }

  predicate NoHoles(s: Session, acts: seq<Action>)
    decreases |acts|
  {
    acts != [] ==> NoHole(s, acts[0]) && NoHoles(Perform(s, acts[0]), acts[1..])
  }

  /** Without holes every received byte counts, so the cap is kept. */
  lemma {:induction false} NoHolesKeepCap(s: Session, acts: seq<Action>)
    requires s.up.maxWriteSize > 0 && s.size <= s.up.initialSize + s.up.received && NoHoles(s, acts)
    ensures AllKeepCap(s, acts)
    decreases |acts|
  {
    if acts != [] {
      NoHolesKeepCap(Perform(s, acts[0]), acts[1..]);
    }
  }

  /** What an upload was admitted to: the ledger it is checked against may end as it was plus this,
      and the file no larger than the largest upload. */
  predicate FitsAdmission(cfg: Config, u: User, bs: Books, request: Path, kind: OpenKind, atOpen: nat, size: nat) {
    var b := LimitingBook(u, request);
    && Within(CheckedLimit(cfg, u, request, Bytes), Balance(bs, b, Bytes) + size - atOpen)
    && (kind.NewFile? ==> Within(CheckedLimit(cfg, u, request, Files), Balance(bs, b, Files) + 1))
    && (u.maxUploadFileSize > 0 ==> size <= u.maxUploadFileSize)
  }

  /** The session of an admitted upload. */
  function AdmittedSession(cfg: Config, u: User, bs: Books, request: Path, target: Loc, kind: OpenKind, atOpen: nat): Session {
    Open(request, target, kind, atOpen, CapFor(cfg, u, bs, request, kind.Resume?, atOpen))
  }

  /** The upload cap, for the upload on its own.  An upload admitted by the space check whose actions
      keep the cap, and that ends without error, adds no more bytes than were free when it was
      admitted, ends no larger than the largest upload, and a new file finds room in the number of
      files. */
  lemma UploadWithinLimits(
      cfg: Config, u: User, bs: Books, request: Path, target: Loc, kind: OpenKind, atOpen: nat, acts: seq<Action>)
    requires HasSpaceFor(cfg, u, bs, kind.NewFile?, request) && (kind.NewFile? ==> atOpen == 0)
    requires !ResumeRefused(u.maxUploadFileSize, kind.Resume?, atOpen, true)
    requires var s := AdmittedSession(cfg, u, bs, request, target, kind, atOpen);
             && (IsLimited(u.maxUploadFileSize, CheckedLimit(cfg, u, request, Bytes)) ==> AllKeepCap(s, acts))
             && PerformAll(s, acts).up.err.NoError?
    ensures FitsAdmission(cfg, u, bs, request, kind, atOpen, PerformAll(AdmittedSession(cfg, u, bs, request, target, kind, atOpen), acts).size)
  {
    hide FolderFor, Balance, PerformAll, AllKeepCap;
    var sizeLimit, used := CheckedLimit(cfg, u, request, Bytes), Balance(bs, LimitingBook(u, request), Bytes);
    var s0 := AdmittedSession(cfg, u, bs, request, target, kind, atOpen);
    var bound := s0.up.initialSize + s0.up.maxWriteSize;
    if IsLimited(u.maxUploadFileSize, sizeLimit) {
      WriteCapIsExact(u.maxUploadFileSize, sizeLimit, used, kind.Resume?, atOpen, bound);
      PerformAllCapped(s0, acts, bound);
      WriteCapIsExact(u.maxUploadFileSize, sizeLimit, used, kind.Resume?, atOpen, PerformAll(s0, acts).size);
    }
  }

  /** A failing case of WriteKeepsCapIff: a write past the end of the file exceeds the cap without an
      error, because only received bytes are counted. */
  lemma HoleEscapesCap(request: Path, target: Loc)
    ensures var s := Perform(Open(request, target, NewFile, 0, 10), Write(1000, 1, false));
            s.up.err.NoError? && s.size == 1001 > s.up.initialSize + s.up.maxWriteSize
  {
  }

  /** A failing case of TruncationKeepsCapIff: after a truncation to the cap anything can be written. */
  lemma TruncationDisarmsCap(request: Path, target: Loc, n: nat)
    ensures var s := Perform(Perform(Open(request, target, NewFile, 0, 10), Truncate(10)), Write(10, n, false));
            s.up.err.NoError? && s.size == 10 + n
  {
  }
}

/** Whole runs: after every run of admissible operations each tracked ledger is off by exactly the
    sum of the drifts, and runs without handle truncation never drift. */
module Runs {
  import opened Accounts
  import opened Store
  import opened Usages
  import opened Ledger
  import opened Limits
  import opened Uploads
  import opened Server
  import opened Validity
  import opened Conservation

  // ---------------------------------------------------------------------------------------------
  // Open uploads

  /** What an open upload has stored beyond what the ledger counts for it. */
  function PendingAt(w: World, f: Loc): Usage
    requires f in w.uploads && f in w.fs.files
  {
    Usage(One(w.uploads[f].isNew), w.fs.files[f] - w.uploads[f].initialSize)
  }

  function Pending(w: World): map<Loc, Usage> {
    map f | f in w.uploads && f in w.fs.files :: PendingAt(w, f)
  }

  lemma {:induction false} SumBookedPending(w: World, ls: set<Loc>, k: Measure)
    requires ls <= w.fs.files.Keys
    ensures ls * Pending(w).Keys <= Pending(w).Keys
    ensures Sum(Booked(w), ls, k) + Sum(Pending(w), ls * Pending(w).Keys, k) == Sum(Scanned(w.fs.files), ls, k)
  {
    var ps := ls * Pending(w).Keys;
    if ls == {} {
      assert ps == {};
    } else {
      var l :| l in ls;
      SumBookedPending(w, ls - {l}, k);
      SumRemove(Booked(w), ls, l, k);
      SumRemove(Scanned(w.fs.files), ls, l, k);
      if l in w.uploads {
        SumRemove(Pending(w), ps, l, k);
        assert ps - {l} == (ls - {l}) * Pending(w).Keys;
      } else {
        assert ps == (ls - {l}) * Pending(w).Keys;
      }
    }
  }

  /** What is stored is what should be counted plus what is pending on open uploads. */
  lemma DiskIsBookedPlusPending(w: World, cs: set<Container>, k: Measure)
    ensures DiskUsage(w.fs, cs, k) == Total(Booked(w), cs, k) + Total(Pending(w), cs, k)
  {
    var ls := LocsIn(Scanned(w.fs.files), cs);
    assert LocsIn(Booked(w), cs) == ls;
    assert LocsIn(Pending(w), cs) == ls * Pending(w).Keys;
    SumBookedPending(w, ls, k);
  }

  // ---------------------------------------------------------------------------------------------
  // Runs

  ghost predicate AllAdmissible(cfg: Config, u: User, w: World, steps: seq<Step>)
    requires Valid(u, w)
    decreases |steps|
  {
    steps != [] ==>
      && Admissible(cfg, u, w, steps[0])
      && (NextValid(cfg, u, w, steps[0]); AllAdmissible(cfg, u, Next(cfg, u, w, steps[0]), steps[1..]))
  }

  ghost function Run(cfg: Config, u: User, w: World, steps: seq<Step>): World
    requires Valid(u, w) && AllAdmissible(cfg, u, w, steps)
    decreases |steps|
  {
    if steps == [] then w else
      NextValid(cfg, u, w, steps[0]);
      Run(cfg, u, Next(cfg, u, w, steps[0]), steps[1..])
  }

  /** The sum of the drifts of a run in the areas of one ledger. */
  ghost function TotalDrift(cfg: Config, u: User, w: World, steps: seq<Step>, cs: set<Container>, k: Measure): int
    requires Valid(u, w) && AllAdmissible(cfg, u, w, steps)
    decreases |steps|
  {
    if steps == [] then 0 else
      NextValid(cfg, u, w, steps[0]);
      var d := DriftOf(cfg, u, w, steps[0]);
      Share(d.area, Amount(d, k), cs) + TotalDrift(cfg, u, Next(cfg, u, w, steps[0]), steps[1..], cs, k)
  }

  lemma {:induction false} RunError(cfg: Config, u: User, w: World, steps: seq<Step>, b: Book, k: Measure)
    requires ValidUser(u) && ValidConfig(cfg) && Tracked(cfg, u, b)
    requires Valid(u, w) && AllAdmissible(cfg, u, w, steps)
    ensures Valid(u, Run(cfg, u, w, steps))
    ensures Error(u, Run(cfg, u, w, steps), b, k) == Error(u, w, b, k) + TotalDrift(cfg, u, w, steps, Covered(u, b), k)
    decreases |steps|
  {
    if steps != [] {
      NextValid(cfg, u, w, steps[0]);
      StepError(cfg, u, w, steps[0], b, k);
      RunError(cfg, u, Next(cfg, u, w, steps[0]), steps[1..], b, k);
    }
  }

  /** A ledger agrees with the storage it covers, up to what is pending on open uploads. */
  ghost predicate Balanced(u: User, w: World, b: Book, k: Measure) {
    Balance(w.books, b, k) + Total(Pending(w), Covered(u, b), k) == DiskUsage(w.fs, Covered(u, b), k)
  }

  lemma BalancedIsNoError(u: User, w: World, b: Book, k: Measure)
    ensures Balanced(u, w, b, k) <==> Error(u, w, b, k) == 0
  {
    DiskIsBookedPlusPending(w, Covered(u, b), k);
  }

  /** Whole-run conservation, exact: a ledger that agreed with storage before a run agrees with it
      afterwards if and only if the drifts of the run cancel out. */
  lemma RunBalancedIff(cfg: Config, u: User, w: World, steps: seq<Step>, b: Book, k: Measure)
    requires ValidUser(u) && ValidConfig(cfg) && Tracked(cfg, u, b)
    requires Valid(u, w) && AllAdmissible(cfg, u, w, steps) && Balanced(u, w, b, k)
    ensures Balanced(u, Run(cfg, u, w, steps), b, k) <==> TotalDrift(cfg, u, w, steps, Covered(u, b), k) == 0
  {
    BalancedIsNoError(u, w, b, k);
    RunError(cfg, u, w, steps, b, k);
    BalancedIsNoError(u, Run(cfg, u, w, steps), b, k);
  }

  // ---------------------------------------------------------------------------------------------
  // Runs that do not drift

  /** The server's own count of an upload is right, and a new file has not been charged yet. */
  predicate PlainUpload(w: World, f: Loc)
    requires f in w.uploads
  {
    var up := w.uploads[f];
    f in w.fs.files && up.received + up.minWriteOffset == w.fs.files[f] && (up.isNew ==> up.initialSize == 0)
  }

  predicate AllPlain(w: World) {
    forall f :: f in w.uploads ==> PlainUpload(w, f)
  }

  /** Writes append, open handles are not truncated and nothing is renamed to itself. */
  predicate Plain(u: User, w: World, s: Step) {
    match s
    case WriteTo(file, offset, _, _) => file in w.fs.files && offset == w.fs.files[file]
    case TruncateFile(request, _, _, _) => forall f :: f in w.uploads ==> w.uploads[f].target != Resolve(u, request)
    case RenameItem(source, target, _, _) => Resolve(u, source) != Resolve(u, target)
    case _ => true
  }

  /** An operation on something else leaves the upload and its file alone. */
  predicate Alike(w: World, w': World, f: Loc)
    requires f in w.uploads && f in w.fs.files
  {
    f in w'.uploads && w'.uploads[f] == w.uploads[f] && f in w'.fs.files && w'.fs.files[f] == w.fs.files[f]
  }

  lemma PlainUploaded(cfg: Config, u: User, w: World, s: Step)
    requires Valid(u, w) && s.UploadFile? && Admissible(cfg, u, w, s) && AllPlain(w)
    ensures AllPlain(Uploaded(cfg, u, w, s))
  {
    hide FolderFor, HasSpaceFor, CapFor, Charge;
    var w' := Uploaded(cfg, u, w, s);
    forall f | f in w'.uploads
      ensures PlainUpload(w', f)
    {
      if f in w.uploads {
        assert PlainUpload(w, f);
        assert Alike(w, w', f);
      }
    }
  }

  lemma PlainClosed(cfg: Config, u: User, w: World, file: Loc, ioOk: bool)
    requires Valid(u, w) && file in w.uploads && AllPlain(w)
    ensures ValidUpload(u, w, file) && AllPlain(Closed(cfg, u, w, file, ioOk))
    ensures DriftOfClose(cfg, w, file, ioOk).files == DriftOfClose(cfg, w, file, ioOk).bytes == 0
  {
    assert ValidUpload(u, w, file) && PlainUpload(w, file);
    var up, w' := w.uploads[file], Closed(cfg, u, w, file, ioOk);
    CloseSettlesIff(up, FateOf(cfg, w, file, ioOk), file != up.target, w.fs.files[file]);
    forall f | f in w'.uploads
      ensures PlainUpload(w', f)
    {
      assert PlainUpload(w, f);
      FileOfOneUpload(u, w, f, file);
      assert Alike(w, w', f);
    }
  }

  lemma MovingElsewhere(fs: Fs, s: Loc, d: Loc, l: Loc)
    requires l in fs.files && !Under(s, l) && !Under(d, l)
    ensures l in Moving(fs, s, d).files && Moving(fs, s, d).files[l] == fs.files[l]
  {
  }

  lemma PlainRenamed(cfg: Config, u: User, w: World, s: Step)
    requires s.RenameItem? && AllPlain(w)
    requires Untouched(w, Resolve(u, s.source)) && Untouched(w, Resolve(u, s.target))
    ensures AllPlain(RenamedBy(cfg, u, w, s))
  {
  }

  lemma PlainTruncated(cfg: Config, u: User, w: World, s: Step)
    requires Valid(u, w) && s.TruncateFile? && Admissible(cfg, u, w, s) && AllPlain(w) && Plain(u, w, s)
    ensures AllPlain(TruncatedBy(cfg, u, w, s))
  {
  }

  lemma PlainWritten(w: World, file: Loc, n: nat, ioErr: bool)
    requires file in w.uploads && AllPlain(w) && file in w.fs.files
    ensures AllPlain(WrittenTo(w, file, w.fs.files[file], n, ioErr))
  {
    var w' := WrittenTo(w, file, w.fs.files[file], n, ioErr);
    forall f | f in w'.uploads
      ensures PlainUpload(w', f)
    {
      assert PlainUpload(w, f);
      if f != file { assert Alike(w, w', f); }
    }
  }

  lemma PlainRemoved(cfg: Config, u: User, w: World, s: Step)
    requires s.RemoveFile? && Free(w, Resolve(u, s.request)) && AllPlain(w)
    ensures AllPlain(Removed(cfg, u, w, s))
  {
  }

  lemma PlainNext(cfg: Config, u: User, w: World, s: Step)
    requires Valid(u, w) && Admissible(cfg, u, w, s) && AllPlain(w) && Plain(u, w, s)
    ensures AllPlain(Next(cfg, u, w, s))
    ensures DriftOf(cfg, u, w, s).files == DriftOf(cfg, u, w, s).bytes == 0
  {
    hide FolderFor, Uploaded, WrittenTo, TruncatedBy, Closed, Removed, RenamedBy, Sound, Resolve, DriftOfClose, RenameHappens;
    match s
    case UploadFile(_, _, _, _, _, _) => PlainUploaded(cfg, u, w, s);
    case WriteTo(file, offset, n, ioErr) => PlainWritten(w, file, n, ioErr);
    case TruncateFile(_, _, _, _) => PlainTruncated(cfg, u, w, s);
    case CloseUpload(file, ioOk) => PlainClosed(cfg, u, w, file, ioOk);
    case RemoveFile(_, _, _) => PlainRemoved(cfg, u, w, s);
    case RenameItem(_, _, _, _) => PlainRenamed(cfg, u, w, s);
    case CreateDir(_, _, _) => assert forall f :: f in w.uploads ==> PlainUpload(w, f);
    case RemoveDir(_, _, _) => assert forall f :: f in w.uploads ==> PlainUpload(w, f);
  }

  ghost predicate PlainRun(cfg: Config, u: User, w: World, steps: seq<Step>)
    requires Valid(u, w) && AllAdmissible(cfg, u, w, steps)
    decreases |steps|
  {
    steps != [] ==>
      && Plain(u, w, steps[0])
      && (NextValid(cfg, u, w, steps[0]); PlainRun(cfg, u, Next(cfg, u, w, steps[0]), steps[1..]))
  }

  lemma {:induction false} PlainRunDoesNotDrift(cfg: Config, u: User, w: World, steps: seq<Step>, cs: set<Container>, k: Measure)
    requires Valid(u, w) && AllAdmissible(cfg, u, w, steps) && AllPlain(w) && PlainRun(cfg, u, w, steps)
    ensures TotalDrift(cfg, u, w, steps, cs, k) == 0
    decreases |steps|
  {
    if steps != [] {
      NextValid(cfg, u, w, steps[0]);
      PlainNext(cfg, u, w, steps[0]);
      PlainRunDoesNotDrift(cfg, u, Next(cfg, u, w, steps[0]), steps[1..], cs, k);
    }
  }

  /** Whole-run conservation: uploads of every kind and mode, ending in every way, removes, renames
      in every placement, truncations by path and directory changes, in any order.  Every tracked
      ledger agrees with storage throughout, and once no upload is open it is exactly what a full
      scan of its areas finds. */
  lemma PlainRunConserves(cfg: Config, u: User, w: World, steps: seq<Step>, b: Book, k: Measure)
    requires ValidUser(u) && ValidConfig(cfg) && Tracked(cfg, u, b)
    requires Valid(u, w) && w.uploads == map[] && Balance(w.books, b, k) == DiskUsage(w.fs, Covered(u, b), k)
    requires AllAdmissible(cfg, u, w, steps) && PlainRun(cfg, u, w, steps)
    ensures Balanced(u, Run(cfg, u, w, steps), b, k)
    ensures var w' := Run(cfg, u, w, steps);
            w'.uploads == map[] ==> Balance(w'.books, b, k) == DiskUsage(w'.fs, Covered(u, b), k)
  {
    NothingPending(w, Covered(u, b), k);
    PlainRunDoesNotDrift(cfg, u, w, steps, Covered(u, b), k);
    RunBalancedIff(cfg, u, w, steps, b, k);
    if Run(cfg, u, w, steps).uploads == map[] {
      NothingPending(Run(cfg, u, w, steps), Covered(u, b), k);
    }
  }

  lemma NothingPending(w: World, cs: set<Container>, k: Measure)
    requires w.uploads == map[]
    ensures Total(Pending(w), cs, k) == 0
  {
  }
}

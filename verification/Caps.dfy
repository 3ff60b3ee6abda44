/** The limits at work in the state machine: what it lets in has passed the checks, what an upload
    adds to the ledger over a run, and what a rename does to the ledger that limits its target. */
module Caps {
  import opened Paths
  import opened Accounts
  import opened Store
  import opened Usages
  import opened Ledger
  import opened Limits
  import opened Uploads
  import opened Server
  import opened Validity
  import opened Runs

  // ---------------------------------------------------------------------------------------------
  // Opening

  function KindOf(u: User, w: World, s: Step): OpenKind
    requires s.UploadFile?
  {
    if Resolve(u, s.request) !in w.fs.files then NewFile else if s.resume then Resume else Overwrite
  }

  function SizeBefore(u: User, w: World, s: Step): nat
    requires s.UploadFile?
  {
    var l := Resolve(u, s.request);
    if l in w.fs.files then w.fs.files[l] else 0
  }

  /** The step opens an upload that writes to f. */
  predicate Opens(cfg: Config, u: User, w: World, s: Step, f: Loc) {
    s.UploadFile? && f in Uploaded(cfg, u, w, s).uploads && f !in w.uploads
  }

  /** The session that the step opens. */
  function SessionOf(cfg: Config, u: User, w: World, s: Step): Session
    requires s.UploadFile?
  {
    AdmittedSession(cfg, u, w.books, s.request, Resolve(u, s.request), KindOf(u, w, s), SizeBefore(u, w, s))
  }

  /** An upload is opened only after the space check let it in, and starts as an admitted session. */
  lemma OpenedUploadWasAdmitted(cfg: Config, u: User, w: World, s: Step, f: Loc)
    requires Valid(u, w) && Admissible(cfg, u, w, s) && Opens(cfg, u, w, s, f)
    ensures var w', session := Uploaded(cfg, u, w, s), SessionOf(cfg, u, w, s);
            && w' == Next(cfg, u, w, s) && f == (if IsAtomic(cfg) then s.temp else Resolve(u, s.request))
            && HasSpaceFor(cfg, u, w.books, KindOf(u, w, s).NewFile?, s.request)
            && !ResumeRefused(u.maxUploadFileSize, KindOf(u, w, s).Resume?, SizeBefore(u, w, s), true)
            && f in w'.fs.files && w'.uploads[f] == session.up && w'.fs.files[f] == session.size
            && w'.books == Charge(cfg, u, w.books, s.request, 0, session.charged)
  {
    hide FolderFor, HasSpaceFor, CapFor;
    NoCharge(cfg, u, w.books, s.request);
  }

  // ---------------------------------------------------------------------------------------------
  // Steps as actions of a session

  function SessionAt(w: World, f: Loc, charged: int): Session
    requires f in w.uploads && f in w.fs.files
  {
    Session(w.uploads[f], w.fs.files[f], charged)
  }

  /** What a step does to the upload that writes to f: one action or none. */
  function ActionOn(u: User, w: World, s: Step, f: Loc): (r: seq<Action>)
    requires f in w.uploads
    ensures |r| <= 1
  {
    match s
    case WriteTo(file, offset, n, ioErr) => if file == f then [Write(offset, n, ioErr)] else []
    case TruncateFile(request, size, permitted, ioOk) =>
      if permitted && ioOk && w.uploads[f].target == Resolve(u, request) then [Truncate(size)] else []
    case _ => []
  }

  predicate Closes(s: Step, f: Loc) {
    s.CloseUpload? && s.file == f
  }

  lemma OtherUpload(cfg: Config, u: User, w: World, s: Step, f: Loc)
    requires Valid(u, w) && s.UploadFile? && Admissible(cfg, u, w, s) && f in w.uploads
    ensures Alike(w, Uploaded(cfg, u, w, s), f)
  {
    hide FolderFor, HasSpaceFor, CapFor, Charge;
    assert ValidUpload(u, w, f);
  }

  lemma OtherClose(cfg: Config, u: User, w: World, file: Loc, ioOk: bool, f: Loc)
    requires Valid(u, w) && file in w.uploads && f in w.uploads && f != file
    ensures ValidUpload(u, w, file) && Alike(w, Closed(cfg, u, w, file, ioOk), f)
  {
    hide FolderFor, Charge, CloseCharge;
    assert ValidUpload(u, w, f) && ValidUpload(u, w, file);
    FileOfOneUpload(u, w, f, file);
  }

  lemma OtherRename(cfg: Config, u: User, w: World, s: Step, f: Loc)
    requires Valid(u, w) && s.RenameItem? && Admissible(cfg, u, w, s) && f in w.uploads
    ensures Alike(w, RenamedBy(cfg, u, w, s), f)
  {
    hide RenameHappens, ChargeRename, MovedPart, Moving;
    assert ValidUpload(u, w, f);
    MovingElsewhere(w.fs, Resolve(u, s.source), Resolve(u, s.target), f);
  }

  lemma OtherTruncate(cfg: Config, u: User, w: World, s: Step, f: Loc)
    requires Valid(u, w) && s.TruncateFile? && Admissible(cfg, u, w, s) && f in w.uploads && ActionOn(u, w, s, f) == []
    ensures Alike(w, TruncatedBy(cfg, u, w, s), f)
  {
    hide FolderFor, Charge;
    assert ValidUpload(u, w, f);
  }

  /** A step that is no action on an upload, and does not close it, leaves it and its file alone. */
  lemma OtherStep(cfg: Config, u: User, w: World, s: Step, f: Loc)
    requires Valid(u, w) && Admissible(cfg, u, w, s) && f in w.uploads && !Closes(s, f) && ActionOn(u, w, s, f) == []
    ensures Alike(w, Next(cfg, u, w, s), f)
  {
    hide FolderFor, Uploaded, TruncatedBy, Closed, RenamedBy, Charge;
    assert ValidUpload(u, w, f);
    match s
    case UploadFile(_, _, _, _, _, _) => OtherUpload(cfg, u, w, s, f);
    case TruncateFile(_, _, _, _) => OtherTruncate(cfg, u, w, s, f);
    case CloseUpload(file, ioOk) => OtherClose(cfg, u, w, file, ioOk, f);
    case RenameItem(_, _, _, _) => OtherRename(cfg, u, w, s, f);
    case _ =>
  }

  lemma WriteAction(cfg: Config, u: User, w: World, s: Step, f: Loc, charged: int)
    requires Valid(u, w) && s.WriteTo? && s.file == f && f in w.uploads
    ensures ValidUpload(u, w, f)
    ensures var w', t := WrittenTo(w, f, s.offset, s.n, s.ioErr), Perform(SessionAt(w, f, charged), Write(s.offset, s.n, s.ioErr));
            SessionAt(w', f, t.charged) == t && t.charged == charged && w'.books == w.books
  {
    assert ValidUpload(u, w, f);
  }

  lemma TruncateAction(cfg: Config, u: User, w: World, s: Step, f: Loc, charged: int)
    requires ValidUser(u) && Valid(u, w) && s.TruncateFile? && s.permitted && s.ioOk
    requires f in w.uploads && w.uploads[f].target == Resolve(u, s.request)
    ensures ValidUpload(u, w, f) && s.request == w.uploads[f].request
    ensures TruncatedBy(cfg, u, w, s) == HandleTruncated(cfg, u, w, s.request, f, s.size)
  {
    hide FolderFor, Charge, HandleTruncated, PathTruncated;
    assert ValidUpload(u, w, f);
    assert OpenFor(w, Resolve(u, s.request), f);
    assert forall g :: OpenFor(w, Resolve(u, s.request), g) ==> g == f;
    ResolveInjective(u, s.request, w.uploads[f].request);
  }

  /** The step on the upload, seen from its ledger: a truncation is charged by the change of
      initialSize, a write by nothing. */
  lemma ActionStep(cfg: Config, u: User, w: World, s: Step, f: Loc, charged: int)
    requires ValidUser(u) && Valid(u, w) && Admissible(cfg, u, w, s) && f in w.uploads && ActionOn(u, w, s, f) != []
    ensures ValidUpload(u, w, f) && f in Next(cfg, u, w, s).uploads && f in Next(cfg, u, w, s).fs.files
    ensures var w', t := Next(cfg, u, w, s), Perform(SessionAt(w, f, charged), ActionOn(u, w, s, f)[0]);
            && SessionAt(w', f, t.charged) == t && t.up.request == w.uploads[f].request
            && w'.books == Charge(cfg, u, w.books, w.uploads[f].request, 0, t.charged - charged)
  {
    hide FolderFor, Charge, TruncatedBy, Valid, ValidUpload, Resolve;
    if s.TruncateFile? {
      TruncateAction(cfg, u, w, s, f, charged);
    } else {
      WriteAction(cfg, u, w, s, f, charged);
      NoCharge(cfg, u, w.books, w.uploads[f].request);
    }
  }

  // ---------------------------------------------------------------------------------------------
  // Runs as sessions

  lemma UploadHasFile(u: User, w: World, f: Loc)
    requires Valid(u, w) && f in w.uploads
    ensures f in w.fs.files
  {
    assert ValidUpload(u, w, f);
  }

  ghost function ValidNext(cfg: Config, u: User, w: World, s: Step): (w': World)
    requires Valid(u, w) && Admissible(cfg, u, w, s)
    ensures Valid(u, w') && w' == Next(cfg, u, w, s)
  {
    NextValid(cfg, u, w, s);
    Next(cfg, u, w, s)
  }

  lemma StaysOpen(cfg: Config, u: User, w: World, s: Step, f: Loc)
    requires Valid(u, w) && Admissible(cfg, u, w, s) && f in w.uploads && !Closes(s, f)
    ensures f in Next(cfg, u, w, s).uploads
  {
  }

  predicate NeverCloses(steps: seq<Step>, f: Loc) {
    forall i :: 0 <= i < |steps| ==> !Closes(steps[i], f)
  }

  /** The upload that writes to f is open and the run does not close it. */
  ghost predicate OpenThroughout(cfg: Config, u: User, w: World, steps: seq<Step>, f: Loc) {
    Valid(u, w) && AllAdmissible(cfg, u, w, steps) && f in w.uploads && NeverCloses(steps, f)
  }

  /** The actions of a run on the upload that writes to f. */
  ghost function ActionsOver(cfg: Config, u: User, w: World, steps: seq<Step>, f: Loc): seq<Action>
    requires OpenThroughout(cfg, u, w, steps, f)
    decreases |steps|
  {
    if steps == [] then [] else
      StaysOpen(cfg, u, w, steps[0], f);
      ActionOn(u, w, steps[0], f) + ActionsOver(cfg, u, ValidNext(cfg, u, w, steps[0]), steps[1..], f)
  }

  /** What a run charges a ledger apart from its actions on the upload that writes to f. */
  ghost function ChargedByOthers(cfg: Config, u: User, w: World, steps: seq<Step>, f: Loc, b: Book, k: Measure): int
    requires OpenThroughout(cfg, u, w, steps, f)
    decreases |steps|
  {
    if steps == [] then 0 else
      StaysOpen(cfg, u, w, steps[0], f);
      var w' := ValidNext(cfg, u, w, steps[0]);
      (if ActionOn(u, w, steps[0], f) == [] then Balance(w'.books, b, k) - Balance(w.books, b, k) else 0)
      + ChargedByOthers(cfg, u, w', steps[1..], f, b, k)
  }

  /** Where a run takes the session of an open upload. */
  ghost function SessionAfter(cfg: Config, u: User, w: World, steps: seq<Step>, f: Loc, charged: int): Session
    requires OpenThroughout(cfg, u, w, steps, f)
  {
    UploadHasFile(u, w, f);
    PerformAll(SessionAt(w, f, charged), ActionsOver(cfg, u, w, steps, f))
  }

  /** One step of a run: the session performs its action, and the ledger moves by the charge of that
      action or by what the step charges otherwise. */
  lemma SessionStep(cfg: Config, u: User, w: World, s: Step, f: Loc, charged: int, b: Book, k: Measure)
    requires ValidUser(u) && ValidConfig(cfg)
    requires Valid(u, w) && Admissible(cfg, u, w, s) && f in w.uploads && !Closes(s, f)
    ensures ValidUpload(u, w, f) && f in Next(cfg, u, w, s).uploads && f in Next(cfg, u, w, s).fs.files
    ensures var w', t := Next(cfg, u, w, s), PerformAll(SessionAt(w, f, charged), ActionOn(u, w, s, f));
            && SessionAt(w', f, t.charged) == t && w'.uploads[f].request == w.uploads[f].request
            && (ActionOn(u, w, s, f) == [] ==> t.charged == charged)
            && (ActionOn(u, w, s, f) != [] && Tracked(cfg, u, b) ==>
                  Balance(w'.books, b, k) == Balance(w.books, b, k)
                    + Share(Resolve(u, w.uploads[f].request).container, Part(0, t.charged - charged, k), Covered(u, b)))
  {
    hide Next, Charge, Balance, Covered, FolderFor;
    assert ValidUpload(u, w, f);
    if ActionOn(u, w, s, f) == [] {
      OtherStep(cfg, u, w, s, f);
    } else {
      ActionStep(cfg, u, w, s, f, charged);
      var t := Perform(SessionAt(w, f, charged), ActionOn(u, w, s, f)[0]);
      if Tracked(cfg, u, b) { ChargeBalance(cfg, u, w.books, w.uploads[f].request, 0, t.charged - charged, b, k); }
    }
  }

  lemma PerformFirst(s: Session, acts: seq<Action>, rest: seq<Action>)
    requires |acts| <= 1
    ensures PerformAll(s, acts + rest) == PerformAll(PerformAll(s, acts), rest)
  {
    if acts == [] {
      assert acts + rest == rest;
    } else {
      assert (acts + rest)[1..] == rest && acts[1..] == [];
    }
  }

  /** Over any run that does not close it, an open upload is a session, and the ledger moves by the
      charges of that session and by what all other steps charge. */
  lemma {:induction false} RunIsSession(cfg: Config, u: User, w: World, steps: seq<Step>, f: Loc, charged: int, b: Book, k: Measure)
    requires ValidUser(u) && ValidConfig(cfg) && OpenThroughout(cfg, u, w, steps, f)
    ensures var w', t := Run(cfg, u, w, steps), SessionAfter(cfg, u, w, steps, f, charged);
            && f in w'.uploads && f in w'.fs.files && SessionAt(w', f, t.charged) == t
            && w'.uploads[f].request == w.uploads[f].request && Valid(u, w')
            && (Tracked(cfg, u, b) ==>
                  Balance(w'.books, b, k) == Balance(w.books, b, k) + ChargedByOthers(cfg, u, w, steps, f, b, k)
                    + Share(Resolve(u, w.uploads[f].request).container, Part(0, t.charged - charged, k), Covered(u, b)))
    decreases |steps|
  {
    hide Next, Balance, Covered, Resolve, ActionOn, Admissible, Valid, ValidUpload, ValidUser, Perform, Tracked;
    UploadHasFile(u, w, f);
    if steps != [] {
      var s := steps[0];
      SessionStep(cfg, u, w, s, f, charged, b, k);
      var w1, t1 := ValidNext(cfg, u, w, s), PerformAll(SessionAt(w, f, charged), ActionOn(u, w, s, f));
      assert OpenThroughout(cfg, u, w1, steps[1..], f);
      PerformFirst(SessionAt(w, f, charged), ActionOn(u, w, s, f), ActionsOver(cfg, u, w1, steps[1..], f));
      RunIsSession(cfg, u, w1, steps[1..], f, t1.charged, b, k);
    }
  }

  // ---------------------------------------------------------------------------------------------
  // From open to close

  /** A step opens an upload to f and a run follows that does not close it. */
  ghost predicate OpensAndStays(cfg: Config, u: User, w: World, s: Step, steps: seq<Step>, f: Loc) {
    && Valid(u, w) && Admissible(cfg, u, w, s) && Opens(cfg, u, w, s, f)
    && OpenThroughout(cfg, u, ValidNext(cfg, u, w, s), steps, f)
  }

  ghost function BeforeClose(cfg: Config, u: User, w: World, s: Step, steps: seq<Step>, f: Loc): World
    requires OpensAndStays(cfg, u, w, s, steps, f)
  {
    Run(cfg, u, ValidNext(cfg, u, w, s), steps)
  }

  ghost function ActionsOf(cfg: Config, u: User, w: World, s: Step, steps: seq<Step>, f: Loc): seq<Action>
    requires OpensAndStays(cfg, u, w, s, steps, f)
  {
    ActionsOver(cfg, u, ValidNext(cfg, u, w, s), steps, f)
  }

  ghost function Others(cfg: Config, u: User, w: World, s: Step, steps: seq<Step>, f: Loc, b: Book, k: Measure): int
    requires OpensAndStays(cfg, u, w, s, steps, f)
  {
    ChargedByOthers(cfg, u, ValidNext(cfg, u, w, s), steps, f, b, k)
  }

  /** The close reports no error. */
  predicate ClosesWell(w: World, f: Loc, ioOk: bool)
    requires f in w.uploads
  {
    w.uploads[f].err.NoError? && (f != w.uploads[f].target ==> ioOk)
  }

  /** What closing well adds to a ledger: the file in full, against what was charged for it. */
  lemma CloseBalance(cfg: Config, u: User, w: World, f: Loc, ioOk: bool, b: Book, k: Measure)
    requires ValidUser(u) && ValidConfig(cfg) && Tracked(cfg, u, b)
    requires Valid(u, w) && f in w.uploads && ClosesWell(w, f, ioOk)
    ensures ValidUpload(u, w, f)
    ensures var up := w.uploads[f];
            Balance(Closed(cfg, u, w, f, ioOk).books, b, k) == Balance(w.books, b, k)
              + Share(Resolve(u, up.request).container, Part(One(up.isNew), w.fs.files[f] - up.initialSize, k), Covered(u, b))
  {
    hide FolderFor, Charge, Balance, Covered;
    assert ValidUpload(u, w, f);
    var up, size := w.uploads[f], w.fs.files[f];
    var atomic, fate := f != up.target, FateOf(cfg, w, f, ioOk);
    ChargeBalance(cfg, u, w.books, up.request,
                  CloseCharge(up, fate, atomic, size, Files), CloseCharge(up, fate, atomic, size, Bytes), b, k);
  }

  /** The upload in a run.  From the step that opens it, over any steps in between, the upload is the
      session it was admitted as. */
  lemma UploadIsAdmittedSession(cfg: Config, u: User, w: World, s: Step, steps: seq<Step>, f: Loc)
    requires ValidUser(u) && ValidConfig(cfg) && OpensAndStays(cfg, u, w, s, steps, f)
    ensures var w', t := BeforeClose(cfg, u, w, s, steps, f), PerformAll(SessionOf(cfg, u, w, s), ActionsOf(cfg, u, w, s, steps, f));
            && Valid(u, w') && f in w'.uploads && f in w'.fs.files && w'.uploads[f] == t.up && w'.fs.files[f] == t.size
  {
    hide Next, Charge, HasSpaceFor, SessionOf, Run, ActionsOver, ChargedByOthers, PerformAll;
    OpenedUploadWasAdmitted(cfg, u, w, s, f);
    RunIsSession(cfg, u, ValidNext(cfg, u, w, s), steps, f, SessionOf(cfg, u, w, s).charged, UserBook, Files);
  }

  /** And when its close reports no error, the ledger it is checked against ends as it was at
      admission, plus what all other steps charged it, plus the change in size of the file and one
      for a new file. */
  lemma UploadOverRun(cfg: Config, u: User, w: World, s: Step, steps: seq<Step>, f: Loc, ioOk: bool, k: Measure)
    requires ValidUser(u) && ValidConfig(cfg) && OpensAndStays(cfg, u, w, s, steps, f)
    requires Tracked(cfg, u, LimitingBook(u, s.request))
    ensures var w', b := BeforeClose(cfg, u, w, s, steps, f), LimitingBook(u, s.request);
            && f in w'.uploads && f in w'.fs.files
            && (ClosesWell(w', f, ioOk) ==>
                  Balance(Closed(cfg, u, w', f, ioOk).books, b, k) ==
                    Balance(w.books, b, k) + Others(cfg, u, w, s, steps, f, b, k)
                      + Part(One(KindOf(u, w, s).NewFile?), w'.fs.files[f] - SizeBefore(u, w, s), k))
  {
    hide Next, Charge, Balance, Covered, HasSpaceFor, CapFor, Run, ActionsOver, ChargedByOthers, PerformAll, FolderFor, Closed;
    OpenedUploadWasAdmitted(cfg, u, w, s, f);
    var w1, s0, b := ValidNext(cfg, u, w, s), SessionOf(cfg, u, w, s), LimitingBook(u, s.request);
    assert ValidUpload(u, w1, f);
    LimitingBookCovers(u, s.request);
    ChargeBalance(cfg, u, w.books, s.request, 0, s0.charged, b, k);
    RunIsSession(cfg, u, w1, steps, f, s0.charged, b, k);
    PerformAllAccounted(s0, ActionsOver(cfg, u, w1, steps, f), SizeBefore(u, w, s));
    var w' := BeforeClose(cfg, u, w, s, steps, f);
    if ClosesWell(w', f, ioOk) { CloseBalance(cfg, u, w', f, ioOk, b, k); }
  }

  lemma LimitedIsTracked(cfg: Config, u: User, request: Path, k: Measure)
    requires ValidConfig(cfg) && CheckedLimit(cfg, u, request, k) > 0
    ensures Tracked(cfg, u, LimitingBook(u, request))
  {
  }

  /** The upload cap in a run.  When the actions on the upload keep its cap and its close reports no
      error, the file is no larger than the largest upload whatever else happened, and the ledger it
      is checked against exceeds a limit by no more than the other steps charged it meanwhile; it is
      within the limit if and only if those charges fit in what the upload itself left free. */
  lemma CapOverRun(cfg: Config, u: User, w: World, s: Step, steps: seq<Step>, f: Loc, ioOk: bool, k: Measure)
    requires ValidUser(u) && ValidConfig(cfg) && OpensAndStays(cfg, u, w, s, steps, f)
    requires IsLimited(u.maxUploadFileSize, CheckedLimit(cfg, u, s.request, Bytes)) ==>
               AllKeepCap(SessionOf(cfg, u, w, s), ActionsOf(cfg, u, w, s, steps, f))
    requires f in BeforeClose(cfg, u, w, s, steps, f).uploads && ClosesWell(BeforeClose(cfg, u, w, s, steps, f), f, ioOk)
    ensures var w' := BeforeClose(cfg, u, w, s, steps, f);
            f in w'.fs.files && (u.maxUploadFileSize > 0 ==> w'.fs.files[f] <= u.maxUploadFileSize)
    ensures var w', b, limit := BeforeClose(cfg, u, w, s, steps, f), LimitingBook(u, s.request), CheckedLimit(cfg, u, s.request, k);
            var after, others := Balance(Closed(cfg, u, w', f, ioOk).books, b, k), Others(cfg, u, w, s, steps, f, b, k);
            var own := Part(One(KindOf(u, w, s).NewFile?), w'.fs.files[f] - SizeBefore(u, w, s), k);
            limit > 0 ==>
              && (k.Bytes? || KindOf(u, w, s).NewFile? ==> Balance(w.books, b, k) + own <= limit && after <= limit + others)
              && (Within(limit, after) <==> others <= limit - Balance(w.books, b, k) - own)
  {
    hide Next, Charge, Balance, CapFor, Run, ActionsOver, ChargedByOthers, PerformAll, FolderFor, Closed, AllKeepCap, LimitingBook;
    OpenedUploadWasAdmitted(cfg, u, w, s, f);
    UploadIsAdmittedSession(cfg, u, w, s, steps, f);
    UploadWithinLimits(cfg, u, w.books, s.request, Resolve(u, s.request), KindOf(u, w, s), SizeBefore(u, w, s),
                       ActionsOf(cfg, u, w, s, steps, f));
    if CheckedLimit(cfg, u, s.request, k) > 0 {
      LimitedIsTracked(cfg, u, s.request, k);
      UploadOverRun(cfg, u, w, s, steps, f, ioOk, k);
    }
  }

  // ---------------------------------------------------------------------------------------------
  // Renames

  lemma {:induction false} SumNotNegative(files: map<Loc, nat>, ls: set<Loc>, k: Measure)
    requires ls <= files.Keys
    ensures Sum(Scanned(files), ls, k) >= 0
  {
    if ls != {} {
      var l :| l in ls;
      SumRemove(Scanned(files), ls, l, k);
      SumNotNegative(files, ls - {l}, k);
    }
  }

  /** A rename that happens leaves the ledger limiting its target within each limit, or does not
      raise it. */
  lemma RenameStepRespectsLimits(cfg: Config, u: User, w: World, s: Step, k: Measure)
    requires ValidUser(u) && ValidConfig(cfg) && s.RenameItem?
    ensures var b := LimitingBook(u, s.target);
            var after := Balance(RenamedBy(cfg, u, w, s).books, b, k);
            Within(Limit(u, s.target, k), after) || after <= Balance(w.books, b, k)
  {
    hide FolderFor, Balance, ChargeRename, RenameFits, Limit;
    if RenameHappens(cfg, u, w, s) {
      var src, dst := Resolve(u, s.source), Resolve(u, s.target);
      SumNotNegative(w.fs.files, LocsBelow(Scanned(w.fs.files), src), Files);
      SumNotNegative(w.fs.files, LocsBelow(Scanned(w.fs.files), src), Bytes);
      AcceptedRenameRespectsLimits(cfg, u, w.books, s.source, s.target, OverwrittenAt(w.fs, dst),
                                   MovedPart(w.fs, src, Bytes), MovedPart(w.fs, src, Files), k);
    }
  }

  // ---------------------------------------------------------------------------------------------
  // Every step against every limit

  /** The limit a user has for a folder; 0 when the user has no such folder. */
  function MountLimit(ms: seq<Mount>, name: string, k: Measure): int {
    if ms == [] then 0
    else if ms[0].name == name then Part(ms[0].quotaFiles, ms[0].quotaSize, k)
    else MountLimit(ms[1..], name, k)
  }

  function BookLimit(u: User, b: Book, k: Measure): int {
    match b
    case UserBook => Part(u.quotaFiles, u.quotaSize, k)
    case FolderBook(f) => MountLimit(u.mounts, f, k)
  }

  lemma {:induction false} MountLimitOf(ms: seq<Mount>, m: Mount, k: Measure)
    requires m in ms && forall i, j :: 0 <= i < j < |ms| ==> ms[i].name != ms[j].name
    ensures MountLimit(ms, m.name, k) == Part(m.quotaFiles, m.quotaSize, k)
  {
    if ms[0] != m {
      assert m in ms[1..];
      MountLimitOf(ms[1..], m, k);
    }
  }

  /** The limits of an item are those of the ledger it is checked against. */
  lemma LimitOfBook(u: User, request: Path, k: Measure)
    requires ValidUser(u)
    ensures BookLimit(u, LimitingBook(u, request), k) == Limit(u, request, k)
  {
    var f := FolderFor(u, Parent(request));
    if f.Some? { MountLimitOf(u.mounts, f.value, k); }
  }

  /** Of the ledgers that cover an item, only the one it is checked against has a limit. */
  lemma OnlyOneLimits(u: User, request: Path, b: Book, k: Measure)
    requires ValidUser(u) && !IsVirtualFolder(u, request) && Resolve(u, request).container in Covered(u, b)
    ensures b == LimitingBook(u, request) || BookLimit(u, b, k) <= 0
  {
    ResolvedContainer(u, request);
    var f := FolderFor(u, Parent(request));
    if f.Some? { MountLimitOf(u.mounts, f.value, k); }
  }

  /** The ledger grows and ends over the limit. */
  predicate RaisedOver(limit: int, before: int, after: int) {
    limit > 0 && after > limit && after > before
  }

  /** What a truncation takes effect as: the new size against what the ledger counts. */
  ghost function TruncateCharge(u: User, w: World, s: Step): int
    requires s.TruncateFile?
  {
    var l := Resolve(u, s.request);
    if !s.permitted || !s.ioOk then 0
    else if f: Loc :| OpenFor(w, l, f) then s.size - w.uploads[f].initialSize
    else if l in w.fs.files then s.size - w.fs.files[l]
    else 0
  }

  /** What a truncation or a close charges a ledger; nothing is checked before either. */
  ghost function UncheckedCharge(cfg: Config, u: User, w: World, s: Step, b: Book, k: Measure): int {
    match s
    case TruncateFile(request, _, _, _) => Share(Resolve(u, request).container, Part(0, TruncateCharge(u, w, s), k), Covered(u, b))
    case CloseUpload(file, ioOk) =>
      if file in w.uploads && file in w.fs.files then
        var up := w.uploads[file];
        Share(Resolve(u, up.request).container,
              CloseCharge(up, FateOf(cfg, w, file, ioOk), file != up.target, w.fs.files[file], k), Covered(u, b))
      else 0
    case _ => 0
  }

  lemma TruncateBalance(cfg: Config, u: User, w: World, s: Step, b: Book, k: Measure)
    requires ValidUser(u) && ValidConfig(cfg) && Tracked(cfg, u, b)
    requires Valid(u, w) && s.TruncateFile? && Admissible(cfg, u, w, s)
    ensures Balance(TruncatedBy(cfg, u, w, s).books, b, k) == Balance(w.books, b, k) + UncheckedCharge(cfg, u, w, s, b, k)
  {
    hide FolderFor, Charge, Balance, Covered;
    var l := Resolve(u, s.request);
    forall f | OpenFor(w, l, f)
      ensures !IsVirtualFolder(u, s.request) && forall g :: OpenFor(w, l, g) ==> g == f
    {
      assert ValidUpload(u, w, f);
      FilePlace(w.fs, f, w.uploads[f].target);
      FileIsNoVirtualFolder(u, s.request);
    }
    if l in w.fs.files {
      FilePlace(w.fs, l, l);
      FileIsNoVirtualFolder(u, s.request);
    }
    if !IsVirtualFolder(u, s.request) {
      ChargeBalance(cfg, u, w.books, s.request, 0, TruncateCharge(u, w, s), b, k);
    }
  }

  lemma ClosedBalance(cfg: Config, u: User, w: World, s: Step, b: Book, k: Measure)
    requires ValidUser(u) && ValidConfig(cfg) && Tracked(cfg, u, b)
    requires Valid(u, w) && s.CloseUpload? && s.file in w.uploads
    ensures ValidUpload(u, w, s.file)
    ensures Balance(Closed(cfg, u, w, s.file, s.ioOk).books, b, k) == Balance(w.books, b, k) + UncheckedCharge(cfg, u, w, s, b, k)
  {
    hide FolderFor, Charge, Balance, Covered, CloseCharge;
    assert ValidUpload(u, w, s.file);
    var up, size := w.uploads[s.file], w.fs.files[s.file];
    var atomic, fate := s.file != up.target, FateOf(cfg, w, s.file, s.ioOk);
    ChargeBalance(cfg, u, w.books, up.request,
                  CloseCharge(up, fate, atomic, size, Files), CloseCharge(up, fate, atomic, size, Bytes), b, k);
  }

  /** Opening an upload charges nothing, or takes an overwritten file out. */
  lemma OpeningNeverRaises(cfg: Config, u: User, w: World, s: Step, b: Book, k: Measure)
    requires ValidUser(u) && ValidConfig(cfg) && Tracked(cfg, u, b) && Valid(u, w) && s.UploadFile?
    ensures Balance(Uploaded(cfg, u, w, s).books, b, k) <= Balance(w.books, b, k)
  {
    hide FolderFor, Charge, Balance, Covered, HasSpaceFor, CapFor;
    var l := Resolve(u, s.request);
    if l in w.fs.files {
      FilePlace(w.fs, l, l);
      FileIsNoVirtualFolder(u, s.request);
      ChargeBalance(cfg, u, w.books, s.request, 0, OpenCharge(if s.resume then Resume else Overwrite, w.fs.files[l]), b, k);
    }
  }

  lemma RemovingNeverRaises(cfg: Config, u: User, w: World, s: Step, b: Book, k: Measure)
    requires ValidUser(u) && ValidConfig(cfg) && Tracked(cfg, u, b) && Valid(u, w) && s.RemoveFile?
    ensures Balance(Removed(cfg, u, w, s).books, b, k) <= Balance(w.books, b, k)
  {
    hide FolderFor, Charge, Balance, Covered;
    var l := Resolve(u, s.request);
    if l in w.fs.files {
      FilePlace(w.fs, l, l);
      FileIsNoVirtualFolder(u, s.request);
      var size: int := w.fs.files[l];
      ChargeBalance(cfg, u, w.books, s.request, -1, -size, b, k);
    }
  }

  lemma RenamingNeverRaisesOver(cfg: Config, u: User, w: World, s: Step, b: Book, k: Measure)
    requires ValidUser(u) && ValidConfig(cfg) && Tracked(cfg, u, b) && s.RenameItem?
    ensures !RaisedOver(BookLimit(u, b, k), Balance(w.books, b, k), Balance(RenamedBy(cfg, u, w, s).books, b, k))
  {
    hide FolderFor, Balance, ChargeRename, RenameFits, Limit, Covered, Subtree, BookLimit;
    if RenameHappens(cfg, u, w, s) {
      var src, dst := Resolve(u, s.source), Resolve(u, s.target);
      if dst.container in Covered(u, b) {
        OnlyOneLimits(u, s.target, b, k);
        LimitOfBook(u, s.target, k);
        RenameStepRespectsLimits(cfg, u, w, s, k);
      } else {
        MovedNotNegative(w.fs, src, k);
        RenameBalance(cfg, u, w.books, s.source, s.target, OverwrittenAt(w.fs, dst),
                      MovedPart(w.fs, src, Bytes), MovedPart(w.fs, src, Files), b, k);
      }
    }
  }

  lemma MovedNotNegative(fs: Fs, src: Loc, k: Measure)
    ensures MovedPart(fs, src, k) >= 0
  {
    SumNotNegative(fs.files, LocsBelow(Scanned(fs.files), src), k);
  }

  /** Exactly which steps take a ledger over a limit: truncations and closes, by what they charge.
      Every other step leaves every ledger within its limits or does not raise it. */
  lemma StepExceedsIff(cfg: Config, u: User, w: World, s: Step, b: Book, k: Measure)
    requires ValidUser(u) && ValidConfig(cfg) && Tracked(cfg, u, b) && Valid(u, w) && Admissible(cfg, u, w, s)
    ensures var before := Balance(w.books, b, k);
            RaisedOver(BookLimit(u, b, k), before, Balance(Next(cfg, u, w, s).books, b, k)) <==>
              && (s.TruncateFile? || s.CloseUpload?)
              && RaisedOver(BookLimit(u, b, k), before, before + UncheckedCharge(cfg, u, w, s, b, k))
  {
    hide FolderFor, Balance, BookLimit, Uploaded, TruncatedBy, Closed, Removed, RenamedBy, UncheckedCharge, ValidUpload;
    match s
    case UploadFile(_, _, _, _, _, _) => OpeningNeverRaises(cfg, u, w, s, b, k);
    case TruncateFile(_, _, _, _) => TruncateBalance(cfg, u, w, s, b, k);
    case CloseUpload(_, _) => ClosedBalance(cfg, u, w, s, b, k);
    case RemoveFile(_, _, _) => RemovingNeverRaises(cfg, u, w, s, b, k);
    case RenameItem(_, _, _, _) => RenamingNeverRaisesOver(cfg, u, w, s, b, k);
    case _ =>
  }
}

/** Concrete runs, from an empty store, in which the ledgers do not end as one would expect.  The
    conditions under which this happens are CloseSettlesIff, DriftOfRename and CapOverRun. */
module FailingRuns {
  import opened Paths
  import opened Accounts
  import opened Store
  import opened Usages
  import opened Ledger
  import opened Limits
  import opened Uploads
  import opened Server
  import opened Validity
  import opened Runs

  /** An account without virtual folders, limited to ten bytes. */
  const SMALL := User([], map[], 10, 0, 0, true)

  const STANDARD := Config(1, Standard)

  const ATOMIC := Config(1, Atomic)

  const NOTHING := World(Fs(map[], {}), Books(Usage(0, 0), map[]), map[])

  function At(name: string): Loc {
    Loc(Home, [name])
  }

  /** The steps are admissible one after the other and lead from one world to the other. */
  ghost predicate Leads(cfg: Config, w: World, steps: seq<Step>, w': World) {
    Valid(SMALL, w) && Valid(SMALL, w') && AllAdmissible(cfg, SMALL, w, steps) && Run(cfg, SMALL, w, steps) == w'
  }

  lemma {:induction false} LeadsOn(cfg: Config, w: World, steps: seq<Step>, w1: World, s: Step)
    requires Leads(cfg, w, steps, w1) && Admissible(cfg, SMALL, w1, s)
    ensures Leads(cfg, w, steps + [s], Next(cfg, SMALL, w1, s))
    decreases |steps|
  {
    hide Next, Admissible, Valid;
    NextValid(cfg, SMALL, w1, s);
    if steps == [] {
      assert steps + [s] == [s] && [s][1..] == [];
      var w2 := Next(cfg, SMALL, w1, s);
      assert AllAdmissible(cfg, SMALL, w2, []) && Run(cfg, SMALL, w2, []) == w2;
    } else {
      NextValid(cfg, SMALL, w, steps[0]);
      assert (steps + [s])[1..] == steps[1..] + [s];
      LeadsOn(cfg, Next(cfg, SMALL, w, steps[0]), steps[1..], w1, s);
    }
  }

  /** The first k steps of a run from an empty store. */
  ghost predicate Reached(cfg: Config, all: seq<Step>, k: nat, w: World) {
    k <= |all| && Leads(cfg, NOTHING, all[..k], w)
  }

  lemma Begin(cfg: Config, all: seq<Step>)
    ensures Reached(cfg, all, 0, NOTHING)
  {
  }

  lemma OneMore(cfg: Config, all: seq<Step>, k: nat, w: World, w': World)
    requires Reached(cfg, all, k, w) && k < |all| && Admissible(cfg, SMALL, w, all[k]) && Next(cfg, SMALL, w, all[k]) == w'
    ensures Reached(cfg, all, k + 1, w')
  {
    hide Next, Admissible, Leads;
    LeadsOn(cfg, NOTHING, all[..k], w, all[k]);
    assert all[..k] + [all[k]] == all[..k + 1];
  }

  // ---------------------------------------------------------------------------------------------
  // Steps of this account

  lemma InHome(name: string)
    ensures FolderFor(SMALL, [name]).None? && FolderFor(SMALL, Parent([name])).None? && Resolve(SMALL, [name]) == At(name)
  {
  }

  /** A charge goes to the user. */
  lemma Charged(cfg: Config, bs: Books, name: string, files: int, size: int)
    requires cfg.trackQuota == 1
    ensures Charge(cfg, SMALL, bs, [name], files, size) == bs.(user := Usage(bs.user.files + files, bs.user.bytes + size))
  {
    InHome(name);
  }

  // ---------------------------------------------------------------------------------------------
  // One more step of a run

  function New(name: string): Step {
    UploadFile([name], At("t"), false, true, true, true)
  }

  function Begun(cfg: Config, w: World, name: string): World {
    var f := if IsAtomic(cfg) then At("t") else At(name);
    World(Put(w.fs, f, 0), w.books, w.uploads[f := Opened([name], At(name), NewFile, 0, 10 - w.books.user.bytes)])
  }

  lemma UploadsNew(cfg: Config, w: World, name: string)
    requires cfg.trackQuota == 1 && w.books.user.bytes < 10 && !Exists(w.fs, At(name))
    requires IsAtomic(cfg) ==> !Exists(w.fs, At("t"))
    ensures Uploaded(cfg, SMALL, w, New(name)) == Begun(cfg, w, name)
  {
    InHome(name);
    hide FolderFor;
  }

  lemma OpensNew(cfg: Config, all: seq<Step>, k: nat, w: World, name: string)
    requires cfg.trackQuota == 1 && Reached(cfg, all, k, w) && k < |all| && all[k] == New(name) && name != "t"
    requires w.books.user.bytes < 10 && !Exists(w.fs, At(name)) && Free(w, At(name))
    requires IsAtomic(cfg) ==> !Exists(w.fs, At("t")) && Free(w, At("t"))
    ensures Reached(cfg, all, k + 1, Begun(cfg, w, name))
  {
    InHome(name);
    UploadsNew(cfg, w, name);
    hide Uploaded, Begun, FolderFor, Leads, Valid, Free, Exists;
    ReachedValid(cfg, all, k, w);
    OneMore(cfg, all, k, w, Begun(cfg, w, name));
  }

  lemma ReachedValid(cfg: Config, all: seq<Step>, k: nat, w: World)
    requires Reached(cfg, all, k, w)
    ensures Valid(SMALL, w)
  {
  }

  lemma Writes(cfg: Config, all: seq<Step>, k: nat, w: World, f: Loc, offset: nat, n: nat)
    requires Reached(cfg, all, k, w) && k < |all| && all[k] == WriteTo(f, offset, n, false) && f in w.uploads
    ensures f in w.fs.files && Reached(cfg, all, k + 1, WrittenTo(w, f, offset, n, false))
  {
    assert ValidUpload(SMALL, w, f);
    OneMore(cfg, all, k, w, Next(cfg, SMALL, w, all[k]));
  }

  lemma Closes(cfg: Config, all: seq<Step>, k: nat, w: World, f: Loc, ioOk: bool)
    requires Reached(cfg, all, k, w) && k < |all| && all[k] == CloseUpload(f, ioOk) && f in w.uploads
    ensures f in w.fs.files && Reached(cfg, all, k + 1, Closed(cfg, SMALL, w, f, ioOk))
  {
    assert ValidUpload(SMALL, w, f);
    OneMore(cfg, all, k, w, Next(cfg, SMALL, w, all[k]));
  }

  // ---------------------------------------------------------------------------------------------
  // Two uploads at once

  function UploadOf(name: string, received: nat): Upload {
    Upload([name], At(name), 0, 0, 10, true, received, NoError)
  }

  const TWO_UPLOADS := [New("a"), New("b"), WriteTo(At("a"), 0, 10, false), WriteTo(At("b"), 0, 10, false),
                        CloseUpload(At("a"), true), CloseUpload(At("b"), true)]

  /** Both uploads are open and have received this much. */
  function BothOpen(na: nat, nb: nat): World {
    NOTHING.(fs := Fs(map[At("a") := na, At("b") := nb], {}), uploads := map[At("a") := UploadOf("a", na), At("b") := UploadOf("b", nb)])
  }

  lemma BothAdmitted()
    ensures Reached(STANDARD, TWO_UPLOADS, 2, BothOpen(0, 0))
  {
    hide Reached;
    assert ["a"][0] != ["b"][0];
    Begin(STANDARD, TWO_UPLOADS);
    OpensNew(STANDARD, TWO_UPLOADS, 0, NOTHING, "a");
    OpensNew(STANDARD, TWO_UPLOADS, 1, NOTHING.(fs := Fs(map[At("a") := 0], {}), uploads := map[At("a") := UploadOf("a", 0)]), "b");
  }

  lemma BothWritten()
    ensures Reached(STANDARD, TWO_UPLOADS, 4, BothOpen(10, 10))
  {
    hide Reached, OpenFor;
    assert ["a"][0] != ["b"][0];
    BothAdmitted();
    assert WrittenTo(BothOpen(0, 0), At("a"), 0, 10, false) == BothOpen(10, 0);
    Writes(STANDARD, TWO_UPLOADS, 2, BothOpen(0, 0), At("a"), 0, 10);
    assert WrittenTo(BothOpen(10, 0), At("b"), 0, 10, false) == BothOpen(10, 10);
    Writes(STANDARD, TWO_UPLOADS, 3, BothOpen(10, 0), At("b"), 0, 10);
  }

  /** Two uploads that are open at the same time are each admitted to the same free space: both
      close without error and the ledger ends at twice its limit. */
  lemma TwoUploadsExceedQuota()
    ensures Limit(SMALL, ["a"], Bytes) == Limit(SMALL, ["b"], Bytes) == 10
    ensures exists w :: Reached(STANDARD, TWO_UPLOADS, 6, w) && w.uploads == map[] && Balance(w.books, UserBook, Bytes) == 20
  {
    hide Reached, FolderFor, Charge;
    assert ["a"][0] != ["b"][0];
    InHome("a");
    InHome("b");
    var w4 := BothOpen(10, 10);
    var w5 := World(w4.fs, Books(Usage(1, 10), map[]), map[At("b") := UploadOf("b", 10)]);
    BothWritten();
    Charged(STANDARD, w4.books, "a", 1, 10);
    assert Closed(STANDARD, SMALL, w4, At("a"), true) == w5;
    Closes(STANDARD, TWO_UPLOADS, 4, w4, At("a"), true);
    Charged(STANDARD, w5.books, "b", 1, 10);
    Closes(STANDARD, TWO_UPLOADS, 5, w5, At("b"), true);
  }

  // ---------------------------------------------------------------------------------------------
  // Drifts

  /** The ledger of the user counts something else than what is stored. */
  ghost predicate Off(w: World, files: int, bytes: int) {
    && w.uploads == map[]
    && Balance(w.books, UserBook, Files) == DiskUsage(w.fs, Covered(SMALL, UserBook), Files) + files
    && Balance(w.books, UserBook, Bytes) == DiskUsage(w.fs, Covered(SMALL, UserBook), Bytes) + bytes
  }

  lemma EmptyDisk(k: Measure)
    ensures DiskUsage(NOTHING.fs, Covered(SMALL, UserBook), k) == 0
  {
    assert LocsIn(Scanned(map[]), Covered(SMALL, UserBook)) == {};
  }

  lemma OneFileOnDisk(l: Loc, size: nat, k: Measure)
    requires l.container == Home
    ensures DiskUsage(Fs(map[l := size], {}), Covered(SMALL, UserBook), k) == Part(1, size, k)
  {
    EmptyDisk(k);
    TotalPut(Scanned(map[]), l, Usage(1, size), Covered(SMALL, UserBook), k);
    assert Scanned(map[l := size]) == Scanned(map[])[l := Usage(1, size)];
  }

  const TRUNCATED_THEN_DELETED := [New("a"), TruncateFile(["a"], 5, true, true), WriteTo(At("a"), 5, 6, false), CloseUpload(At("a"), true)]

  function Alone(f: Loc, up: Upload, size: nat, bytes: int): World {
    World(Fs(map[f := size], {}), Books(Usage(0, bytes), map[]), map[f := up])
  }

  lemma Opening(cfg: Config, all: seq<Step>)
    requires cfg.trackQuota == 1 && |all| > 0 && all[0] == New("a")
    ensures var f := if IsAtomic(cfg) then At("t") else At("a");
            Reached(cfg, all, 1, Alone(f, UploadOf("a", 0), 0, 0))
  {
    hide Reached;
    Begin(cfg, all);
    OpensNew(cfg, all, 0, NOTHING, "a");
  }

  lemma Truncates(all: seq<Step>, k: nat, w: World, size: nat)
    requires Reached(STANDARD, all, k, w) && k < |all| && all[k] == TruncateFile(["a"], size, true, true)
    requires At("a") in w.uploads && w.uploads[At("a")].target == At("a")
    ensures Reached(STANDARD, all, k + 1, HandleTruncated(STANDARD, SMALL, w, ["a"], At("a"), size))
  {
    InHome("a");
    assert OpenFor(w, At("a"), At("a")) && forall g :: OpenFor(w, At("a"), g) ==> g == At("a");
    OneMore(STANDARD, all, k, w, Next(STANDARD, SMALL, w, all[k]));
  }

  /** A new file that is truncated through its handle, then exceeds the cap and is deleted, stays in
      the ledger with the size it was truncated to. */
  lemma TruncatedThenDeletedDrifts()
    ensures exists w :: Reached(STANDARD, TRUNCATED_THEN_DELETED, 4, w) && Off(w, 0, 5)
  {
    hide Reached, FolderFor, Charge;
    var a, all := At("a"), TRUNCATED_THEN_DELETED;
    Opening(STANDARD, all);
    var up2 := Upload(["a"], a, 0, 5, 5, true, 0, NoError);
    Charged(STANDARD, NOTHING.books, "a", 0, 5);
    assert HandleTruncated(STANDARD, SMALL, Alone(a, UploadOf("a", 0), 0, 0), ["a"], a, 5) == Alone(a, up2, 5, 5);
    Truncates(all, 1, Alone(a, UploadOf("a", 0), 0, 0), 5);
    var up3 := up2.(received := 6, err := QuotaExceeded);
    assert WrittenTo(Alone(a, up2, 5, 5), a, 5, 6, false) == Alone(a, up3, 11, 5);
    Writes(STANDARD, all, 2, Alone(a, up2, 5, 5), a, 5, 6);
    Charged(STANDARD, Books(Usage(0, 5), map[]), "a", 0, 0);
    var w4 := World(NOTHING.fs, Books(Usage(0, 5), map[]), map[]);
    assert Closed(STANDARD, SMALL, Alone(a, up3, 11, 5), a, true) == w4;
    Closes(STANDARD, all, 3, Alone(a, up3, 11, 5), a, true);
    EmptyDisk(Files);
    EmptyDisk(Bytes);
  }

  const LEFT_UNDER_TEMPORARY_NAME := [New("a"), WriteTo(At("t"), 3, 2, false), CloseUpload(At("t"), false)]

  /** A file that is left under its temporary name is charged for the bytes received, not for its
      size. */
  lemma LeftUnderTemporaryNameDrifts()
    ensures exists w :: Reached(ATOMIC, LEFT_UNDER_TEMPORARY_NAME, 3, w) && Off(w, 0, -3)
  {
    hide Reached, FolderFor, Charge;
    var t, all := At("t"), LEFT_UNDER_TEMPORARY_NAME;
    assert t != At("a") by { assert ["a"][0] != ["t"][0]; }
    Opening(ATOMIC, all);
    var w2 := Alone(t, UploadOf("a", 2), 5, 0);
    assert WrittenTo(Alone(t, UploadOf("a", 0), 0, 0), t, 3, 2, false) == w2;
    Writes(ATOMIC, all, 1, Alone(t, UploadOf("a", 0), 0, 0), t, 3, 2);
    Charged(ATOMIC, w2.books, "a", 1, 2);
    var w3 := World(w2.fs, Books(Usage(1, 2), map[]), map[]);
    assert FateOf(ATOMIC, w2, t, false) == LeftInPlace;
    assert Closed(ATOMIC, SMALL, w2, t, false) == w3;
    hide Closed;
    Closes(ATOMIC, all, 2, w2, t, false);
    OneFileOnDisk(t, 5, Files);
    OneFileOnDisk(t, 5, Bytes);
  }

  const STORED := [New("a"), WriteTo(At("a"), 0, 7, false), CloseUpload(At("a"), true)]

  lemma StoresSeven(all: seq<Step>)
    requires STORED <= all
    ensures Reached(STANDARD, all, 3, World(Fs(map[At("a") := 7], {}), Books(Usage(1, 7), map[]), map[]))
  {
    hide Reached, FolderFor, Charge;
    var a := At("a");
    assert all[0] == STORED[0] && all[1] == STORED[1] && all[2] == STORED[2];
    Opening(STANDARD, all);
    var w2 := Alone(a, UploadOf("a", 7), 7, 0);
    assert WrittenTo(Alone(a, UploadOf("a", 0), 0, 0), a, 0, 7, false) == w2;
    Writes(STANDARD, all, 1, Alone(a, UploadOf("a", 0), 0, 0), a, 0, 7);
    Charged(STANDARD, w2.books, "a", 1, 7);
    var w3 := World(w2.fs, Books(Usage(1, 7), map[]), map[]);
    assert Closed(STANDARD, SMALL, w2, a, true) == w3;
    Closes(STANDARD, all, 2, w2, a, true);
  }

  const RENAMED_TO_ITSELF := STORED + [RenameItem(["a"], ["a"], true, true)]

  lemma RenamesToItself(all: seq<Step>, k: nat, w: World)
    requires Reached(STANDARD, all, k, w) && k < |all| && all[k] == RenameItem(["a"], ["a"], true, true)
    requires w.uploads == map[] && At("a") in w.fs.files
    ensures var size: int := w.fs.files[At("a")];
            Reached(STANDARD, all, k + 1, w.(books := Books(Usage(w.books.user.files - 1, w.books.user.bytes - size), w.books.folders)))
  {
    InHome("a");
    var w' := Next(STANDARD, SMALL, w, all[k]);
    OneMore(STANDARD, all, k, w, w');
    FilePlace(w.fs, At("a"), At("a"));
    assert MoveFile(w.fs, At("a"), At("a")) == w.fs;
  }

  /** A file that is renamed to itself leaves the ledger. */
  lemma RenamedToItselfDrifts()
    ensures exists w :: Reached(STANDARD, RENAMED_TO_ITSELF, 4, w) && Off(w, -1, -7)
  {
    hide Reached, FolderFor, Charge;
    var a, all := At("a"), RENAMED_TO_ITSELF;
    StoresSeven(all);
    var w3 := World(Fs(map[a := 7], {}), Books(Usage(1, 7), map[]), map[]);
    RenamesToItself(all, 3, w3);
    OneFileOnDisk(a, 7, Files);
    OneFileOnDisk(a, 7, Bytes);
  }

  // ---------------------------------------------------------------------------------------------
  // A truncation by path

  const TRUNCATED_BY_PATH := STORED + [TruncateFile(["a"], 100, true, true)]

  lemma TruncatesPath(all: seq<Step>, k: nat, w: World, size: nat)
    requires Reached(STANDARD, all, k, w) && k < |all| && all[k] == TruncateFile(["a"], size, true, true)
    requires w.uploads == map[] && At("a") in w.fs.files
    ensures Reached(STANDARD, all, k + 1, PathTruncated(STANDARD, SMALL, w, ["a"], At("a"), size))
  {
    InHome("a");
    OneMore(STANDARD, all, k, w, Next(STANDARD, SMALL, w, all[k]));
  }

  /** A stored file is truncated to any size without a look at the limit. */
  lemma PathTruncationExceedsQuota()
    ensures Limit(SMALL, ["a"], Bytes) == 10
    ensures exists w :: Reached(STANDARD, TRUNCATED_BY_PATH, 4, w) && w.uploads == map[] && Balance(w.books, UserBook, Bytes) == 100
  {
    hide Reached, FolderFor, Charge;
    InHome("a");
    var a, all := At("a"), TRUNCATED_BY_PATH;
    StoresSeven(all);
    var w3 := World(Fs(map[a := 7], {}), Books(Usage(1, 7), map[]), map[]);
    Charged(STANDARD, w3.books, "a", 0, 93);
    TruncatesPath(all, 3, w3, 100);
  }
}

/** Delayed quota updates (dataprovider/quotaupdater.go, dataprovider/dataprovider.go).

    Updates are added to a pending table; a background flusher reads an entry, adds it to the
    provider and subtracts what it read from the pending table, while updates keep arriving. */
module QuotaUpdater {
  import opened Usages

  /** Users and folders have a table each; the key says which. */
  datatype Kind = Users | Folders

  datatype Key = Key(kind: Kind, name: string)

  type Table = map<Key, Usage>

  function Get(t: Table, key: Key, k: Measure): int {
    if key in t then Of(t[key], k) else 0
  }

  function Added(t: Table, key: Key, files: int, size: int): Usage {
    Usage(Get(t, key, Files) + files, Get(t, key, Bytes) + size)
  }

  /** quotaUpdater.updateUserQuota and updateFolderQuota: an entry that becomes (0, 0) is dropped. */
  function AddPending(t: Table, key: Key, files: int, size: int): Table {
    var obj := Added(t, key, files, size);
    if obj.files == 0 && obj.bytes == 0 then t - {key} else t[key := obj]
  }

  lemma AddPendingGet(t: Table, key: Key, files: int, size: int, key': Key, k: Measure)
    ensures Get(AddPending(t, key, files, size), key', k) == Get(t, key', k) + (if key' == key then Part(files, size, k) else 0)
  {
  }

  predicate NoEmptyEntry(t: Table) {
    forall key :: key in t ==> t[key].files != 0 || t[key].bytes != 0
  }

  // ---------------------------------------------------------------------------------------------
  // Interleavings

  /** Where the flusher is: between names, after reading an entry, or after storing it. */
  datatype Flusher =
    | Idle
    | AtNames(names: seq<Key>)
    | HasRead(key: Key, files: int, size: int, rest: seq<Key>)
    | HasStored(key: Key, files: int, size: int, rest: seq<Key>)

  datatype State = State(stored: Table, pending: Table, flusher: Flusher)

  datatype Step =
    | Update(key: Key, files: int, size: int)
    | DropPending(key: Key)
    | StoreTotal(key: Key, files: int, size: int)
    | BeginFlush(names: seq<Key>)
    | ReadEntry
    | StoreEntry(ok: bool)
    | SubtractEntry
    | EndFlush

  /** What the flusher has stored but not yet subtracted. */
  function InFlight(s: State, key: Key, k: Measure): int {
    if s.flusher.HasStored? && s.flusher.key == key then Part(s.flusher.files, s.flusher.size, k) else 0
  }

  /** Each lock-protected call is one step; calls of the flusher happen in its own order.  A reset is
      two steps: the pending entry is dropped, then the provider stores the total. */
  predicate Enabled(s: State, step: Step) {
    match step
    case Update(_, _, _) => true
    case DropPending(_) => true
    case StoreTotal(key, _, _) => key in s.stored
    case BeginFlush(_) => s.flusher.Idle?
    case ReadEntry => s.flusher.AtNames? && s.flusher.names != []
    case StoreEntry(ok) => s.flusher.HasRead? && (ok ==> s.flusher.key in s.stored)
    case SubtractEntry => s.flusher.HasStored?
    case EndFlush => s.flusher.AtNames? && s.flusher.names == []
  }

  function Next(s: State, step: Step): State
    requires Enabled(s, step)
  {
    match step
    case Update(key, files, size) => s.(pending := AddPending(s.pending, key, files, size))
    case DropPending(key) => s.(pending := s.pending - {key})
    case StoreTotal(key, files, size) => s.(stored := s.stored[key := Usage(files, size)])
    case BeginFlush(names) => s.(flusher := AtNames(names))
    case ReadEntry =>
      var key, rest := s.flusher.names[0], s.flusher.names[1..];
      var files, size := Get(s.pending, key, Files), Get(s.pending, key, Bytes);
      s.(flusher := if size != 0 || files != 0 then HasRead(key, files, size, rest) else AtNames(rest))
    case StoreEntry(ok) =>
      var f := s.flusher;
      if ok then State(s.stored[f.key := Added(s.stored, f.key, f.files, f.size)], s.pending, HasStored(f.key, f.files, f.size, f.rest))
      else s.(flusher := AtNames(f.rest))
    case SubtractEntry =>
      var f := s.flusher;
      s.(pending := AddPending(s.pending, f.key, -f.files, -f.size), flusher := AtNames(f.rest))
    case EndFlush => s.(flusher := Idle)
  }

  predicate AllEnabled(s: State, steps: seq<Step>)
    decreases |steps|
  {
    steps != [] ==> Enabled(s, steps[0]) && AllEnabled(Next(s, steps[0]), steps[1..])
  }

  function Run(s: State, steps: seq<Step>): State
    requires AllEnabled(s, steps)
    decreases |steps|
  {
    if steps == [] then s else Run(Next(s, steps[0]), steps[1..])
  }

  function ImmediateStep(base: int, step: Step, key: Key, k: Measure): int {
    match step
    case Update(key', files, size) => if key' == key then base + Part(files, size, k) else base
    case StoreTotal(key', files, size) => if key' == key then Part(files, size, k) else base
    case _ => base
  }

  /** The value an entry would have if every update reached the provider at once: what it was, or
      the total it was last reset to, plus every later update. */
  function Immediate(base: int, steps: seq<Step>, key: Key, k: Measure): int
    decreases |steps|
  {
    if steps == [] then base else Immediate(ImmediateStep(base, steps[0], key, k), steps[1..], key, k)
  }

  /** How far one step takes an entry from that value.  Dropping a pending entry loses it; a total
      that is stored leaves what is pending by then, less what is in flight and will still be
      subtracted from the pending table. */
  function SkewAfter(s: State, skew: int, step: Step, key: Key, k: Measure): int {
    match step
    case DropPending(key') => if key' == key then skew - Get(s.pending, key, k) else skew
    case StoreTotal(key', _, _) => if key' == key then Get(s.pending, key, k) - InFlight(s, key, k) else skew
    case _ => skew
  }

  function Skew(s: State, skew: int, steps: seq<Step>, key: Key, k: Measure): int
    requires AllEnabled(s, steps)
    decreases |steps|
  {
    if steps == [] then skew else Skew(Next(s, steps[0]), SkewAfter(s, skew, steps[0], key, k), steps[1..], key, k)
  }

  function Held(s: State, key: Key, k: Measure): int {
    Get(s.stored, key, k) + Get(s.pending, key, k) - InFlight(s, key, k)
  }

  lemma StepHolds(s: State, step: Step, base: int, skew: int, key: Key, k: Measure)
    requires Enabled(s, step) && Held(s, key, k) == base + skew
    ensures Held(Next(s, step), key, k) ==
            ImmediateStep(base, step, key, k) + SkewAfter(s, skew, step, key, k)
  {
    match step
    case Update(key', files, size) => AddPendingGet(s.pending, key', files, size, key, k);
    case SubtractEntry => AddPendingGet(s.pending, s.flusher.key, -s.flusher.files, -s.flusher.size, key, k);
    case _ =>
  }

  lemma {:induction false} RunHolds(s: State, steps: seq<Step>, base: int, skew: int, key: Key, k: Measure)
    requires AllEnabled(s, steps) && Held(s, key, k) == base + skew
    ensures Held(Run(s, steps), key, k) == Immediate(base, steps, key, k) + Skew(s, skew, steps, key, k)
    decreases |steps|
  {
    if steps != [] {
      var step := steps[0];
      StepHolds(s, step, base, skew, key, k);
      var base' := ImmediateStep(base, step, key, k);
      RunHolds(Next(s, step), steps[1..], base', SkewAfter(s, skew, step, key, k), key, k);
    }
  }

  /** No delta is lost or counted twice: in every interleaving of updates, resets and flusher steps,
      with provider failures at any point, stored plus pending minus in-flight is the sum of all
      updates since the last reset, up to the skew. */
  lemma NothingLostOrDoubled(stored: Table, steps: seq<Step>, key: Key, k: Measure)
    requires AllEnabled(State(stored, map[], Idle), steps)
    ensures var s := Run(State(stored, map[], Idle), steps);
            Get(s.stored, key, k) + Get(s.pending, key, k) - InFlight(s, key, k) ==
            Immediate(Get(stored, key, k), steps, key, k) + Skew(State(stored, map[], Idle), 0, steps, key, k)
  {
    RunHolds(State(stored, map[], Idle), steps, Get(stored, key, k), 0, key, k);
  }

  /** Resets of the entry are whole and undisturbed: between its halves nothing is added to the entry
      and no flush has it in flight. */
  predicate CleanResets(s: State, steps: seq<Step>, key: Key, halfway: bool)
    requires AllEnabled(s, steps)
    decreases |steps|
  {
    if steps == [] then !halfway
    else if steps[0] == DropPending(key) then CleanResets(Next(s, steps[0]), steps[1..], key, true)
    else if steps[0].StoreTotal? && steps[0].key == key then
      && halfway && key !in s.pending && !(s.flusher.HasStored? && s.flusher.key == key)
      && CleanResets(Next(s, steps[0]), steps[1..], key, false)
    else CleanResets(Next(s, steps[0]), steps[1..], key, halfway)
  }

  lemma {:induction false} CleanResetsNoSkew(s: State, skew: int, steps: seq<Step>, key: Key, halfway: bool, k: Measure)
    requires AllEnabled(s, steps) && CleanResets(s, steps, key, halfway) && (halfway || skew == 0)
    ensures Skew(s, skew, steps, key, k) == 0
    decreases |steps|
  {
    if steps != [] {
      var now := if steps[0] == DropPending(key) then true
                 else if steps[0].StoreTotal? && steps[0].key == key then false else halfway;
      CleanResetsNoSkew(Next(s, steps[0]), SkewAfter(s, skew, steps[0], key, k), steps[1..], key, now, k);
    }
  }

  /** The used quota of an entry: what is stored and what is pending. */
  function UsedQuota(stored: Table, pending: Table, key: Key, k: Measure): int {
    Get(stored, key, k) + Get(pending, key, k)
  }

  /** dataprovider.GetUsedQuota, read at once. */
  function GetUsedQuota(s: State, key: Key, k: Measure): int {
    UsedQuota(s.stored, s.pending, key, k)
  }

  /** Delayed mode refines immediate mode: outside the window of an entry, the used quota reported
      for it is the one immediate updates would give; inside, what is in flight is reported twice. */
  lemma DelayedRefinesImmediate(stored: Table, steps: seq<Step>, key: Key, k: Measure)
    requires AllEnabled(State(stored, map[], Idle), steps) && CleanResets(State(stored, map[], Idle), steps, key, false)
    ensures var s := Run(State(stored, map[], Idle), steps);
            && GetUsedQuota(s, key, k) == Immediate(Get(stored, key, k), steps, key, k) + InFlight(s, key, k)
            && (!(s.flusher.HasStored? && s.flusher.key == key) ==>
                  GetUsedQuota(s, key, k) == Immediate(Get(stored, key, k), steps, key, k))
  {
    NothingLostOrDoubled(stored, steps, key, k);
    CleanResetsNoSkew(State(stored, map[], Idle), 0, steps, key, false, k);
  }

  lemma RunFirst(s: State, a: Step, rest: seq<Step>)
    requires Enabled(s, a) && AllEnabled(Next(s, a), rest)
    ensures AllEnabled(s, [a] + rest) && Run(s, [a] + rest) == Run(Next(s, a), rest)
  {
  }

  /** A run that stores an amount of ten without subtracting it yet. */
  function Flushing(key: Key): seq<Step> {
    [Update(key, 1, 10), BeginFlush([key]), ReadEntry, StoreEntry(true)]
  }

  function NewEntry(key: Key): State {
    State(map[key := Usage(0, 0)], map[], Idle)
  }

  lemma FlushingLeads(key: Key)
    ensures AllEnabled(NewEntry(key), Flushing(key))
    ensures Run(NewEntry(key), Flushing(key)) ==
            State(map[key := Usage(1, 10)], map[key := Usage(1, 10)], HasStored(key, 1, 10, []))
    ensures Immediate(0, Flushing(key), key, Bytes) == 10
  {
    var s0 := NewEntry(key);
    var s1 := Next(s0, Update(key, 1, 10));
    var s2 := Next(s1, BeginFlush([key]));
    var s3 := Next(s2, ReadEntry);
    assert s1.pending == map[key := Usage(1, 10)] && [key][1..] == [];
    assert Next(s3, StoreEntry(true)).stored == map[key := Usage(1, 10)];
    var t3: seq<Step> := [StoreEntry(true)];
    var t2 := [ReadEntry] + t3;
    var t1 := [BeginFlush([key])] + t2;
    RunFirst(s3, StoreEntry(true), []);
    assert t3 == [StoreEntry(true)] + [];
    RunFirst(s2, ReadEntry, t3);
    RunFirst(s1, BeginFlush([key]), t2);
    RunFirst(s0, Update(key, 1, 10), t1);
    assert [Update(key, 1, 10)] + t1 == Flushing(key);
    assert Flushing(key)[1..] == t1 && t1[1..] == t2 && t2[1..] == t3 && t3[1..] == [];
    assert Immediate(10, t3, key, Bytes) == 10;
    assert Immediate(10, t1, key, Bytes) == Immediate(10, t2, key, Bytes) == 10;
  }

  /** A failing case: inside the window the used quota counts what is in flight twice. */
  lemma InFlightCountedTwice(key: Key)
    ensures AllEnabled(NewEntry(key), Flushing(key))
    ensures GetUsedQuota(Run(NewEntry(key), Flushing(key)), key, Bytes) == 20
    ensures Immediate(0, Flushing(key), key, Bytes) == 10
  {
    FlushingLeads(key);
  }

  /** A failing case: a reset inside the window is not harmless, what was in flight is missing
      afterwards. */
  lemma ResetInWindowLoses(key: Key)
    ensures AllEnabled(NewEntry(key), Flushing(key))
    ensures var s := Run(NewEntry(key), Flushing(key));
            var steps := [DropPending(key), StoreTotal(key, 5, 50), SubtractEntry];
            && AllEnabled(s, steps) && !Run(s, steps).flusher.HasStored?
            && GetUsedQuota(Run(s, steps), key, Bytes) == 40 && Immediate(10, steps, key, Bytes) == 50
  {
    FlushingLeads(key);
    var s := Run(NewEntry(key), Flushing(key));
    var s1 := Next(s, DropPending(key));
    var s2 := Next(s1, StoreTotal(key, 5, 50));
    var t2: seq<Step> := [SubtractEntry];
    var t1 := [StoreTotal(key, 5, 50)] + t2;
    RunFirst(s2, SubtractEntry, []);
    assert t2 == [SubtractEntry] + [];
    RunFirst(s1, StoreTotal(key, 5, 50), t2);
    RunFirst(s, DropPending(key), t1);
    var steps := [DropPending(key), StoreTotal(key, 5, 50), SubtractEntry];
    assert [DropPending(key)] + t1 == steps;
    assert steps[1..] == t1 && t1[1..] == t2 && t2[1..] == [];
    assert Immediate(50, t2, key, Bytes) == 50;
  }

  // ---------------------------------------------------------------------------------------------
  // Calls in two halves

  predicate NoResets(steps: seq<Step>, key: Key) {
    forall i :: 0 <= i < |steps| ==> steps[i] != DropPending(key) && !(steps[i].StoreTotal? && steps[i].key == key)
  }

  /** What flushes add to the stored amount of an entry in a run, and what they take from the pending
      one. */
  function StoredOver(s: State, steps: seq<Step>, key: Key, k: Measure): int
    requires AllEnabled(s, steps)
    decreases |steps|
  {
    if steps == [] then 0 else
      (if steps[0] == StoreEntry(true) && s.flusher.key == key then Part(s.flusher.files, s.flusher.size, k) else 0)
      + StoredOver(Next(s, steps[0]), steps[1..], key, k)
  }

  function SubtractedOver(s: State, steps: seq<Step>, key: Key, k: Measure): int
    requires AllEnabled(s, steps)
    decreases |steps|
  {
    if steps == [] then 0 else
      (if steps[0].SubtractEntry? && s.flusher.key == key then Part(s.flusher.files, s.flusher.size, k) else 0)
      + SubtractedOver(Next(s, steps[0]), steps[1..], key, k)
  }

  lemma StepParts(s: State, step: Step, key: Key, k: Measure)
    requires Enabled(s, step) && NoResets([step], key)
    ensures Get(Next(s, step).stored, key, k) == Get(s.stored, key, k) + StoredOver(s, [step], key, k)
    ensures Get(Next(s, step).pending, key, k) ==
            Get(s.pending, key, k) + ImmediateStep(0, step, key, k) - SubtractedOver(s, [step], key, k)
  {
    assert [step][0] == step && [step][1..] == [];
    match step
    case Update(key', files, size) => AddPendingGet(s.pending, key', files, size, key, k);
    case SubtractEntry => AddPendingGet(s.pending, s.flusher.key, -s.flusher.files, -s.flusher.size, key, k);
    case _ =>
  }

  lemma {:induction false} ImmediateShifts(base: int, steps: seq<Step>, key: Key, k: Measure)
    requires NoResets(steps, key)
    ensures Immediate(base, steps, key, k) == base + Immediate(0, steps, key, k)
    decreases |steps|
  {
    if steps != [] {
      var first := ImmediateStep(0, steps[0], key, k);
      ImmediateShifts(base + first, steps[1..], key, k);
      ImmediateShifts(first, steps[1..], key, k);
    }
  }

  /** Without resets the two tables move by the updates and by what is flushed from one to the other. */
  lemma {:induction false} PartsOverRun(s: State, steps: seq<Step>, key: Key, k: Measure)
    requires AllEnabled(s, steps) && NoResets(steps, key)
    ensures Get(Run(s, steps).stored, key, k) == Get(s.stored, key, k) + StoredOver(s, steps, key, k)
    ensures Get(Run(s, steps).pending, key, k) ==
            Get(s.pending, key, k) + Immediate(0, steps, key, k) - SubtractedOver(s, steps, key, k)
    decreases |steps|
  {
    if steps != [] {
      StepParts(s, steps[0], key, k);
      PartsOverRun(Next(s, steps[0]), steps[1..], key, k);
      ImmediateShifts(ImmediateStep(0, steps[0], key, k), steps[1..], key, k);
    }
  }

  /** What a reader sees that reads the stored amount before, and the pending one after, the steps in
      between. */
  function SeenAcross(s: State, between: seq<Step>, key: Key, k: Measure): int
    requires AllEnabled(s, between)
  {
    Get(s.stored, key, k) + Get(Run(s, between).pending, key, k)
  }

  /** GetUsedQuota as the two reads it is: it misses what was stored between them and counts what is
      in flight at the end, so it is right if and only if these are the same. */
  lemma SplitRead(s: State, between: seq<Step>, base: int, key: Key, k: Measure)
    requires AllEnabled(s, between) && NoResets(between, key) && Held(s, key, k) == base
    ensures SeenAcross(s, between, key, k) ==
            Immediate(base, between, key, k) + InFlight(Run(s, between), key, k) - StoredOver(s, between, key, k)
    ensures SeenAcross(s, between, key, k) == Immediate(base, between, key, k) <==>
            StoredOver(s, between, key, k) == InFlight(Run(s, between), key, k)
  {
    PartsOverRun(s, between, key, k);
    RunHolds(s, between, base, 0, key, k);
    NoResetsNoSkew(s, between, key, k);
  }

  lemma {:induction false} NoResetsNoSkew(s: State, steps: seq<Step>, key: Key, k: Measure)
    requires AllEnabled(s, steps) && NoResets(steps, key)
    ensures Skew(s, 0, steps, key, k) == 0
    decreases |steps|
  {
    if steps != [] { NoResetsNoSkew(Next(s, steps[0]), steps[1..], key, k); }
  }

  /** A reader that is overtaken by the whole flush of an entry misses that entry. */
  lemma OvertakenReader(s: State, key: Key, k: Measure)
    requires s.flusher == AtNames([key]) && key in s.stored && key in s.pending && NoEmptyEntry(s.pending)
    ensures var between := [ReadEntry, StoreEntry(true), SubtractEntry];
            && AllEnabled(s, between) && SeenAcross(s, between, key, k) == Get(s.stored, key, k)
            && Immediate(Held(s, key, k), between, key, k) == Get(s.stored, key, k) + Get(s.pending, key, k)
  {
    var s1 := Next(s, ReadEntry);
    var s2 := Next(s1, StoreEntry(true));
    var t2: seq<Step> := [SubtractEntry];
    var t1 := [StoreEntry(true)] + t2;
    var between := [ReadEntry, StoreEntry(true), SubtractEntry];
    RunFirst(s2, SubtractEntry, []);
    assert t2 == [SubtractEntry] + [];
    RunFirst(s1, StoreEntry(true), t2);
    RunFirst(s, ReadEntry, t1);
    assert [ReadEntry] + t1 == between;
    AddPendingGet(s2.pending, key, -s2.flusher.files, -s2.flusher.size, key, k);
    assert between[1..] == t1 && t1[1..] == t2 && t2[1..] == [];
    assert Immediate(Held(s, key, k), t2, key, k) == Held(s, key, k);
  }

  /** A failing case: such a reader sees another amount of files or bytes than there is. */
  lemma FlushBetweenReads(s: State, key: Key)
    requires s.flusher == AtNames([key]) && key in s.stored && key in s.pending && NoEmptyEntry(s.pending)
    ensures var between := [ReadEntry, StoreEntry(true), SubtractEntry];
            && AllEnabled(s, between)
            && exists k :: SeenAcross(s, between, key, k) != Immediate(Held(s, key, k), between, key, k)
  {
    OvertakenReader(s, key, Files);
    OvertakenReader(s, key, Bytes);
  }

  /** A reset as the two calls it is: afterwards the used quota is the total, plus every update that
      came between the halves, less what flushes subtracted between them. */
  lemma SplitReset(s: State, between: seq<Step>, key: Key, files: int, size: int, k: Measure)
    requires AllEnabled(Next(s, DropPending(key)), between) && NoResets(between, key)
    requires key in Run(Next(s, DropPending(key)), between).stored
    ensures var halfway := Run(Next(s, DropPending(key)), between);
            GetUsedQuota(Next(halfway, StoreTotal(key, files, size)), key, k) ==
            Part(files, size, k) + Immediate(0, between, key, k) - SubtractedOver(Next(s, DropPending(key)), between, key, k)
  {
    PartsOverRun(Next(s, DropPending(key)), between, key, k);
  }

  lemma {:induction false} PendingNeverEmpty(s: State, steps: seq<Step>)
    requires AllEnabled(s, steps) && NoEmptyEntry(s.pending)
    ensures NoEmptyEntry(Run(s, steps).pending)
    decreases |steps|
  {
    if steps != [] {
      PendingNeverEmpty(Next(s, steps[0]), steps[1..]);
    }
  }

  // ---------------------------------------------------------------------------------------------
  // The updater itself

  /** Names that the provider will refuse to update, because they are gone or the update fails. */
  type Refused = set<Key>

  /** The pending tables and the provider behind them. */
  class Updater {
    var pending: Table
    var stored: Table

    ghost predicate Valid()
      reads this
    {
      NoEmptyEntry(pending)
    }

    method UpdateQuota(key: Key, files: int, size: int)
      requires Valid()
      modifies this`pending
      ensures Valid() && pending == AddPending(old(pending), key, files, size)
    {
      var files', size' := files, size;
      if key in pending {
        files', size' := pending[key].files + files, pending[key].bytes + size;
      }
      if files' == 0 && size' == 0 {
        pending := pending - {key};
        return;
      }
      pending := pending[key := Usage(files', size')];
    }

    method GetPendingQuota(key: Key) returns (files: int, size: int)
      ensures files == Get(pending, key, Files) && size == Get(pending, key, Bytes)
    {
      files, size := 0, 0;
      if key in pending {
        files, size := pending[key].files, pending[key].bytes;
      }
    }

    method GetNames(kind: Kind) returns (names: seq<Key>)
      ensures forall key :: key in names <==> key in pending && key.kind == kind
    {
      names := [];
      var rest := pending.Keys;
      while rest != {}
        invariant rest <= pending.Keys
        invariant forall key :: key in names <==> key in pending && key.kind == kind && key !in rest
      {
        var key :| key in rest;
        rest := rest - {key};
        if key.kind == kind {
          names := names + [key];
        }
      }
    }

    /** provider.updateQuota without reset. */
    method StoreInProvider(key: Key, files: int, size: int, refused: Refused) returns (ok: bool)
      modifies this`stored
      ensures ok <==> key in old(stored) && key !in refused
      ensures stored == if ok then old(stored)[key := Added(old(stored), key, files, size)] else old(stored)
    {
      ok := key in stored && key !in refused;
      if ok {
        stored := stored[key := Usage(stored[key].files + files, stored[key].bytes + size)];
      }
    }

    /** dataprovider.UpdateUserQuota and UpdateVirtualFolderQuota: in either mode the used quota of an
        existing entry grows by the given amounts, or becomes them on a reset, unless quotas are not
        tracked or, for a user, tracked only under restrictions; no other entry changes. */
    method UpdateUsed(trackQuota: int, restricted: bool, delayed: bool, key: Key, files: int, size: int, reset: bool)
      requires Valid() && key in stored
      modifies this
      ensures Valid() && stored.Keys == old(stored).Keys
      ensures var ignored := trackQuota == 0 || (trackQuota == 2 && key.kind.Users? && !reset && !restricted);
              forall k :: UsedQuota(stored, pending, key, k) ==
                if !ignored && reset then Part(files, size, k)
                else old(UsedQuota(stored, pending, key, k)) + if ignored then 0 else Part(files, size, k)
      ensures forall key', k :: key' != key ==> UsedQuota(stored, pending, key', k) == old(UsedQuota(stored, pending, key', k))
      ensures delayed && !reset ==> stored == old(stored)
      ensures !delayed && !reset ==> pending == old(pending)
      ensures trackQuota != 0 && reset ==> key !in pending
    {
      if trackQuota == 0 {
        return;
      } else if key.kind.Users? && trackQuota == 2 && !reset && !restricted {
        return;
      }
      if files == 0 && size == 0 && !reset {
        return;
      }
      if reset {
        pending := pending - {key};
        stored := stored[key := Usage(files, size)];
      } else if !delayed {
        var _ := StoreInProvider(key, files, size, {});
      } else {
        forall key', k: Measure
          ensures Get(AddPending(pending, key, files, size), key', k) == Get(pending, key', k) + (if key' == key then Part(files, size, k) else 0)
        {
          AddPendingGet(pending, key, files, size, key', k);
        }
        UpdateQuota(key, files, size);
      }
    }

    /** storeUsersQuota and storeFoldersQuota with no update arriving meanwhile: the used quota of
        every entry stays the same, every entry of the table that the provider takes is flushed
        and nothing but refused entries stays pending. */
    method StoreQuota(kind: Kind, refused: Refused)
      requires Valid()
      modifies this
      ensures Valid()
      ensures forall key, k :: Get(stored, key, k) + Get(pending, key, k) == Get(old(stored), key, k) + Get(old(pending), key, k)
      ensures forall key :: key in pending <==> key in old(pending) && (key.kind == kind ==> key !in old(stored) || key in refused)
      ensures stored.Keys == old(stored).Keys
    {
      var names := GetNames(kind);
      for i := 0 to |names|
        invariant Valid() && stored.Keys == old(stored).Keys
        invariant forall key, k :: Get(stored, key, k) + Get(pending, key, k) == Get(old(stored), key, k) + Get(old(pending), key, k)
        invariant forall key :: key in pending <==>
                    key in old(pending) && (key in names[..i] ==> key !in old(stored) || key in refused)
        invariant forall key :: key in pending ==> pending[key] == old(pending)[key]
      {
        var key := names[i];
        var files, size := GetPendingQuota(key);
        if size != 0 || files != 0 {
          ghost var before, was := stored, pending;
          var ok := StoreInProvider(key, files, size, refused);
          if !ok {
            continue;
          }
          UpdateQuota(key, -files, -size);
          assert pending == was - {key};
          forall key', k: Measure
            ensures Get(stored, key', k) + Get(pending, key', k) == Get(before, key', k) + Get(was, key', k)
          {
            AddPendingGet(was, key, -files, -size, key', k);
          }
        }
      }
    }
  }
}

/**
 Whole runs of the engine: any sequence of steps from a new database, crashes and reopens
 included. The engine refines a plain map to which groups of operations are applied one
 after the other.
 */
module EngineRuns {
  import opened InternalKeys
  import opened Versions
  import opened LevelShape
  import opened VersionBuilder
  import opened Compaction
  import opened CompactionMeaning
  import opened Batches
  import opened EngineState
  import opened EngineInvariant
  import opened EngineInstall
  import opened EngineReads
  import opened EngineRecovery

  datatype Step =
    | Append(ops: seq<Op>)
    | Insert
    | Commit
    | Switch
    | WriteTable(table: Option<File>)
    | Log(change: Change)
    | Finish
    | Start(inputs: Inputs, merged: seq<Entry>)
    | Open
    | Close(file: File)
    | GiveUp
    | Take
    | Release(index: nat)
    | Hold
    | Drop(version: Version)
    | Collect
    | Crash(hi: nat, chunks: seq<seq<Batch>>, files: Level, newLog: nat)

  ghost predicate Does(s: State, step: Step, s': State)
  {
    match step
    case Append(ops) => AppendLog(s, s', ops)
    case Insert => InsertNext(s, s')
    case Commit => Publish(s, s')
    case Switch => SwitchMemtable(s, s')
    case WriteTable(table) => BuildFlush(s, s', table)
    case Log(change) => LogChange(s, s', change)
    case Finish => Install(s, s')
    case Start(c, merged) => StartCompaction(s, s', c, merged)
    case Open => OpenOutput(s, s')
    case Close(file) => FinishOutput(s, s', file)
    case GiveUp => AbandonCompaction(s, s')
    case Take => TakeSnapshot(s, s')
    case Release(i) => ReleaseSnapshot(s, s', i)
    case Hold => HoldVersion(s, s')
    case Drop(v) => DropVersion(s, s', v)
    case Collect => DeleteObsolete(s, s')
    case Crash(hi, chunks, files, newLog) => CrashAndOpen(s, s', hi, chunks, files, newLog)
  }

  // ------------------------------------------------------------------
  // A new database.

  /** What `NewDB` leaves on disk: one manifest record. */
  const FreshDisk := Disk(map[], map[], [Record(Edit({}, []), Counters(Some(0), Some(2), Some(0)))])

  /** `DB::Open` on a fresh disk: the manifest takes number 2, the first log number 3. */
  ghost predicate Init(s: State)
  {
    ValidEdits(Edits(FreshDisk.manifest)) && s == Opened(FreshDisk, [], 3, 0)
  }

  lemma {:induction false} EmptyIsGood()
    ensures WellFormed(EmptyVersion) && Contents(EmptyVersion) == iset{} && AllFiles(EmptyVersion) == {}
  {
    assert forall l :: 0 <= l < |EmptyVersion| ==> EmptyVersion[l] == [];
    forall e
      ensures !InVersion(EmptyVersion, e)
    {
    }
  }

  lemma {:induction false} FreshManifest()
    ensures ValidEdits(Edits(FreshDisk.manifest)) && ManifestVersion(FreshDisk) == EmptyVersion
  {
    EmptyIsGood();
    NoChange(EmptyVersion);
    FirstRecord(EmptyVersion, FreshDisk.manifest[0]);
    ReplayMatches(Edits(FreshDisk.manifest), {});
  }

  lemma {:induction false} InitFields(s: State)
    requires Init(s)
    ensures s.current == EmptyVersion && s.universe == {} && s.lastSequence == 0 && s.disk.logs == map[3 := []]
    ensures ManifestInv(s.disk.manifest, {}, EmptyVersion)
    ensures FinalCounters(s.disk.manifest) == Counters(Some(3), Some(4), Some(0))
  {
    hide ManifestVersion, WellFormed, ApplyOne, ManifestInv, FinalCounters, SnapshotEdit;
    FreshManifest();
    EmptyIsGood();
    NoChange(EmptyVersion);
    assert AddAll(0, []) == [];
    var r := s.disk.manifest[1];
    assert (set f: File | f in []) == {};
    NewManifest(EmptyVersion, [], r.counters);
    CountersSnoc(s.disk.manifest[..1], r);
    assert s.disk.manifest[..1] + [r] == s.disk.manifest;
  }

  lemma {:induction false} EmptyHoldsNothing(tables: Tables)
    ensures VersionInv(EmptyVersion, 4, 0) && NumbersInv({}, 4, EmptyVersion, None, None, None, {})
    ensures AllStored(tables, EmptyVersion) && NumbersBelow(EmptyVersion, 4)
  {
    EmptyIsGood();
    hide WellFormed;
    assert forall l, f :: !InLevel(EmptyVersion, l, f);
    forall e
      ensures !InVersion(EmptyVersion, e)
    {
      assert e !in Contents(EmptyVersion);
    }
  }

  lemma {:induction false} InitKeepsInv(s: State)
    requires Init(s)
    ensures Inv(s) && View(Everything(s), s.lastSequence) == Pairs(map[])
  {
    hide ManifestVersion, WellFormed, ApplyOne, ManifestInv, FinalCounters, SnapshotEdit, VersionInv, NumbersInv,
      CompactionInv, FlushInv, InstallInv, HeldInv, AllStored, NumbersBelow, Edits;
    InitFields(s);
    EmptyIsGood();
    EmptyHoldsNothing(s.disk.tables);
    OpenIdle(s.current, 0, 4, s.disk.tables, 0, s.universe);
    assert LogEntries([]) == iset{};
    assert Everything(s) == iset{};
  }

  // ------------------------------------------------------------------
  // Every step keeps the invariant.

  lemma {:induction false} StepKeepsInv(s: State, step: Step, s': State)
    requires Inv(s) && Does(s, step, s')
    ensures Inv(s')
  {
    hide Inv, Opened;
    match step
    case Append(ops) => AppendLogKeepsInv(s, s', ops);
    case Insert => InsertNextKeepsInv(s, s');
    case Commit => PublishKeepsInv(s, s');
    case Switch => SwitchKeepsInv(s, s');
    case WriteTable(table) => BuildFlushKeepsInv(s, s', table);
    case Log(change) => LogChangeKeepsInv(s, s', change);
    case Finish => InstallKeepsInv(s, s');
    case Start(c, merged) => StartCompactionKeepsInv(s, s', c, merged);
    case Open => OpenOutputKeepsInv(s, s');
    case Close(file) => FinishOutputKeepsInv(s, s', file);
    case GiveUp => AbandonKeepsInv(s, s');
    case Take => TakeSnapshotKeepsInv(s, s');
    case Release(i) => ReleaseSnapshotKeepsInv(s, s', i);
    case Hold => HoldVersionKeepsInv(s, s');
    case Drop(v) => DropVersionKeepsInv(s, s', v);
    case Collect => DeleteObsoleteKeepsInv(s, s');
    case Crash(hi, chunks, files, newLog) => CrashKeepsInv(s, s', hi, chunks, files, newLog);
  }

  lemma {:induction false} CrashKeepsInv(s: State, s': State, hi: nat, chunks: seq<seq<Batch>>, files: Level,
                                         newLog: nat)
    requires Inv(s) && CrashAndOpen(s, s', hi, chunks, files, newLog)
    ensures Inv(s')
  {
    hide Inv, Opened, Recoverable, TablesOf, Everything, View;
    FinishedIsGood(s);
    OpenQuiet(Finished(s), s', hi, chunks, files, newLog);
  }

  // ------------------------------------------------------------------
  // Every step keeps what readers see.

  /** No step but a crash changes what is read at a live snapshot or at the last sequence number. */
  lemma {:induction false} StepKeepsReads(s: State, step: Step, s': State, q: nat)
    requires Inv(s) && Does(s, step, s') && Readable(s, q) && !step.Crash?
    ensures View(Everything(s'), q) == View(Everything(s), q)
  {
    hide Inv, View, Contents, LegalInputs, MergedInput, WellCut, Kept, Concat, Justified, ApplyOne, Readable;
    ReadableIsCovered(s, q);
    match step
    case Insert => InsertIsInvisible(s, s', q);
    case Finish => InstallIsInvisible(s, s', q);
    case Switch => assert Everything(s') == Everything(s);
    case _ =>
  }

  /** The operations a step makes part of the database. */
  function Committed(s: State, step: Step): seq<Op>
  {
    if (step.Commit? || step.Crash?) && s.writing.Some? then s.writing.value.batch.ops else []
  }

  lemma {:induction false} StepAppliesGroup(s: State, step: Step, s': State, m: Map)
    requires Inv(s) && Does(s, step, s') && View(Everything(s), s.lastSequence) == Pairs(m)
    ensures View(Everything(s'), s'.lastSequence) == Pairs(ApplyOps(m, Committed(s, step), |Committed(s, step)|))
  {
    hide Inv, View, Everything, LegalInputs, MergedInput, WellCut, Kept, Concat, Justified, ApplyOne, Pairs;
    match step
    case Commit => PublishAppliesGroup(s, s', m);
    case Crash(hi, chunks, files, newLog) => RecoveryEquivalence(s, s', hi, chunks, files, newLog, m);
    case _ => StepKeepsReads(s, step, s', s.lastSequence);
  }

  // ------------------------------------------------------------------
  // Runs.

  ghost predicate Run(states: seq<State>, steps: seq<Step>)
  {
    && |states| == |steps| + 1
    && Init(states[0])
    && forall i :: 0 <= i < |steps| ==> Does(states[i], steps[i], states[i + 1])
  }

  /** The plain map after `n` steps: the groups committed so far, applied in turn. */
  function Model(states: seq<State>, steps: seq<Step>, n: nat): Map
    requires |states| == |steps| + 1 && n <= |steps|
  {
    if n == 0 then map[] else
      var ops := Committed(states[n - 1], steps[n - 1]);
      ApplyOps(Model(states, steps, n - 1), ops, |ops|)
  }

  /** The engine refines the plain map, whatever it does in the background and however often it crashes. */
  lemma {:induction false} RunRefinesMap(states: seq<State>, steps: seq<Step>, n: nat)
    requires Run(states, steps) && n <= |steps|
    ensures Inv(states[n])
    ensures View(Everything(states[n]), states[n].lastSequence) == Pairs(Model(states, steps, n))
  {
    hide Inv, Does, Init, View, Everything, Pairs;
    if n == 0 {
      InitKeepsInv(states[0]);
    } else {
      RunRefinesMap(states, steps, n - 1);
      assert Does(states[n - 1], steps[n - 1], states[n]);
      StepKeepsInv(states[n - 1], steps[n - 1], states[n]);
      StepAppliesGroup(states[n - 1], steps[n - 1], states[n], Model(states, steps, n - 1));
    }
  }

  /** Every file that the current version, a reader or a compaction uses is on disk. */
  lemma {:induction false} NothingInUseIsDeleted(states: seq<State>, steps: seq<Step>, n: nat, v: Version)
    requires Run(states, steps) && n <= |steps|
    requires var s := states[n];
      v == s.current || v in s.held || (s.compaction.Some? && v == s.compaction.value.base)
    ensures AllStored(states[n].disk.tables, v)
  {
    RunRefinesMap(states, steps, n);
    hide VersionInv, SnapshotInv, MemInv, ImmInv, FlushInv, NumbersInv, InstallInv, ManifestInv, CountersInv,
      AllStored, LegalWork, Grown, Run, View, Everything, Pairs;
  }

  /** In no reachable state does a flushed file stand in the way of a compaction whose inputs leave no gap. */
  lemma {:induction false} GaplessHasRoom(states: seq<State>, steps: seq<Step>, n: nat)
    requires Run(states, steps) && n <= |steps| && states[n].compaction.Some?
    requires NoGap(states[n].compaction.value.inputs)
    ensures var s := states[n]; var w := s.compaction.value;
      Taken(s.current, w.inputs) && RoomFor(s.current, w.inputs, ToWrite(w))
  {
    RunRefinesMap(states, steps, n);
    hide SnapshotInv, MemInv, ImmInv, FlushInv, NumbersInv, InstallInv, ManifestInv, CountersInv, HeldInv,
      AllStored, Grown, Run, View, Everything, Pairs, RoomFor, Kept, LegalInputs, OlderClosed, NoValueUnderMarker, NoGap;
    var w := states[n].compaction.value;
    BesidesIsRoom(w.base, states[n].current, w.inputs, w.merged, w.smallest);
  }

  // ------------------------------------------------------------------
  // Reading.

  /** The sorted run `es` lists the entries of a memtable. */
  ghost predicate Lists(es: seq<Entry>, mem: iset<Entry>)
  {
    Sorted(es) && SetOf(es) == mem
  }

  ghost predicate NoCrash(steps: seq<Step>, i: nat, j: nat)
  {
    i <= j <= |steps| && forall n :: i <= n < j ==> !steps[n].Crash?
  }

  /** What the memtable that was current in state `i` holds by state `j`: once switched out it does not change. */
  ghost function MemtableAt(states: seq<State>, steps: seq<Step>, i: nat, j: nat): iset<Entry>
    requires |states| == |steps| + 1 && i <= j <= |steps|
    decreases j - i
  {
    if i == j || steps[i].Switch? then states[i].mem else MemtableAt(states, steps, i + 1, j)
  }

  /** One step adds to the memtable only entries above the last sequence number. */
  lemma {:induction false} StepGrowsMemtable(s: State, step: Step, s': State)
    requires Inv(s) && Does(s, step, s') && !step.Crash? && !step.Switch?
    ensures s.mem <= s'.mem && s.lastSequence <= s'.lastSequence
    ensures forall e :: e in s'.mem ==> e in s.mem || e.seqno > s.lastSequence
  {
    hide Inv, LegalInputs, MergedInput, WellCut, Kept, Concat, Justified, ApplyOne;
    if step.Insert? {
      GroupIsNext(s);
    }
  }

  lemma {:induction false} MemtableGrows(states: seq<State>, steps: seq<Step>, i: nat, j: nat)
    requires Run(states, steps) && NoCrash(steps, i, j)
    ensures states[i].mem <= MemtableAt(states, steps, i, j)
    ensures forall e :: e in MemtableAt(states, steps, i, j) ==> e in states[i].mem || e.seqno > states[i].lastSequence
    decreases j - i
  {
    hide Inv, Does, Init, View, Everything, Pairs;
    if i < j && !steps[i].Switch? {
      RunRefinesMap(states, steps, i);
      assert Does(states[i], steps[i], states[i + 1]);
      StepGrowsMemtable(states[i], steps[i], states[i + 1]);
      MemtableGrows(states, steps, i + 1, j);
    }
  }

  /** The lookup result is the map's answer for the key. */
  predicate Answers(m: Map, k: UserKey, r: Option<Entry>)
  {
    if Missing(r) then k !in m else k in m && m[k] == r.value.value
  }

  /**
   `DBImpl::Get`: the memtables and the version are captured in state `i` and looked into by
   state `j`, while the engine goes on; the memtable may have grown or been switched out by
   then. The answer is that of state `i`: the newest version at or below `q` there, and for
   the last sequence number what the map had.
   */
  method Get(ghost states: seq<State>, ghost steps: seq<Step>, ghost i: nat, ghost j: nat,
             mem: seq<Entry>, imm: Option<seq<Entry>>, v: Version, k: UserKey, q: nat)
      returns (r: Option<Entry>)
    requires Run(states, steps) && NoCrash(steps, i, j) && q <= states[i].lastSequence
    requires Lists(mem, MemtableAt(states, steps, i, j)) && v == states[i].current
    requires imm.Some? <==> states[i].imm.Some?
    requires imm.Some? ==> Lists(imm.value, states[i].imm.value)
    ensures IsLookup(Everything(states[i]), k, q, r)
    ensures q == states[i].lastSequence ==> Answers(Model(states, steps, i), k, r)
  {
    hide Inv, Init, Does, Shaped, Layered, View, Pairs, Model, Contents, SetOf;
    ghost var s := states[i];
    RunRefinesMap(states, steps, i);
    MemtableGrows(states, steps, i, j);
    ReadyToRead(s);
    SeekGetFindsNewest(mem, k, q);
    r := SeekGet(mem, k, q);
    assert IsLookup(s.mem, k, q, r);
    if r.None? {
      if imm.Some? {
        SeekGetFindsNewest(imm.value, k, q);
        r := SeekGet(imm.value, k, q);
      }
      assert IsLookup(ImmEntries(s), k, q, r);
      if r.None? {
        r := Versions.Get(v, k, q);
      }
    }
    if q == s.lastSequence {
      AllUnique(s);
      LookupAnswersAsMap(Everything(s), k, q, r, Model(states, steps, i));
    }
  }

  /** The memtables and the version are layered: each holds only newer entries than the next. */
  lemma {:induction false} ReadyToRead(s: State)
    requires Inv(s)
    ensures Shaped(s.current) && Layered(s.current) && s.flushedTo <= s.switchedAt
    ensures forall e :: e in s.mem ==> s.switchedAt < e.seqno
    ensures forall e :: e in ImmEntries(s) ==> s.flushedTo < e.seqno <= s.switchedAt
    ensures forall e :: e in Contents(s.current) ==> e.seqno <= s.flushedTo
  {
    MemtablesAreNewer(s);
    hide SnapshotInv, MemInv, ImmInv, CompactionInv, FlushInv, NumbersInv, InstallInv, ManifestInv, CountersInv, HeldInv,
      AllStored;
  }

  /** A lookup at a number where the view is `m` answers as `m` does. */
  lemma {:induction false} LookupAnswersAsMap(es: iset<Entry>, k: UserKey, q: nat, r: Option<Entry>, m: Map)
    requires Unique(es) && IsLookup(es, k, q, r) && View(es, q) == Pairs(m)
    ensures Answers(m, k, r)
  {
    if k in m {
      assert (k, m[k]) in View(es, q);
      ShowsByLookup(es, k, q, m[k], r);
    }
    if !Missing(r) {
      ShowsByLookup(es, k, q, r.value.value, r);
      assert (k, r.value.value) in View(es, q);
    }
  }
}

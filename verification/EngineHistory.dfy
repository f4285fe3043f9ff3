/**
 What the steps of a run alone decide: which snapshots and which references to versions are
 alive, and so what readers see, what a compaction may drop and which files are deleted.
 Nothing here is assumed of the engine's own lists; they are proved to follow the steps.
 */
module EngineHistory {
  import opened InternalKeys
  import opened Versions
  import opened LevelShape
  import opened VersionBuilder
  import opened Compaction
  import opened CompactionMeaning
  import opened Batches
  import opened EngineState
  import opened EngineInvariant
  import opened EngineReads
  import opened EngineRuns

  // ------------------------------------------------------------------
  // Snapshots.

  /** The snapshots alive after `n` steps, in the order they were taken, each named by the step that took it. */
  function Live(steps: seq<Step>, n: nat): (live: seq<nat>)
    requires n <= |steps|
    ensures forall k :: 0 <= k < |live| ==> live[k] < n
  {
    if n == 0 then [] else
      var live := Live(steps, n - 1);
      match steps[n - 1]
      case Take => live + [n - 1]
      case Release(k) => if k < |live| then live[..k] + live[k + 1..] else live
      case Crash(_, _, _, _) => []
      case _ => live
  }

  /** Step `n` gives back the snapshot that step `i` took. */
  predicate Releases(steps: seq<Step>, n: nat, i: nat)
    requires n < |steps|
  {
    steps[n].Release? && steps[n].index < |Live(steps, n)| && Live(steps, n)[steps[n].index] == i
  }

  /** No step from the one that took the snapshot to step `j` is a crash or gives it back. */
  predicate NotReleased(steps: seq<Step>, i: nat, j: nat)
  {
    i < j <= |steps| && steps[i].Take? && forall n :: i < n < j ==> !steps[n].Crash? && !Releases(steps, n, i)
  }

  lemma {:induction false} LiveUntilReleased(steps: seq<Step>, i: nat, j: nat)
    requires NotReleased(steps, i, j)
    ensures i in Live(steps, j)
    decreases j
  {
    if j == i + 1 {
      assert Live(steps, j)[|Live(steps, i)|] == i;
    } else {
      LiveUntilReleased(steps, i, j - 1);
      var live := Live(steps, j - 1);
      var p :| 0 <= p < |live| && live[p] == i;
      assert !Releases(steps, j - 1, i);
      match steps[j - 1]
      case Take => assert (live + [j - 1])[p] == i;
      case Release(k) =>
        if k < |live| {
          assert (live[..k] + live[k + 1..])[if p < k then p else p - 1] == i;
        }
      case _ =>
    }
  }

  /** `snapshots` lists the last sequence numbers that the steps in `live` found. */
  ghost predicate Numbered(states: seq<State>, live: seq<nat>, snapshots: seq<nat>)
  {
    |snapshots| == |live| && forall k :: 0 <= k < |live| ==> live[k] < |states| && snapshots[k] == states[live[k]].lastSequence
  }

  lemma {:induction false} StepOnSnapshots(s: State, step: Step, s': State)
    requires Does(s, step, s')
    ensures match step
      case Take => s'.snapshots == s.snapshots + [s.lastSequence]
      case Release(k) => k < |s.snapshots| && s'.snapshots == s.snapshots[..k] + s.snapshots[k + 1..]
      case Crash(_, _, _, _) => s'.snapshots == []
      case _ => s'.snapshots == s.snapshots
  {
    hide LegalInputs, MergedInput, SafeInputs, WellCut, Kept, Concat, Justified, ApplyOne, Recoverable, TablesOf, KeptTable;
  }

  /** The engine's snapshot list is the one the steps describe. */
  lemma {:induction false} SnapshotsFollowSteps(states: seq<State>, steps: seq<Step>, n: nat)
    requires Run(states, steps) && n <= |steps|
    ensures Numbered(states, Live(steps, n), states[n].snapshots)
  {
    hide Does, Init;
    if n == 0 {
      StartsWithout(states[0]);
    } else {
      SnapshotsFollowSteps(states, steps, n - 1);
      assert Does(states[n - 1], steps[n - 1], states[n]);
      StepOnSnapshots(states[n - 1], steps[n - 1], states[n]);
    }
  }

  lemma {:induction false} StartsWithout(s: State)
    requires Init(s)
    ensures s.snapshots == [] && s.held == multiset{} && s.flush.None? && s.compaction.None? && s.pending == {}
  {
  }

  /** From when a snapshot is taken until it is given back, it reads the map as it was then. */
  lemma {:induction false} SnapshotIsStable(states: seq<State>, steps: seq<Step>, i: nat, j: nat)
    requires Run(states, steps) && NotReleased(steps, i, j)
    ensures View(Everything(states[j]), states[i].lastSequence) == Pairs(Model(states, steps, i))
    decreases j
  {
    hide Inv, View, Everything, Pairs, Init, Does, Live;
    var q := states[i].lastSequence;
    RunRefinesMap(states, steps, j - 1);
    assert Does(states[j - 1], steps[j - 1], states[j]);
    if i < j - 1 {
      SnapshotIsStable(states, steps, i, j - 1);
      LiveUntilReleased(steps, i, j - 1);
      SnapshotsFollowSteps(states, steps, j - 1);
      var p :| 0 <= p < |Live(steps, j - 1)| && Live(steps, j - 1)[p] == i;
      assert states[j - 1].snapshots[p] == q;
    }
    StepKeepsReads(states[j - 1], steps[j - 1], states[j], q);
  }

  /** A lookup at a snapshot that was not given back answers as the map did when it was taken. */
  lemma {:induction false} SnapshotAnswersAsMap(states: seq<State>, steps: seq<Step>, i: nat, j: nat, k: UserKey,
                                                r: Option<Entry>)
    requires Run(states, steps) && NotReleased(steps, i, j)
    requires IsLookup(Everything(states[j]), k, states[i].lastSequence, r)
    ensures Answers(Model(states, steps, i), k, r)
  {
    hide Inv, View, Everything, Pairs, Init, Does, Live, IsLookup, Unique;
    SnapshotIsStable(states, steps, i, j);
    RunRefinesMap(states, steps, j);
    AllUnique(states[j]);
    LookupAnswersAsMap(Everything(states[j]), k, states[i].lastSequence, r, Model(states, steps, i));
  }

  lemma {:induction false} StartFixesSmallest(s: State, step: Step, s': State)
    requires Does(s, step, s') && step.Start?
    ensures s'.compaction.Some?
    ensures s'.compaction.value.smallest == if s.snapshots == [] then s.lastSequence else s.snapshots[0]
  {
    hide LegalInputs, MergedInput, SafeInputs;
  }

  /** A compaction may drop what the oldest snapshot alive cannot see: that and no other number is its limit. */
  lemma {:induction false} OldestSnapshotRules(states: seq<State>, steps: seq<Step>, n: nat)
    requires Run(states, steps) && n < |steps| && steps[n].Start?
    ensures states[n + 1].compaction.Some?
    ensures states[n + 1].compaction.value.smallest
         == states[if Live(steps, n) == [] then n else Live(steps, n)[0]].lastSequence
  {
    hide Live, Init, Does;
    assert Does(states[n], steps[n], states[n + 1]);
    StartFixesSmallest(states[n], steps[n], states[n + 1]);
    SnapshotsFollowSteps(states, steps, n);
  }

  // ------------------------------------------------------------------
  // References to versions.

  /** The readers of `v` after `n` steps: those that took a reference since the last crash, less those that gave it back. */
  ghost function Readers(states: seq<State>, steps: seq<Step>, v: Version, n: nat): int
    requires |states| == |steps| + 1 && n <= |steps|
  {
    if n == 0 then 0 else
      var r := Readers(states, steps, v, n - 1);
      match steps[n - 1]
      case Hold => if states[n - 1].current == v then r + 1 else r
      case Drop(u) => if u == v then r - 1 else r
      case Crash(_, _, _, _) => 0
      case _ => r
  }

  lemma {:induction false} StepOnReaders(s: State, step: Step, s': State)
    requires Does(s, step, s')
    ensures match step
      case Hold => s'.held == s.held + multiset{s.current}
      case Drop(v) => v in s.held && s'.held == s.held - multiset{v}
      case Crash(_, _, _, _) => s'.held == multiset{}
      case _ => s'.held == s.held
  {
    hide LegalInputs, MergedInput, SafeInputs, WellCut, Kept, Concat, Justified, ApplyOne, Recoverable, TablesOf, KeptTable;
  }

  /** The references the engine counts are those the steps describe. */
  lemma {:induction false} ReadersFollowSteps(states: seq<State>, steps: seq<Step>, v: Version, n: nat)
    requires Run(states, steps) && n <= |steps|
    ensures states[n].held[v] == Readers(states, steps, v, n)
  {
    hide Does, Init;
    if n == 0 {
      StartsWithout(states[0]);
    } else {
      ReadersFollowSteps(states, steps, v, n - 1);
      assert Does(states[n - 1], steps[n - 1], states[n]);
      StepOnReaders(states[n - 1], steps[n - 1], states[n]);
    }
  }

  /** As long as more readers took a version than gave it back, every file of it is on disk with its contents. */
  lemma {:induction false} ReadersKeepFiles(states: seq<State>, steps: seq<Step>, v: Version, n: nat)
    requires Run(states, steps) && n <= |steps| && Readers(states, steps, v, n) > 0
    ensures AllStored(states[n].disk.tables, v)
  {
    hide Inv, Does, Init, AllStored, Readers;
    ReadersFollowSteps(states, steps, v, n);
    NothingInUseIsDeleted(states, steps, n, v);
  }

  /** A reader that has not given its version back can read it, whatever was installed and deleted since. */
  lemma {:induction false} ReaderIsServed(states: seq<State>, steps: seq<Step>, i: nat, j: nat)
    requires Run(states, steps) && i < j <= |steps| && steps[i].Hold?
    requires forall n :: i < n < j ==> !steps[n].Crash? && steps[n] != Drop(states[i].current)
    ensures Readers(states, steps, states[i].current, j) > 0 && AllStored(states[j].disk.tables, states[i].current)
    decreases j
  {
    hide Run, AllStored;
    RunHasStates(states, steps);
    if i + 1 == j {
      ReadersFollowSteps(states, steps, states[i].current, i);
    } else {
      ReaderIsServed(states, steps, i, j - 1);
    }
    ReadersKeepFiles(states, steps, states[i].current, j);
  }

  lemma {:induction false} RunHasStates(states: seq<State>, steps: seq<Step>)
    requires Run(states, steps)
    ensures |states| == |steps| + 1
  {
  }

  // ------------------------------------------------------------------
  // Deleted files.

  /** The numbers of the tables being written: of a flush not yet in the manifest, of the outputs of a compaction. */
  function InProgress(s: State): set<nat>
  {
    (if s.flush.Some? && s.flush.value.Some? && !FlushLogged(s.installing) then {s.flush.value.value.number} else {}) +
    (if s.compaction.Some? then Numbers(s.compaction.value.outputs) + OpenNumber(s.compaction.value) else {})
  }

  function OpenNumber(w: Work): set<nat>
  {
    if w.open.Some? then {w.open.value} else {}
  }

  lemma {:induction false} StepOnPending(s: State, step: Step, s': State)
    requires Inv(s) && Does(s, step, s') && s.pending == InProgress(s)
    ensures s'.pending == InProgress(s')
  {
    hide LegalInputs, MergedInput, SafeInputs, WellCut, Kept, Concat, Justified, ApplyOne, Recoverable, TablesOf, KeptTable,
      VersionInv, SnapshotInv, MemInv, ImmInv, CompactionInv, FlushInv, ManifestInv, CountersInv, HeldInv, AllStored,
      Numbers, NumbersFixFiles, FromUniverse, OutputsUnused, Unused, ToWrite;
    match step
    case Close(file) => OneMoreNumbered(s.compaction.value.outputs, file);
    case Start(_, _) => NoNumbers();
    case Log(_) => LogOnPending(s, step, s');
    case GiveUp => GiveUpOnPending(s, step, s');
    case Finish => FinishOnPending(s, step, s');
    case _ =>
  }

  lemma {:induction false} FinishOnPending(s: State, step: Step, s': State)
    requires Inv(s) && Does(s, step, s') && s.pending == InProgress(s) && step.Finish?
    ensures s'.pending == InProgress(s')
  {
    hide VersionInv, SnapshotInv, MemInv, ImmInv, CompactionInv, FlushInv, ManifestInv, CountersInv, HeldInv, AllStored,
      Numbers, NumbersInv, NewNumbers, ApplyOne, RoomFor, Taken, NoGap, OlderClosed, Concat, ToWrite;
  }

  lemma {:induction false} LogOnPending(s: State, step: Step, s': State)
    requires Inv(s) && Does(s, step, s') && s.pending == InProgress(s) && step.Log?
    ensures s'.pending == InProgress(s')
  {
    hide Justified, ApplyOne, NewRecord, EngineState.Added,
      VersionInv, SnapshotInv, MemInv, ImmInv, CompactionInv, FlushInv, ManifestInv, CountersInv, HeldInv, AllStored,
      Numbers, NumbersFixFiles, FromUniverse, OutputsUnused, Unused;
    if step.change.Flushed? && step.change.table.Some? && s.compaction.Some? {
      var t, w := step.change.table.value.number, s.compaction.value;
      assert t !in Numbers(w.outputs) && t !in OpenNumber(w);
    }
  }

  lemma {:induction false} GiveUpOnPending(s: State, step: Step, s': State)
    requires Inv(s) && Does(s, step, s') && s.pending == InProgress(s) && step.GiveUp?
    ensures s'.pending == InProgress(s')
  {
    hide VersionInv, SnapshotInv, MemInv, ImmInv, CompactionInv, FlushInv, ManifestInv, CountersInv, HeldInv, AllStored,
      Numbers, NumbersFixFiles, FromUniverse, OutputsUnused, Unused, InstallInv;
    if s.flush.Some? && s.flush.value.Some? {
      assert s.flush.value.value.number !in Numbers(s.compaction.value.outputs);
    }
  }

  lemma {:induction false} NoNumbers()
    ensures Numbers([]) == {}
  {
  }

  /** A number is kept from deletion exactly while its table is being written. */
  lemma {:induction false} PendingFollowsWork(states: seq<State>, steps: seq<Step>, n: nat)
    requires Run(states, steps) && n <= |steps|
    ensures states[n].pending == InProgress(states[n])
  {
    hide Does, Init, Inv, InProgress;
    if n == 0 {
      StartsWithout(states[0]);
      assert InProgress(states[0]) == {} by {
        NothingInProgress(states[0]);
      }
    } else {
      PendingFollowsWork(states, steps, n - 1);
      RunRefinesMap(states, steps, n - 1);
      assert Does(states[n - 1], steps[n - 1], states[n]);
      StepOnPending(states[n - 1], steps[n - 1], states[n]);
    }
  }

  lemma {:induction false} NothingInProgress(s: State)
    requires s.flush.None? && s.compaction.None?
    ensures InProgress(s) == {}
  {
  }

  /** Someone may read version `v`: it is current, or a reader or the running compaction has a reference to it. */
  ghost predicate InUse(states: seq<State>, steps: seq<Step>, n: nat, v: Version)
    requires |states| == |steps| + 1 && n <= |steps|
  {
    || v == states[n].current
    || Readers(states, steps, v, n) > 0
    || (states[n].compaction.Some? && v == states[n].compaction.value.base)
  }

  ghost predicate HasFile(v: Version, t: nat)
  {
    exists l, f :: InLevel(v, l, f) && f.number == t
  }

  /**
   Deleting files leaves exactly the tables that someone may read or that are being written,
   and the logs of what is not yet in a table: the current one, and that of the immutable
   memtable if there is one.
   */
  lemma {:induction false} CollectIsExact(states: seq<State>, steps: seq<Step>, n: nat, t: nat)
    requires Run(states, steps) && n < |steps| && steps[n].Collect?
    ensures t in states[n + 1].disk.tables <==>
      t in states[n].disk.tables && (t in InProgress(states[n]) || exists v :: InUse(states, steps, n, v) && HasFile(v, t))
    ensures t in states[n + 1].disk.logs ==> t in states[n].disk.logs && NotFlushed(states[n], t)
  {
    hide Does, Init, Inv, InProgress, Readers, View, Everything, Pairs, HasFile, NotFlushed;
    var s, s' := states[n], states[n + 1];
    assert Does(s, steps[n], s');
    RunRefinesMap(states, steps, n);
    PendingFollowsWork(states, steps, n);
    forall v
      ensures InUse(states, steps, n, v) <==> v == s.current || v in s.held || (s.compaction.Some? && v == s.compaction.value.base)
    {
      ReadersFollowSteps(states, steps, v, n);
    }
    hide InUse;
    CollectedTables(s, steps[n], s', t);
    CollectedLogs(s, steps[n], s', t);
  }

  /** The log is the current one or the one the immutable memtable was logged in. */
  ghost predicate NotFlushed(s: State, t: nat)
    requires t in s.disk.logs
  {
    t == s.logfile || (s.imm.Some? && t < s.logfile && s.imm.value == LogEntries(s.disk.logs[t]))
  }

  lemma {:induction false} CollectedTables(s: State, step: Step, s': State, t: nat)
    requires Does(s, step, s') && step.Collect?
    ensures t in s'.disk.tables <==>
      && t in s.disk.tables
      && (t in s.pending || exists v ::
            (v == s.current || v in s.held || (s.compaction.Some? && v == s.compaction.value.base)) && HasFile(v, t))
  {
    if t in s.disk.tables && KeptTable(s, t) && t !in s.pending {
      if exists v, l, f :: v in s.held && InLevel(v, l, f) && f.number == t {
        var v, l, f :| v in s.held && InLevel(v, l, f) && f.number == t;
        assert HasFile(v, t);
      } else if exists l, f :: InLevel(s.current, l, f) && f.number == t {
        assert HasFile(s.current, t);
      } else {
        assert HasFile(s.compaction.value.base, t);
      }
    }
  }

  lemma {:induction false} CollectedLogs(s: State, step: Step, s': State, t: nat)
    requires Inv(s) && Does(s, step, s') && step.Collect?
    ensures t in s'.disk.logs ==> t in s.disk.logs && NotFlushed(s, t)
  {
    hide VersionInv, SnapshotInv, CompactionInv, FlushInv, ManifestInv, CountersInv, HeldInv, AllStored,
      NumbersInv, InstallInv, KeptTable, LogEntries, Chained;
  }

  lemma {:induction false} StepKeepsFiles(s: State, step: Step, s': State, t: nat)
    requires Does(s, step, s') && !step.Collect?
    ensures t in s.disk.tables ==> t in s'.disk.tables
    ensures t in s.disk.logs ==> t in s'.disk.logs
  {
    hide Recoverable, Justified, LegalInputs, MergedInput, SafeInputs, ManifestVersion, TablesOf, ToWrite, StoreAll;
    if step.Crash? && t in s.disk.tables {
      StoringKeeps(s.disk.tables, step.files, t);
    }
  }

  lemma {:induction false} StoringKeeps(tables: map<nat, seq<Entry>>, files: Level, t: nat)
    requires t in tables
    ensures t in StoreAll(tables, files)
  {
    if files != [] {
      StoringKeeps(tables, files[..|files| - 1], t);
    }
  }

  /** Only deletion deletes: between two of them no file leaves the disk, whatever crashes. */
  lemma {:induction false} FilesStay(states: seq<State>, steps: seq<Step>, i: nat, j: nat, t: nat)
    requires Run(states, steps) && i <= j <= |steps| && forall k :: i <= k < j ==> !steps[k].Collect?
    ensures t in states[i].disk.tables ==> t in states[j].disk.tables
    ensures t in states[i].disk.logs ==> t in states[j].disk.logs
  {
    hide Does, Init, Inv;
    if i < j {
      FilesStay(states, steps, i, j - 1, t);
      assert Does(states[j - 1], steps[j - 1], states[j]);
      StepKeepsFiles(states[j - 1], steps[j - 1], states[j], t);
    }
  }
}

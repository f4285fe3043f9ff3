/**
 The invariant of the storage engine and its preservation by the steps that do not change
 the version.
 */
module EngineInvariant {
  import opened InternalKeys
  import opened Versions
  import opened LevelShape
  import opened VersionBuilder
  import opened Compaction
  import opened CompactionMeaning
  import opened Batches
  import opened EngineState

  type Logs = map<nat, seq<Batch>>
  type Tables = map<nat, seq<Entry>>

  ghost predicate VersionInv(v: Version, nextFile: nat, flushedTo: nat)
  {
    && WellFormed(v) && NumbersBelow(v, nextFile) && Unique(Contents(v))
    && (forall e :: InVersion(v, e) ==> e.seqno <= flushedTo)
  }

  ghost predicate SnapshotInv(snapshots: seq<nat>, lastSequence: nat)
  {
    && lastSequence < MaxSequenceNumber
    && (forall i, j :: 0 <= i < j < |snapshots| ==> snapshots[i] <= snapshots[j])
    && (forall i :: 0 <= i < |snapshots| ==> snapshots[i] <= lastSequence)
  }

  /** The batches of the current log whose sequence numbers are published. */
  function Done(log: seq<Batch>, writing: Option<Writing>): seq<Batch>
  {
    if writing.Some? && log != [] then log[..|log| - 1] else log
  }

  ghost function Applied(writing: Option<Writing>): iset<Entry>
  {
    if writing.Some? then BatchEntries(writing.value.batch, writing.value.applied) else iset{}
  }

  /** The memtable holds what the current log holds, less what is still being inserted. */
  ghost predicate MemInv(logs: Logs, logfile: nat, writing: Option<Writing>, mem: iset<Entry>,
                         switchedAt: nat, lastSequence: nat)
  {
    && logfile in logs
    && (writing.Some? ==>
          && logs[logfile] != [] && logs[logfile][|logs[logfile]| - 1] == writing.value.batch
          && writing.value.batch.first == lastSequence + 1
          && writing.value.applied <= |writing.value.batch.ops|
          && lastSequence + |writing.value.batch.ops| < MaxSequenceNumber)
    && Chained(Done(logs[logfile], writing), switchedAt, lastSequence)
    && mem == LogEntries(Done(logs[logfile], writing)) + Applied(writing)
  }

  /** The immutable memtable holds what the log before the current one holds. */
  ghost predicate ImmInv(logs: Logs, logfile: nat, logNumber: nat, imm: Option<iset<Entry>>,
                         flushedTo: nat, switchedAt: nat)
  {
    && (forall n :: n in logs ==> n <= logfile)
    && (imm.None? ==> switchedAt == flushedTo && logNumber == logfile)
    && (imm.Some? ==>
          && logNumber < logfile && logNumber in logs
          && Chained(logs[logNumber], flushedTo, switchedAt)
          && imm.value == LogEntries(logs[logNumber])
          && (forall n :: n in logs && logNumber < n ==> n == logfile))
  }

  ghost predicate CompactionInv(work: Option<Work>, v: Version, snapshots: seq<nat>, lastSequence: nat,
                                nextFile: nat, pending: set<nat>, tables: Tables, flushedTo: nat)
  {
    work.Some? ==>
      var w := work.value;
      && LegalWork(w) && Grown(w.base, v)
      && (NoGap(w.inputs) ==> Taken(v, w.inputs) && Besides(v, w.inputs))
      && w.smallest <= lastSequence && (forall i :: 0 <= i < |snapshots| ==> w.smallest <= snapshots[i])
      && NumbersBelow(w.base, nextFile) && AllStored(tables, w.base)
      && (forall e :: InVersion(w.base, e) ==> e.seqno <= flushedTo)
      && (forall i :: 0 <= i < |w.outputs| ==>
            && w.outputs[i].number < nextFile
            && w.outputs[i].number in pending
            && Stored(tables, w.outputs[i]))
  }

  ghost predicate FlushInv(flush: Option<Option<File>>, imm: Option<iset<Entry>>, v: Version,
                           nextFile: nat, tables: Tables)
  {
    flush.Some? ==>
      && LegalTable(imm, flush.value)
      && (flush.value.Some? ==>
            && flush.value.value.number < nextFile
            && NumbersBelow(v, flush.value.value.number)
            && Stored(tables, flush.value.value))
  }

  ghost predicate Unused(files: set<File>, n: nat)
  {
    forall f :: f in files ==> f.number != n
  }

  predicate FlushLogged(installing: Option<Change>)
  {
    installing.Some? && installing.value.Flushed?
  }

  predicate OutputsLogged(installing: Option<Change>)
  {
    installing.Some? && installing.value.Compacted?
  }

  /** Files being built have numbers the manifest has not used. */
  ghost predicate NumbersInv(universe: set<File>, nextFile: nat, v: Version, flush: Option<Option<File>>,
                             work: Option<Work>, installing: Option<Change>, pending: set<nat>)
  {
    && NumbersFixFiles(universe)
    && (forall f :: f in universe ==> f.number < nextFile)
    && FromUniverse(universe, v)
    && (installing.Some? ==> Added(installing.value) <= universe)
    && (flush.Some? && flush.value.Some? && !FlushLogged(installing) ==>
          Unused(universe, flush.value.value.number) && flush.value.value.number in pending)
    && (work.Some? && !OutputsLogged(installing) ==> OutputsUnused(universe, work.value.outputs))
    && (work.Some? && work.value.open.Some? ==>
          && Unused(universe, work.value.open.value) && work.value.open.value < nextFile
          && work.value.open.value in pending && work.value.open.value !in Numbers(work.value.outputs))
    && (flush.Some? && flush.value.Some? && work.Some? ==>
          && flush.value.value.number !in Numbers(work.value.outputs)
          && work.value.open != Some(flush.value.value.number))
    && (work.Some? ==> FromUniverse(universe, work.value.base))
  }

  ghost predicate OutputsUnused(universe: set<File>, outputs: Level)
  {
    forall i :: 0 <= i < |outputs| ==> Unused(universe, outputs[i].number)
  }

  ghost predicate FromUniverse(universe: set<File>, v: Version)
  {
    forall l, f :: InLevel(v, l, f) ==> f in universe
  }

  ghost predicate InstallInv(installing: Option<Change>, v: Version, flush: Option<Option<File>>, work: Option<Work>)
  {
    installing.Some? ==>
      var ch := installing.value;
      && Justified(v, ch) && ValidEdit(EditOf(ch))
      && (if ch.Flushed? then flush == Some(ch.table) else flush.None?)
      && (ch.Moved? ==> work.None?)
      && (ch.Compacted? ==> work == Some(ch.work) && NewNumbers(v, ch.work.outputs))
  }

  /** The manifest replays to `target`. */
  ghost predicate ManifestInv(manifest: seq<Record>, universe: set<File>, target: Version)
  {
    && ValidEdits(Edits(manifest))
    && FreshAdds(EmptyVersion, Edits(manifest))
    && (forall i :: 0 <= i < |manifest| ==> AddsFrom(Edits(manifest)[i], universe))
    && ApplyEach(EmptyVersion, Edits(manifest)) == target
  }

  /** The manifest's counters are current, as far as recovery relies on them. */
  ghost predicate CountersInv(c: Counters, targetLog: nat, target: Version, nextFile: nat,
                              lastSequence: nat, logs: Logs, logfile: nat)
  {
    && c.logNumber == Some(targetLog)
    && c.nextFile.Some? && c.nextFile.value <= nextFile && NumbersBelow(target, c.nextFile.value)
    && c.lastSequence.Some? && c.lastSequence.value <= lastSequence
    && (Collect(logs, targetLog, logfile + 1) == [] ==> c.lastSequence.value == lastSequence)
  }

  ghost predicate HeldInv(held: multiset<Version>, tables: Tables, nextFile: nat, universe: set<File>)
  {
    forall v :: v in held ==> AllStored(tables, v) && NumbersBelow(v, nextFile) && FromUniverse(universe, v)
  }

  ghost predicate Inv(s: State)
  {
    && s.logfile < s.nextFile
    && VersionInv(s.current, s.nextFile, s.flushedTo)
    && SnapshotInv(s.snapshots, s.lastSequence)
    && MemInv(s.disk.logs, s.logfile, s.writing, s.mem, s.switchedAt, s.lastSequence)
    && ImmInv(s.disk.logs, s.logfile, s.logNumber, s.imm, s.flushedTo, s.switchedAt)
    && CompactionInv(s.compaction, s.current, s.snapshots, s.lastSequence, s.nextFile, s.pending, s.disk.tables,
                     s.flushedTo)
    && FlushInv(s.flush, s.imm, s.current, s.nextFile, s.disk.tables)
    && NumbersInv(s.universe, s.nextFile, s.current, s.flush, s.compaction, s.installing, s.pending)
    && InstallInv(s.installing, s.current, s.flush, s.compaction)
    && ManifestInv(s.disk.manifest, s.universe, Target(s))
    && CountersInv(FinalCounters(s.disk.manifest), TargetLog(s), Target(s), s.nextFile, s.lastSequence,
                   s.disk.logs, s.logfile)
    && HeldInv(s.held, s.disk.tables, s.nextFile, s.universe)
    && AllStored(s.disk.tables, s.current)
  }

  // ------------------------------------------------------------------
  // Collecting the logs to replay.

  lemma {:induction false} CollectNone(logs: Logs, lo: nat, hi: nat)
    requires forall n :: lo <= n < hi ==> n !in logs
    ensures Collect(logs, lo, hi) == []
    decreases hi - lo
  {
    if lo < hi {
      CollectNone(logs, lo + 1, hi);
    }
  }

  lemma {:induction false} CollectSkip(logs: Logs, lo: nat, mid: nat, hi: nat)
    requires lo <= mid <= hi && forall n :: lo <= n < mid ==> n !in logs
    ensures Collect(logs, lo, hi) == Collect(logs, mid, hi)
    decreases mid - lo
  {
    if lo < mid {
      CollectSkip(logs, lo + 1, mid, hi);
    }
  }

  lemma {:induction false} CollectOne(logs: Logs, n: nat, hi: nat)
    requires n in logs && n < hi && forall m :: n < m < hi ==> m !in logs
    ensures Collect(logs, n, hi) == logs[n]
  {
    CollectNone(logs, n + 1, hi);
  }

  lemma {:induction false} CollectTwo(logs: Logs, a: nat, b: nat, hi: nat)
    requires a in logs && b in logs && a < b < hi
    requires forall m :: a < m < hi && m != b ==> m !in logs
    ensures Collect(logs, a, hi) == logs[a] + logs[b]
  {
    CollectSkip(logs, a + 1, b, hi);
    CollectOne(logs, b, hi);
  }

  /** The batches recovery would replay: the current log, after the one being flushed. */
  lemma {:induction false} ReplayIs(s: State, hi: nat)
    requires Inv(s) && (forall n :: n in s.disk.logs ==> n < hi)
    ensures Collect(s.disk.logs, TargetLog(s), hi)
         == if s.imm.Some? && !FlushLogged(s.installing)
            then s.disk.logs[s.logNumber] + s.disk.logs[s.logfile]
            else s.disk.logs[s.logfile]
  {
    if s.imm.Some? && !FlushLogged(s.installing) {
      CollectTwo(s.disk.logs, s.logNumber, s.logfile, hi);
    } else {
      CollectOne(s.disk.logs, s.logfile, hi);
    }
  }

  lemma {:induction false} CollectIncludes(logs: Logs, lo: nat, hi: nat, n: nat)
    requires lo <= n < hi && n in logs && logs[n] != []
    ensures Collect(logs, lo, hi) != []
    decreases hi - lo
  {
    if lo < n {
      CollectIncludes(logs, lo + 1, hi, n);
    }
  }

  // ------------------------------------------------------------------
  // Steps of a write.

  lemma {:induction false} AppendMem(logs: Logs, logfile: nat, mem: iset<Entry>, switchedAt: nat, last: nat,
                                     ops: seq<Op>)
    requires MemInv(logs, logfile, None, mem, switchedAt, last) && last + |ops| < MaxSequenceNumber
    ensures var b := Batch(last + 1, ops);
      MemInv(logs[logfile := logs[logfile] + [b]], logfile, Some(Writing(b, 0)), mem, switchedAt, last)
  {
    var b, log := Batch(last + 1, ops), logs[logfile];
    assert (log + [b])[..|log|] == log;
    assert Applied(Some(Writing(b, 0))) == iset{};
  }

  lemma {:induction false} AppendLogKeepsInv(s: State, s': State, ops: seq<Op>)
    requires Inv(s) && AppendLog(s, s', ops)
    ensures Inv(s')
  {
    hide VersionInv, SnapshotInv, CompactionInv, FlushInv, NumbersInv, InstallInv, ManifestInv, HeldInv, AllStored;
    AppendMem(s.disk.logs, s.logfile, s.mem, s.switchedAt, s.lastSequence, ops);
    CollectIncludes(s'.disk.logs, TargetLog(s'), s'.logfile + 1, s'.logfile);
  }

  lemma {:induction false} InsertMem(logs: Logs, logfile: nat, w: Writing, mem: iset<Entry>, switchedAt: nat, last: nat)
    requires MemInv(logs, logfile, Some(w), mem, switchedAt, last) && w.applied < |w.batch.ops|
    ensures MemInv(logs, logfile, Some(w.(applied := w.applied + 1)), mem + iset{EntryOf(w.batch, w.applied)},
                   switchedAt, last)
  {
    OneMoreEntry(w.batch, w.applied);
  }

  lemma {:induction false} InsertNextKeepsInv(s: State, s': State)
    requires Inv(s) && InsertNext(s, s')
    ensures Inv(s')
  {
    hide VersionInv, SnapshotInv, CompactionInv, FlushInv, NumbersInv, InstallInv, ManifestInv, HeldInv, AllStored;
    InsertMem(s.disk.logs, s.logfile, s.writing.value, s.mem, s.switchedAt, s.lastSequence);
  }

  lemma {:induction false} PublishMem(logs: Logs, logfile: nat, writing: Option<Writing>, mem: iset<Entry>,
                                      switchedAt: nat, last: nat)
    requires MemInv(logs, logfile, writing, mem, switchedAt, last)
    requires writing.Some? && writing.value.applied == |writing.value.batch.ops|
    ensures MemInv(logs, logfile, None, mem, switchedAt, last + |writing.value.batch.ops|)
  {
    var log, b := logs[logfile], writing.value.batch;
    assert log == Done(log, writing) + [b];
    ChainSnoc(Done(log, writing), switchedAt, last, b);
    EntriesConcat(Done(log, writing), [b]);
    forall e ensures InBatches([b], e) <==> InBatch(b, |b.ops|, e) {
      assert InBatch(b, |b.ops|, e) ==> InBatch([b][0], |[b][0].ops|, e);
    }
  }

  lemma {:induction false} PublishKeepsInv(s: State, s': State)
    requires Inv(s) && Publish(s, s')
    ensures Inv(s')
  {
    hide VersionInv, FlushInv, NumbersInv, InstallInv, ManifestInv, HeldInv, AllStored;
    PublishMem(s.disk.logs, s.logfile, s.writing, s.mem, s.switchedAt, s.lastSequence);
    CollectIncludes(s'.disk.logs, TargetLog(s'), s'.logfile + 1, s'.logfile);
  }

  /** Every table numbered below `n` is as it was. */
  ghost predicate Extends(tables: Tables, tables': Tables, n: nat)
  {
    forall m :: m in tables && m < n ==> m in tables' && tables'[m] == tables[m]
  }

  lemma {:induction false} MoreForVersion(v: Version, tables: Tables, tables': Tables, n: nat, n': nat)
    requires NumbersBelow(v, n) && AllStored(tables, v) && Extends(tables, tables', n) && n <= n'
    ensures NumbersBelow(v, n') && AllStored(tables', v)
  {
  }

  lemma {:induction false} MoreForCompaction(work: Option<Work>, v: Version, snapshots: seq<nat>, last: nat, n: nat,
                                             n': nat, pending: set<nat>, pending': set<nat>, tables: Tables,
                                             tables': Tables, flushedTo: nat)
    requires CompactionInv(work, v, snapshots, last, n, pending, tables, flushedTo)
    requires Extends(tables, tables', n) && n <= n' && pending <= pending'
    ensures CompactionInv(work, v, snapshots, last, n', pending', tables', flushedTo)
  {
  }

  /** Reserving file numbers and writing tables under them. */
  lemma {:induction false} MoreTablesKeepInv(s: State, next: nat, pending: set<nat>, tables: Tables)
    requires Inv(s) && s.nextFile <= next && s.pending <= pending && Extends(s.disk.tables, tables, s.nextFile)
    ensures Inv(s.(nextFile := next, pending := pending, disk := s.disk.(tables := tables)))
  {
    hide LegalWork, LegalTable, Justified, WellFormed, ManifestInv, ApplyOne, EditOf, MemInv, ImmInv;
    MoreForCompaction(s.compaction, s.current, s.snapshots, s.lastSequence, s.nextFile, next,
                      s.pending, pending, s.disk.tables, tables, s.flushedTo);
    MoreForVersion(s.current, s.disk.tables, tables, s.nextFile, next);
    forall v | v in s.held
      ensures NumbersBelow(v, next) && AllStored(tables, v)
    {
      MoreForVersion(v, s.disk.tables, tables, s.nextFile, next);
    }
  }

  lemma {:induction false} ReserveKeepsInv(s: State, next: nat)
    requires Inv(s) && s.nextFile <= next
    ensures Inv(s.(nextFile := next))
  {
    MoreTablesKeepInv(s, next, s.pending, s.disk.tables);
    assert s.(nextFile := next, pending := s.pending, disk := s.disk.(tables := s.disk.tables)) == s.(nextFile := next);
  }

  lemma {:induction false} SwitchMem(logs: Logs, logfile: nat, logNumber: nat, mem: iset<Entry>, flushedTo: nat,
                                     switchedAt: nat, last: nat, newLog: nat)
    requires MemInv(logs, logfile, None, mem, switchedAt, last)
    requires ImmInv(logs, logfile, logNumber, None, flushedTo, switchedAt) && logfile < newLog
    ensures MemInv(logs[newLog := []], newLog, None, iset{}, last, last)
    ensures ImmInv(logs[newLog := []], newLog, logNumber, Some(mem), flushedTo, last)
    ensures Collect(logs, logNumber, logfile + 1) == Collect(logs[newLog := []], logNumber, newLog + 1)
  {
    assert LogEntries([]) == iset{};
    CollectOne(logs, logfile, logfile + 1);
    CollectTwo(logs[newLog := []], logfile, newLog, newLog + 1);
  }

  lemma {:induction false} SwitchKeepsInv(s: State, s': State)
    requires Inv(s) && SwitchMemtable(s, s')
    ensures Inv(s')
  {
    hide VersionInv, SnapshotInv, MemInv, CompactionInv, NumbersInv, ManifestInv, HeldInv, AllStored, Justified,
      NumbersBelow, NewNumbers, ApplyOne, EditOf;
    ReserveKeepsInv(s, s.nextFile + 1);
    SwitchMem(s.disk.logs, s.logfile, s.logNumber, s.mem, s.flushedTo, s.switchedAt, s.lastSequence, s.nextFile);
  }

  // ------------------------------------------------------------------
  // Building tables.

  lemma {:induction false} BuildFlushKeepsInv(s: State, s': State, table: Option<File>)
    requires Inv(s) && BuildFlush(s, s', table)
    ensures Inv(s')
  {
    hide LegalWork, Justified, WellFormed, ManifestInv, ApplyOne, EditOf, MemInv, ImmInv, HeldInv, AllStored;
    MoreTablesKeepInv(s, s'.nextFile, s'.pending, s'.disk.tables);
  }

  lemma {:induction false} StoreAllStores(tables: Tables, files: Level, n: nat)
    requires forall i :: 0 <= i < |files| ==> files[i].number >= n
    requires DistinctNumbers(files)
    ensures Extends(tables, StoreAll(tables, files), n)
    ensures forall i :: 0 <= i < |files| ==> Stored(StoreAll(tables, files), files[i])
  {
    if files != [] {
      StoreAllStores(tables, files[..|files| - 1], n);
    }
  }

  lemma {:induction false} OpenOutputKeepsInv(s: State, s': State)
    requires Inv(s) && OpenOutput(s, s')
    ensures Inv(s')
  {
    hide VersionInv, Justified, WellFormed, ManifestInv, ApplyOne, EditOf, MemInv, ImmInv, HeldInv, AllStored, Kept, Concat,
      CountersInv, LegalTable, NewNumbers, SnapshotInv, Grown, NumbersBelow, LegalInputs, MergedInput, Besides,
      NoValueUnderMarker, OlderClosed, NoGap, FromUniverse, OutputsUnused;
    MoreTablesKeepInv(s, s'.nextFile, s'.pending, s.disk.tables);
  }

  /** Writing a table under a number the manifest has not used. */
  lemma {:induction false} StillStored(tables: Tables, n: nat, es: seq<Entry>, universe: set<File>, v: Version)
    requires AllStored(tables, v) && FromUniverse(universe, v) && Unused(universe, n)
    ensures AllStored(tables[n := es], v)
  {
  }

  lemma {:induction false} FinishOutputKeepsInv(s: State, s': State, file: File)
    requires Inv(s) && FinishOutput(s, s', file)
    ensures Inv(s')
  {
    hide VersionInv, WellFormed, ManifestInv, ApplyOne, EditOf, MemInv, ImmInv, AllStored, CountersInv, SnapshotInv,
      NumbersBelow, FromUniverse, CompactionInv, NumbersInv, InstallInv, FlushInv, LegalWork, WellCut, Concat, ToWrite;
    OpenIsUnused(s);
    StillStored(s.disk.tables, file.number, file.entries, s.universe, s.current);
    forall v | v in s.held
      ensures AllStored(s'.disk.tables, v)
    {
      StillStored(s.disk.tables, file.number, file.entries, s.universe, v);
    }
    FinishFlush(s, s', file);
    FinishCompaction(s, s', file);
    FinishNumbers(s, s', file);
    assert InstallInv(None, s'.current, s'.flush, s'.compaction) by {
      FreeToInstall(s'.current, s'.flush, s'.compaction);
    }
  }

  lemma {:induction false} FreeToInstall(v: Version, flush: Option<Option<File>>, work: Option<Work>)
    ensures InstallInv(None, v, flush, work)
  {
  }

  lemma {:induction false} OpenIsUnused(s: State)
    requires Inv(s) && s.compaction.Some? && s.compaction.value.open.Some?
    ensures var n := s.compaction.value.open.value;
      && Unused(s.universe, n) && n < s.nextFile && n in s.pending && n !in Numbers(s.compaction.value.outputs)
      && FromUniverse(s.universe, s.current) && FromUniverse(s.universe, s.compaction.value.base)
      && (s.flush.Some? && s.flush.value.Some? ==> s.flush.value.value.number != n)
  {
    hide VersionInv, SnapshotInv, MemInv, ImmInv, CompactionInv, FlushInv, InstallInv, ManifestInv, CountersInv, HeldInv,
      AllStored, FromUniverse, Unused;
  }

  lemma {:induction false} FinishFlush(s: State, s': State, file: File)
    requires Inv(s) && FinishOutput(s, s', file)
    requires s.flush.Some? && s.flush.value.Some? ==> s.flush.value.value.number != file.number
    ensures FlushInv(s'.flush, s'.imm, s'.current, s'.nextFile, s'.disk.tables)
  {
    hide VersionInv, SnapshotInv, MemInv, ImmInv, CompactionInv, InstallInv, ManifestInv, CountersInv, HeldInv,
      AllStored, NumbersInv, LegalTable, NumbersBelow, Concat, ToWrite, WellCut;
  }

  lemma {:induction false} FinishCompaction(s: State, s': State, file: File)
    requires Inv(s) && FinishOutput(s, s', file) && file.number < s.nextFile && file.number in s.pending
    requires file.number !in Numbers(s.compaction.value.outputs)
    requires FromUniverse(s.universe, s.compaction.value.base) && Unused(s.universe, file.number)
    ensures CompactionInv(s'.compaction, s'.current, s'.snapshots, s'.lastSequence, s'.nextFile, s'.pending,
                          s'.disk.tables, s'.flushedTo)
  {
    hide VersionInv, SnapshotInv, MemInv, ImmInv, FlushInv, InstallInv, ManifestInv, CountersInv, HeldInv, NumbersInv,
      AllStored, NumbersBelow, Concat, ToWrite, WellCut, LegalWork, Grown, Besides, NoGap, FromUniverse, Unused;
    var w := s.compaction.value;
    StillStored(s.disk.tables, file.number, file.entries, s.universe, w.base);
    OneMoreWritten(w, file);
    OneMoreStored(w.outputs, file, s.disk.tables);
  }

  lemma {:induction false} FinishNumbers(s: State, s': State, file: File)
    requires Inv(s) && FinishOutput(s, s', file) && Unused(s.universe, file.number)
    requires s.flush.Some? && s.flush.value.Some? ==> s.flush.value.value.number != file.number
    ensures NumbersInv(s'.universe, s'.nextFile, s'.current, s'.flush, s'.compaction, s'.installing, s'.pending)
  {
    hide VersionInv, SnapshotInv, MemInv, ImmInv, CompactionInv, FlushInv, InstallInv, ManifestInv, CountersInv, HeldInv,
      AllStored, Concat, ToWrite, WellCut, FromUniverse, Unused, NumbersFixFiles;
    OneMoreNumbered(s.compaction.value.outputs, file);
  }

  lemma {:induction false} OneMoreNumbered(outputs: Level, file: File)
    ensures Numbers(outputs + [file]) == Numbers(outputs) + {file.number}
  {
  }

  lemma {:induction false} OneMoreStored(outputs: Level, file: File, tables: Tables)
    requires file.number !in Numbers(outputs) && forall i :: 0 <= i < |outputs| ==> Stored(tables, outputs[i])
    ensures forall i :: 0 <= i <= |outputs| ==> Stored(tables[file.number := file.entries], (outputs + [file])[i])
  {
    forall i | 0 <= i < |outputs|
      ensures outputs[i].number != file.number
    {
      assert outputs[i] in outputs;
    }
  }

  lemma {:induction false} OneMoreWritten(w: Work, file: File)
    requires LegalWork(w) && WellCut([file]) && Concat(w.outputs) + file.entries <= ToWrite(w)
    requires file.number !in Numbers(w.outputs)
    ensures LegalWork(w.(outputs := w.outputs + [file], open := None))
  {
    hide LegalInputs, MergedInput, OlderClosed, NoValueUnderMarker, Kept;
    var outputs := w.outputs + [file];
    assert outputs[..|w.outputs|] == w.outputs;
    assert [file][0] == file;
    forall i | 0 <= i < |w.outputs|
      ensures w.outputs[i].number != file.number
    {
      assert w.outputs[i] in w.outputs;
    }
  }

  lemma {:induction false} SmallestIsLeast(snapshots: seq<nat>, last: nat, smallest: nat)
    requires SnapshotInv(snapshots, last)
    requires smallest == if snapshots == [] then last else snapshots[0]
    ensures smallest <= last && forall i :: 0 <= i < |snapshots| ==> smallest <= snapshots[i]
  {
  }

  lemma {:induction false} StartCompactionKeepsInv(s: State, s': State, c: Inputs, merged: seq<Entry>)
    requires Inv(s) && StartCompaction(s, s', c, merged)
    ensures Inv(s')
  {
    hide Justified, WellFormed, ManifestInv, ApplyOne, EditOf, MemInv, ImmInv, HeldInv, AllStored, Kept, Concat,
      LegalInputs, MergedInput;
    SmallestIsLeast(s.snapshots, s.lastSequence, SmallestSnapshot(s));
    assert Grown(s.current, s.current);
    Picked(s.current, c, merged);
    NothingWritten();
  }

  lemma {:induction false} NothingWritten()
    ensures Concat([]) == []
  {
  }

  /** What holds of the inputs in the version they are picked from. */
  lemma {:induction false} Picked(v: Version, c: Inputs, merged: seq<Entry>)
    requires WellFormed(v) && LegalInputs(v, c) && SafeInputs(v, c, merged)
    ensures Taken(v, c) && Besides(v, c) && OlderClosed(v[c.level], c.upper)
  {
    PickedBesides(v, c);
    if c.level == 0 {
      LevelZeroClosed(v, c);
    }
  }

  lemma {:induction false} AbandonKeepsInv(s: State, s': State)
    requires Inv(s) && AbandonCompaction(s, s')
    ensures Inv(s')
  {
    hide LegalWork, Justified, WellFormed, ManifestInv, ApplyOne, MemInv, ImmInv, HeldInv, AllStored;
  }

  // ------------------------------------------------------------------
  // Snapshots and references.

  lemma {:induction false} TakeSnapshotKeepsInv(s: State, s': State)
    requires Inv(s) && TakeSnapshot(s, s')
    ensures Inv(s')
  {
    hide LegalWork, Justified, WellFormed, ManifestInv, ApplyOne, EditOf, MemInv, ImmInv, HeldInv, AllStored, NumbersInv;
  }

  lemma {:induction false} ReleaseSnapshotKeepsInv(s: State, s': State, i: nat)
    requires Inv(s) && ReleaseSnapshot(s, s', i)
    ensures Inv(s')
  {
    hide LegalWork, Justified, WellFormed, ManifestInv, ApplyOne, EditOf, MemInv, ImmInv, HeldInv, AllStored, NumbersInv;
    forall j | 0 <= j < |s'.snapshots|
      ensures s'.snapshots[j] == s.snapshots[if j < i then j else j + 1]
    {
    }
  }

  lemma {:induction false} HoldVersionKeepsInv(s: State, s': State)
    requires Inv(s) && HoldVersion(s, s')
    ensures Inv(s')
  {
    hide LegalWork, Justified, WellFormed, ManifestInv, ApplyOne, EditOf, MemInv, ImmInv, AllStored, FromUniverse, Unused;
  }

  lemma {:induction false} DropVersionKeepsInv(s: State, s': State, v: Version)
    requires Inv(s) && DropVersion(s, s', v)
    ensures Inv(s')
  {
    hide LegalWork, Justified, WellFormed, ManifestInv, ApplyOne, EditOf, MemInv, ImmInv, AllStored, NumbersInv;
  }

  /** `DeleteObsoleteFiles` removes no log that recovery replays and no table anyone can read. */
  lemma {:induction false} DeleteObsoleteKeepsInv(s: State, s': State)
    requires Inv(s) && DeleteObsolete(s, s')
    ensures Inv(s')
  {
    hide LegalWork, Justified, WellFormed, ManifestInv, ApplyOne, EditOf, Chained, LogEntries, LegalTable;
    KeptLogs(s.disk.logs, s'.disk.logs, s.logNumber, s.logfile + 1);
    forall l, f | InLevel(s.current, l, f)
      ensures Stored(s'.disk.tables, f)
    {
      assert KeptTable(s, f.number);
    }
  }

  lemma {:induction false} KeptLogs(logs: Logs, logs': Logs, lo: nat, hi: nat)
    requires forall n :: n >= lo ==> (n in logs <==> n in logs')
    requires forall n :: n >= lo && n in logs ==> logs'[n] == logs[n]
    ensures Collect(logs', lo, hi) == Collect(logs, lo, hi)
    decreases hi - lo
  {
    if lo < hi {
      KeptLogs(logs, logs', lo + 1, hi);
    }
  }
}

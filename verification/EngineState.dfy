/**
 The storage engine as a state machine. Each step is one stretch of `DBImpl` or
 `VersionSet` code that runs under the mutex, or one write to disk made without it:
 appending a group to the log, inserting one of its entries, publishing the sequence
 number, switching memtables, building and installing a flush, a compaction or a move,
 taking and releasing snapshots and versions, deleting obsolete files, and recovering
 after a crash.
 */
module EngineState {
  import opened InternalKeys
  import opened Versions
  import opened LevelShape
  import opened VersionBuilder
  import opened Compaction
  import opened CompactionMeaning
  import opened VersionSteps
  import opened Batches

  // ------------------------------------------------------------------
  // The disk.

  /** One manifest record: an edit and the counters it sets. */
  datatype Record = Record(edit: Edit, counters: Counters)

  datatype Counters = Counters(logNumber: Option<nat>, nextFile: Option<nat>, lastSequence: Option<nat>)

  /** Log files by number, table files by number, and the manifest that CURRENT names. */
  datatype Disk = Disk(logs: map<nat, seq<Batch>>, tables: map<nat, seq<Entry>>, manifest: seq<Record>)

  function Edits(manifest: seq<Record>): (r: seq<Edit>)
    ensures |r| == |manifest|
  {
    seq(|manifest|, i requires 0 <= i < |manifest| => manifest[i].edit)
  }

  function Latest(older: Option<nat>, newer: Option<nat>): Option<nat>
  {
    if newer.Some? then newer else older
  }

  /** The counters `VersionSet::Recover` ends with: for each, the last one set. */
  function FinalCounters(manifest: seq<Record>): Counters
  {
    if manifest == [] then Counters(None, None, None) else
      var c, d := FinalCounters(manifest[..|manifest| - 1]), manifest[|manifest| - 1].counters;
      Counters(Latest(c.logNumber, d.logNumber), Latest(c.nextFile, d.nextFile), Latest(c.lastSequence, d.lastSequence))
  }

  /** The batches of the log files numbered from `lo` to below `hi`, in order. */
  function Collect(logs: map<nat, seq<Batch>>, lo: nat, hi: nat): seq<Batch>
    decreases hi - lo
  {
    if lo >= hi then []
    else (if lo in logs then logs[lo] else []) + Collect(logs, lo + 1, hi)
  }

  // ------------------------------------------------------------------
  // The state.

  /** A group being committed and how many of its entries are in the memtable. */
  datatype Writing = Writing(batch: Batch, applied: nat)

  /**
   A running compaction: what it reads, what it may drop, the outputs it has finished and the
   number of the one it is writing.
   */
  datatype Work = Work(inputs: Inputs, merged: seq<Entry>, smallest: nat, base: Version, outputs: Level,
                       open: Option<nat>)

  /** A change recorded in the manifest and not yet installed. */
  datatype Change =
    | Flushed(level: nat, table: Option<File>)
    | Compacted(work: Work)
    | Moved(level: nat, file: File)

  datatype State = State(
    mem: iset<Entry>,
    imm: Option<iset<Entry>>,
    current: Version,
    lastSequence: nat,
    writing: Option<Writing>,
    snapshots: seq<nat>,
    held: multiset<Version>,
    logfile: nat,
    logNumber: nat,
    nextFile: nat,
    flush: Option<Option<File>>,
    compaction: Option<Work>,
    installing: Option<Change>,
    pending: set<nat>,
    disk: Disk,
    // History: the last sequence number in the version, the last one in the immutable
    // memtable, and every file the manifest has added.
    flushedTo: nat,
    switchedAt: nat,
    universe: set<File>)

  function EditOf(ch: Change): Edit
  {
    match ch
    case Flushed(level, table) => if table.Some? then FlushEdit(level, table.value) else Edit({}, [])
    case Compacted(w) => CompactionEdit(w.inputs, w.outputs)
    case Moved(level, file) => MoveEdit(level, file)
  }

  ghost function ImmEntries(s: State): iset<Entry>
  {
    if s.imm.Some? then s.imm.value else iset{}
  }

  ghost function MemEntries(s: State): iset<Entry>
  {
    s.mem + ImmEntries(s)
  }

  /** Every entry the live database holds. */
  ghost function Everything(s: State): iset<Entry>
  {
    MemEntries(s) + Contents(s.current)
  }

  /** The version the manifest describes. */
  function Target(s: State): Version
    requires |s.current| == NumLevels && (s.installing.Some? ==> ValidEdit(EditOf(s.installing.value)))
  {
    if s.installing.Some? then ApplyOne(s.current, EditOf(s.installing.value)) else s.current
  }

  /** The log number the manifest describes. */
  function TargetLog(s: State): nat
  {
    if s.installing.Some? && s.installing.value.Flushed? then s.logfile else s.logNumber
  }

  // ------------------------------------------------------------------
  // What a pending change rests on.

  predicate Stored(tables: map<nat, seq<Entry>>, f: File)
  {
    f.number in tables && tables[f.number] == f.entries
  }

  ghost predicate AllStored(tables: map<nat, seq<Entry>>, v: Version)
  {
    forall l, f :: InLevel(v, l, f) ==> Stored(tables, f)
  }

  /** The entries a compaction is to write. */
  ghost function ToWrite(w: Work): seq<Entry>
  {
    Kept(w.base, w.inputs.level, w.merged, |w.merged|, w.smallest)
  }

  /** The ranges of the inputs leave no gap, as those of every compaction the engine picks itself. */
  ghost predicate NoGap(c: Inputs)
  {
    Gapless(c.upper + c.lower)
  }

  /** What a compaction was started with, against the version it read, and what it has written. */
  ghost predicate LegalWork(w: Work)
  {
    && LegalInputs(w.base, w.inputs) && MergedInput(w.inputs, w.merged)
    && OlderClosed(w.base[w.inputs.level], w.inputs.upper) && NoValueUnderMarker(w.base, w.inputs, w.merged)
    && w.smallest < MaxSequenceNumber
    && WellCut(w.outputs) && DistinctNumbers(w.outputs) && Concat(w.outputs) <= ToWrite(w)
  }

  ghost predicate DistinctNumbers(files: Level)
  {
    forall i, j :: 0 <= i < j < |files| ==> files[i].number != files[j].number
  }

  /** A memtable written out as a table, or nothing when it is empty. */
  ghost predicate LegalTable(imm: Option<iset<Entry>>, table: Option<File>)
  {
    && imm.Some?
    && (table.None? ==> imm.value == iset{})
    && (table.Some? ==> ValidFile(table.value) && Entries(table.value) == imm.value)
  }

  /**
   The change may be applied to the current version. Only a compaction of inputs with a gap
   needs a look at that version; only a move or a compaction above level zero needs one at
   what stays beside its inputs.
   */
  ghost predicate Justified(v: Version, ch: Change)
  {
    match ch
    case Flushed(level, table) => table.Some? ==> LegalFlushLevel(v, level, table.value)
    case Compacted(w) =>
      && w.open.None? && Concat(w.outputs) == ToWrite(w)
      && (NoGap(w.inputs) || (Taken(v, w.inputs) && RoomFor(v, w.inputs, ToWrite(w))))
    case Moved(level, file) => LegalMove(v, level, file) && OlderClosed(v[level], [file])
  }

  // ------------------------------------------------------------------
  // Steps.

  /** `Write`: the group goes to the log (db_impl's unlocked `AddRecord`). */
  ghost predicate AppendLog(s: State, s': State, ops: seq<Op>)
  {
    var b := Batch(s.lastSequence + 1, ops);
    && s.writing.None? && s.logfile in s.disk.logs
    && s.lastSequence + |ops| < MaxSequenceNumber
    && s' == s.(writing := Some(Writing(b, 0)),
                disk := s.disk.(logs := s.disk.logs[s.logfile := s.disk.logs[s.logfile] + [b]]))
  }

  /** `InsertInto`: the next entry of the group goes to the memtable. */
  ghost predicate InsertNext(s: State, s': State)
  {
    && s.writing.Some? && s.writing.value.applied < |s.writing.value.batch.ops|
    && var w := s.writing.value;
       s' == s.(mem := s.mem + iset{EntryOf(w.batch, w.applied)},
                writing := Some(w.(applied := w.applied + 1)))
  }

  /** `SetLastSequence`: the whole group becomes visible. */
  ghost predicate Publish(s: State, s': State)
  {
    && s.writing.Some? && s.writing.value.applied == |s.writing.value.batch.ops|
    && s' == s.(lastSequence := s.lastSequence + |s.writing.value.batch.ops|, writing := None)
  }

  /** `MakeRoomForWrite`: a new log file and a new memtable. */
  ghost predicate SwitchMemtable(s: State, s': State)
  {
    && s.imm.None? && s.writing.None?
    && s' == s.(imm := Some(s.mem), mem := iset{}, switchedAt := s.lastSequence,
                logfile := s.nextFile, nextFile := s.nextFile + 1,
                disk := s.disk.(logs := s.disk.logs[s.nextFile := []]))
  }

  /** `WriteLevel0Table`: the immutable memtable is written out under a reserved number. */
  ghost predicate BuildFlush(s: State, s': State, table: Option<File>)
  {
    && s.imm.Some? && s.flush.None? && s.installing.None?
    && (table.None? ==>
          s.imm.value == iset{} && s' == s.(flush := Some(table), nextFile := s.nextFile + 1))
    && (table.Some? ==>
          && ValidFile(table.value) && Entries(table.value) == s.imm.value && table.value.number == s.nextFile
          && s' == s.(flush := Some(table), nextFile := s.nextFile + 1, pending := s.pending + {s.nextFile},
                      disk := s.disk.(tables := s.disk.tables[s.nextFile := table.value.entries])))
  }

  /** The record `LogAndApply` writes. */
  function NewRecord(s: State, ch: Change): Record
  {
    Record(EditOf(ch),
           Counters(Some(if ch.Flushed? then s.logfile else s.logNumber), Some(s.nextFile), Some(s.lastSequence)))
  }

  function Added(ch: Change): set<File>
  {
    match ch
    case Flushed(_, table) => if table.Some? then {table.value} else {}
    case Compacted(w) => set f | f in w.outputs
    case Moved(_, file) => {file}
  }

  /** `LogAndApply` up to the synced manifest record. */
  ghost predicate LogChange(s: State, s': State, ch: Change)
  {
    && s.installing.None? && Justified(s.current, ch)
    && (ch.Flushed? ==> s.flush == Some(ch.table))
    && (ch.Compacted? ==> s.compaction == Some(ch.work))
    // One background thread: a flush may run inside a compaction, nothing else overlaps.
    && (!ch.Flushed? ==> s.flush.None?)
    && (ch.Moved? ==> s.compaction.None?)
    && s' == s.(installing := Some(ch), universe := s.universe + Added(ch),
                pending := if ch.Flushed? && ch.table.Some? then s.pending - {ch.table.value.number} else s.pending,
                disk := s.disk.(manifest := s.disk.manifest + [NewRecord(s, ch)]))
  }

  /** `LogAndApply` after it: the new version becomes current and the work is cleaned up. */
  ghost predicate Install(s: State, s': State)
  {
    && s.installing.Some? && |s.current| == NumLevels && ValidEdit(EditOf(s.installing.value))
    && var ch := s.installing.value;
       var t := s.(current := ApplyOne(s.current, EditOf(ch)), installing := None);
       match ch
       case Flushed(_, _) => s' == t.(imm := None, flush := None, logNumber := s.logfile, flushedTo := s.switchedAt)
       case Compacted(w) =>
         s' == t.(compaction := None, pending := s.pending - Numbers(w.outputs))
       case Moved(_, _) => s' == t
  }

  function Numbers(files: Level): set<nat>
  {
    set f | f in files :: f.number
  }

  /** The smallest snapshot a compaction must respect. */
  function SmallestSnapshot(s: State): nat
  {
    if s.snapshots == [] then s.lastSequence else s.snapshots[0]
  }

  /** Nothing that stays can be taken for newer than what the compaction moves or drops. */
  ghost predicate SafeInputs(v: Version, c: Inputs, merged: seq<Entry>)
    requires Taken(v, c)
  {
    (c.level > 0 ==> OlderClosed(v[c.level], c.upper)) && NoValueUnderMarker(v, c, merged)
  }

  /** The start of `DoCompactionWork`. */
  ghost predicate StartCompaction(s: State, s': State, c: Inputs, merged: seq<Entry>)
  {
    && s.compaction.None? && s.installing.None?
    && LegalInputs(s.current, c) && MergedInput(c, merged) && SafeInputs(s.current, c, merged)
    && s' == s.(compaction := Some(Work(c, merged, SmallestSnapshot(s), s.current, [], None)))
  }

  /** `OpenCompactionOutputFile`: the next file number is reserved. */
  ghost predicate OpenOutput(s: State, s': State)
  {
    && s.compaction.Some? && s.compaction.value.open.None? && s.installing.None?
    && s' == s.(compaction := Some(s.compaction.value.(open := Some(s.nextFile))), nextFile := s.nextFile + 1,
                pending := s.pending + {s.nextFile})
  }

  /** `FinishCompactionOutputFile`: the open output has its table, holding the next entries to be written. */
  ghost predicate FinishOutput(s: State, s': State, file: File)
  {
    && s.compaction.Some? && s.compaction.value.open == Some(file.number) && s.installing.None?
    && var w := s.compaction.value;
       && WellCut([file]) && Concat(w.outputs) + file.entries <= ToWrite(w)
       && s' == s.(compaction := Some(w.(outputs := w.outputs + [file], open := None)),
                   disk := s.disk.(tables := s.disk.tables[file.number := file.entries]))
  }

  function StoreAll(tables: map<nat, seq<Entry>>, files: Level): map<nat, seq<Entry>>
  {
    if files == [] then tables
    else StoreAll(tables, files[..|files| - 1])[files[|files| - 1].number := files[|files| - 1].entries]
  }

  /** `CleanupCompaction` of a compaction that is given up. */
  ghost predicate AbandonCompaction(s: State, s': State)
  {
    && s.compaction.Some? && s.installing.None?
    && var w := s.compaction.value;
       s' == s.(compaction := None,
                pending := s.pending - Numbers(w.outputs) - (if w.open.Some? then {w.open.value} else {}))
  }

  ghost predicate TakeSnapshot(s: State, s': State)
  {
    s' == s.(snapshots := s.snapshots + [s.lastSequence])
  }

  ghost predicate ReleaseSnapshot(s: State, s': State, i: nat)
  {
    i < |s.snapshots| && s' == s.(snapshots := s.snapshots[..i] + s.snapshots[i + 1..])
  }

  /** A reader takes or drops a reference to a version. */
  ghost predicate HoldVersion(s: State, s': State)
  {
    s' == s.(held := s.held + multiset{s.current})
  }

  ghost predicate DropVersion(s: State, s': State, v: Version)
  {
    v in s.held && s' == s.(held := s.held - multiset{v})
  }

  /** Files of the current version, of a version a reader or a compaction holds, or pending. */
  ghost predicate KeptTable(s: State, n: nat)
  {
    || n in s.pending
    || (exists l, f :: InLevel(s.current, l, f) && f.number == n)
    || (exists v, l, f :: v in s.held && InLevel(v, l, f) && f.number == n)
    || (s.compaction.Some? && exists l, f :: InLevel(s.compaction.value.base, l, f) && f.number == n)
  }

  /** `DeleteObsoleteFiles`, on the background thread while no install is under way. */
  ghost predicate DeleteObsolete(s: State, s': State)
  {
    && s.installing.None?
    && s' == s.(disk := s.disk.(
                  logs := map n | n in s.disk.logs && n >= s.logNumber :: s.disk.logs[n],
                  tables := map n | n in s.disk.tables && KeptTable(s, n) :: s.disk.tables[n]))
  }

  // ------------------------------------------------------------------
  // Recovery.

  function Flatten(chunks: seq<seq<Batch>>): seq<Batch>
  {
    if chunks == [] then [] else Flatten(chunks[..|chunks| - 1]) + chunks[|chunks| - 1]
  }

  /** `RecoverLogFile`: each chunk of batches becomes a table, unless it has no entries. */
  ghost predicate TablesOf(chunks: seq<seq<Batch>>, files: Level)
  {
    if chunks == [] then files == []
    else if LogEntries(chunks[|chunks| - 1]) == iset{} then TablesOf(chunks[..|chunks| - 1], files)
    else
      && files != []
      && ValidFile(files[|files| - 1])
      && Entries(files[|files| - 1]) == LogEntries(chunks[|chunks| - 1])
      && TablesOf(chunks[..|chunks| - 1], files[..|files| - 1])
  }

  /** The largest sequence number in the batches, or `least` if that is larger. */
  function MaxSequence(bs: seq<Batch>, least: nat): nat
  {
    if bs == [] then least else
      var b, m := bs[|bs| - 1], MaxSequence(bs[..|bs| - 1], least);
      if b.first + |b.ops| > m + 1 then b.first + |b.ops| - 1 else m
  }

  function AddAll(level: nat, files: Level): seq<(nat, File)>
  {
    seq(|files|, i requires 0 <= i < |files| => (level, files[i]))
  }

  /** `WriteSnapshot`: every file of the version, level by level. */
  function SnapshotEdit(v: Version): Edit
  {
    Edit({}, SnapshotFiles(v, |v|))
  }

  function SnapshotFiles(v: Version, n: nat): seq<(nat, File)>
    requires n <= |v|
  {
    if n == 0 then [] else SnapshotFiles(v, n - 1) + AddAll(n - 1, v[n - 1])
  }

  /** What opening the database finds: the version and counters of the manifest. */
  function ManifestVersion(d: Disk): Version
    requires ValidEdits(Edits(d.manifest))
  {
    SavedVersion(EmptyVersion, ApplyAll(NoStates, Edits(d.manifest)))
  }

  /** The batches recovery replays; `hi` is above every log number on disk. */
  function Replayed(d: Disk, hi: nat): seq<Batch>
    requires FinalCounters(d.manifest).logNumber.Some?
  {
    Collect(d.logs, FinalCounters(d.manifest).logNumber.value, hi)
  }

  /** `Recover` goes through: the manifest is complete and no live table is missing. */
  ghost predicate Recoverable(d: Disk)
  {
    var c := FinalCounters(d.manifest);
    && ValidEdits(Edits(d.manifest)) && c.logNumber.Some? && c.nextFile.Some? && c.lastSequence.Some?
    && AllStored(d.tables, ManifestVersion(d))
  }

  /** The state a successful open leaves, having replayed `chunks` into `files`. */
  ghost function Opened(d: Disk, files: Level, newLog: nat, last: nat): State
    requires ValidEdits(Edits(d.manifest))
  {
    var v := ManifestVersion(d);
    var e := Edit({}, AddAll(0, files));
    var manifest := [Record(SnapshotEdit(v), Counters(None, None, None)),
                     Record(e, Counters(Some(newLog), Some(newLog + 1), Some(last)))];
    State(mem := iset{}, imm := None, current := ApplyOne(v, e), lastSequence := last, writing := None,
          snapshots := [], held := multiset{}, logfile := newLog, logNumber := newLog, nextFile := newLog + 1,
          flush := None, compaction := None, installing := None, pending := {},
          disk := Disk(d.logs[newLog := []], StoreAll(d.tables, files), manifest),
          flushedTo := last, switchedAt := last,
          universe := AllFiles(v) + set f | f in files)
  }

  /** `DB::Open` after a crash: everything in memory is lost, the disk is read back. */
  ghost predicate CrashAndOpen(s: State, s': State, hi: nat, chunks: seq<seq<Batch>>, files: Level, newLog: nat)
  {
    && Recoverable(s.disk)
    && var c := FinalCounters(s.disk.manifest);
       && (forall n :: n in s.disk.logs ==> n < hi)
       && Flatten(chunks) == Replayed(s.disk, hi) && TablesOf(chunks, files)
       && hi <= newLog && c.nextFile.value < newLog
       && (forall i :: 0 <= i < |files| ==> c.nextFile.value < files[i].number < newLog)
       && (forall i, j :: 0 <= i < j < |files| ==> files[i].number < files[j].number)
       && s' == Opened(s.disk, files, newLog, MaxSequence(Replayed(s.disk, hi), c.lastSequence.value))
  }
}

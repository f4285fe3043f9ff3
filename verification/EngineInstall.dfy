/**
 Recording a change in the manifest and installing it: both keep the engine's invariant,
 and neither changes what any live snapshot reads.
 */
module EngineInstall {
  import opened InternalKeys
  import opened Versions
  import opened LevelShape
  import opened VersionBuilder
  import opened Compaction
  import opened CompactionMeaning
  import opened VersionSteps
  import opened Batches
  import opened EngineState
  import opened EngineInvariant

  // ------------------------------------------------------------------
  // What a change does to the version.

  /** Sequence numbers in the memtables are above those in the version. */
  lemma {:induction false} MemtablesAreNewer(s: State)
    requires Inv(s)
    ensures forall e :: e in ImmEntries(s) ==> s.flushedTo < e.seqno <= s.switchedAt
    ensures s.flushedTo <= s.switchedAt <= s.lastSequence
    ensures forall e :: e in s.mem ==> s.switchedAt < e.seqno
    ensures NewerThan(MemEntries(s), s.current)
  {
    hide WellFormed, CompactionInv, FlushInv, NumbersInv, InstallInv, ManifestInv, CountersInv, HeldInv, AllStored;
    if s.imm.Some? {
      ChainBounds(s.disk.logs[s.logNumber], s.flushedTo, s.switchedAt);
    }
    ChainBounds(Done(s.disk.logs[s.logfile], s.writing), s.switchedAt, s.lastSequence);
  }

  /** The files of the new version are old ones or ones the change adds. */
  ghost predicate OldOrAdded(v: Version, ch: Change, v': Version)
  {
    forall l, f :: InLevel(v', l, f) ==> f in AllFiles(v) || f in Added(ch)
  }

  /** What applying a justified change to a version gives. */
  ghost predicate GoodStep(v: Version, ch: Change, v': Version, limit: nat)
  {
    && WellFormed(v') && NumbersBelow(v', limit) && OldOrAdded(v, ch, v')
  }

  lemma {:induction false} FlushStep(v: Version, level: nat, table: Option<File>, limit: nat)
    requires WellFormed(v) && NumbersBelow(v, limit)
    requires table.Some? ==>
               && ValidFile(table.value) && LegalFlushLevel(v, level, table.value)
               && NumbersBelow(v, table.value.number) && table.value.number < limit
               && NewerThan(Entries(table.value), v)
    ensures ValidEdit(EditOf(Flushed(level, table)))
    ensures GoodStep(v, Flushed(level, table), ApplyOne(v, EditOf(Flushed(level, table))), limit)
    ensures Contents(ApplyOne(v, EditOf(Flushed(level, table))))
         == if table.Some? then Contents(v) + Entries(table.value) else Contents(v)
  {
    if table.Some? {
      var file := table.value;
      FlushKeepsWellFormed(v, level, file);
      FlushApplied(v, level, file);
      var v' := ApplyOne(v, FlushEdit(level, file));
      forall l: nat, f | InLevel(v', l, f)
        ensures f in AllFiles(v) || f == file
      {
        assert FlushedLevel(v[l], v'[l], l == level, file);
      }
    } else {
      NoChange(v);
    }
  }

  /** An edit that changes nothing leaves the version as it is. */
  lemma {:induction false} NoChange(v: Version)
    requires WellFormed(v)
    ensures ValidEdit(Edit({}, [])) && ApplyOne(v, Edit({}, [])) == v
  {
    var e := Edit({}, []);
    NumbersFixed(v);
    forall l | 0 <= l < |v|
      ensures ApplyOne(v, e)[l] == v[l]
    {
      StepInOrder(v, e, AllFiles(v), l);
      forall f {
        AppliedMembers(v, e, AllFiles(v), l, f);
      }
      OrderedByMembers(ApplyOne(v, e)[l], v[l]);
    }
  }

  lemma {:induction false} CompactionStep(v: Version, w: Work, limit: nat)
    requires WellFormed(v) && NumbersBelow(v, limit) && LegalWork(w) && Justified(v, Compacted(w))
    requires Grown(w.base, v) && (NoGap(w.inputs) ==> Taken(v, w.inputs) && Besides(v, w.inputs))
    requires NewNumbers(v, w.outputs) && forall i :: 0 <= i < |w.outputs| ==> w.outputs[i].number < limit
    ensures ValidEdit(EditOf(Compacted(w)))
    ensures GoodStep(v, Compacted(w), ApplyOne(v, EditOf(Compacted(w))), limit)
    ensures Contents(ApplyOne(v, EditOf(Compacted(w)))) <= Contents(v)
  {
    hide WellFormed, LegalInputs, NewNumbers, ApplyOne, CompactionEdit, WellCut, Concat, Kept, MergedInput,
      NumbersBelow, Contents, Grown, RoomFor, Besides, NoGap, OlderClosed, NoValueUnderMarker, Taken;
    HasRoom(v, w);
    CompactionKeepsWellFormed(w.base, v, w.inputs, w.merged, w.smallest, w.outputs, limit);
    CompactionFiles(v, w.inputs, w.outputs);
    CompactionShrinks(v, w);
  }

  /** Inputs without a gap always leave room for the outputs; others are let in only if they do. */
  lemma {:induction false} HasRoom(v: Version, w: Work)
    requires WellFormed(v) && LegalWork(w) && Justified(v, Compacted(w))
    requires NoGap(w.inputs) ==> Taken(v, w.inputs) && Besides(v, w.inputs)
    ensures Taken(v, w.inputs) && RoomFor(v, w.inputs, Concat(w.outputs))
  {
    hide LegalInputs, Kept, MergedInput, OlderClosed, NoValueUnderMarker, Besides, RoomFor, NoGap;
    if NoGap(w.inputs) {
      BesidesIsRoom(w.base, v, w.inputs, w.merged, w.smallest);
    }
  }

  lemma {:induction false} CompactionFiles(v: Version, c: Inputs, outputs: Level)
    requires WellFormed(v) && Taken(v, c) && WellCut(outputs) && NewNumbers(v, outputs)
    ensures ValidEdit(CompactionEdit(c, outputs))
    ensures forall l, f :: InLevel(ApplyOne(v, CompactionEdit(c, outputs)), l, f) ==> f in AllFiles(v) || f in outputs
  {
    InstallResult(v, c, outputs);
    var v' := ApplyOne(v, CompactionEdit(c, outputs));
    forall l: nat, f | InLevel(v', l, f)
      ensures f in AllFiles(v) || f in outputs
    {
      assert LevelResult(v, c, outputs, l, v'[l]);
    }
  }

  lemma {:induction false} CompactionShrinks(v: Version, w: Work)
    requires WellFormed(v) && LegalWork(w) && Concat(w.outputs) == ToWrite(w)
    requires Taken(v, w.inputs) && NewNumbers(v, w.outputs) && ValidEdit(CompactionEdit(w.inputs, w.outputs))
    ensures Contents(ApplyOne(v, CompactionEdit(w.inputs, w.outputs))) <= Contents(v)
  {
    hide WellFormed, LegalInputs, NewNumbers, ApplyOne, CompactionEdit, WellCut, Concat, Kept, MergedInput, OlderClosed,
      NoValueUnderMarker;
    var v' := ApplyOne(v, CompactionEdit(w.inputs, w.outputs));
    BeforeAndAfter(w.base, v, w.inputs, w.merged, w.smallest, w.outputs, iset{});
    assert Contents(v') == iset{} + Contents(v') && Contents(v) == iset{} + Contents(v);
  }

  lemma {:induction false} MoveStep(v: Version, level: nat, file: File, limit: nat)
    requires WellFormed(v) && NumbersBelow(v, limit) && Unique(Contents(v))
    requires LegalMove(v, level, file) && OlderClosed(v[level], [file])
    ensures ValidEdit(EditOf(Moved(level, file)))
    ensures GoodStep(v, Moved(level, file), ApplyOne(v, EditOf(Moved(level, file))), limit)
    ensures Contents(ApplyOne(v, EditOf(Moved(level, file)))) == Contents(v)
    ensures file in AllFiles(v) && file !in v[level + 1]
  {
    hide Shaped, Layered, Ordered, UniqueNumbers, ApplyOne, Unique, Contents, OlderClosed, NeverStale, LegalMove;
    TrivialMoveIsSafe(v, level, file);
    MoveApplied(v, level, file);
    MovedFile(v, level, file);
    MovedNumbers(v, level, file, ApplyOne(v, MoveEdit(level, file)), limit);
  }

  lemma {:induction false} MovedFile(v: Version, level: nat, file: File)
    requires Shaped(v) && LegalMove(v, level, file)
    ensures level + 1 < |v| && file in v[level] && file in AllFiles(v) && file !in v[level + 1]
  {
    NothingBelow(v, level, file);
    EntryInRange(file, file.largest);
  }

  lemma {:induction false} MovedNumbers(v: Version, level: nat, file: File, v': Version, limit: nat)
    requires MoveResult(v, level, file, v') && NumbersBelow(v, limit) && level < |v| && file in v[level]
    ensures OldOrAdded(v, Moved(level, file), v') && NumbersBelow(v', limit)
  {
    assert InLevel(v, level, file);
    forall l: nat, f | InLevel(v', l, f)
      ensures f in AllFiles(v) && f.number < limit
    {
      assert MovedLevel(v[l], v'[l], l, level, file);
      assert f in v[l] ==> InLevel(v, l, f);
    }
  }

  // ------------------------------------------------------------------
  // Recording the change.

  /** The change belongs to the work in hand. */
  ghost predicate Matching(s: State, ch: Change)
  {
    && Justified(s.current, ch)
    && (if ch.Flushed? then s.flush == Some(ch.table) else s.flush.None?)
    && (ch.Moved? ==> s.compaction.None?)
    && (ch.Compacted? ==> s.compaction == Some(ch.work) && NewNumbers(s.current, ch.work.outputs))
  }

  lemma {:induction false} ChangeStep(s: State, ch: Change)
    requires Inv(s) && Matching(s, ch)
    ensures ValidEdit(EditOf(ch))
    ensures GoodStep(s.current, ch, ApplyOne(s.current, EditOf(ch)), s.nextFile)
    ensures ch.Flushed? ==> s.imm.Some?
    ensures match ch
            case Flushed(_, _) => Contents(ApplyOne(s.current, EditOf(ch))) == Contents(s.current) + s.imm.value
            case Compacted(_) => Contents(ApplyOne(s.current, EditOf(ch))) <= Contents(s.current)
            case Moved(_, _) => Contents(ApplyOne(s.current, EditOf(ch))) == Contents(s.current)
  {
    hide WellFormed, NumbersInv, InstallInv, ManifestInv, CountersInv, HeldInv, AllStored, LegalWork,
      MemInv, ImmInv, ApplyOne, EditOf, GoodStep, LegalMove, LegalInputs, Kept, Contents;
    match ch
    case Flushed(level, table) =>
      MemtablesAreNewer(s);
      FlushStep(s.current, level, table, s.nextFile);
    case Compacted(w) =>
      CompactionStep(s.current, w, s.nextFile);
    case Moved(level, file) =>
      MoveStep(s.current, level, file, s.nextFile);
  }

  lemma {:induction false} OutputsAreUnused(s: State, outputs: Level)
    requires NumbersInv(s.universe, s.nextFile, s.current, s.flush, s.compaction, s.installing, s.pending)
    requires s.installing.None? && s.compaction.Some? && s.compaction.value.outputs == outputs
    requires DistinctNumbers(outputs)
    ensures NewNumbers(s.current, outputs)
  {
  }

  lemma {:induction false} LoggedChangeMatches(s: State, s': State, ch: Change)
    requires Inv(s) && LogChange(s, s', ch)
    ensures Matching(s, ch)
  {
    hide WellFormed, ManifestInv, CountersInv, HeldInv, AllStored, MemInv, ImmInv, ApplyOne, EditOf,
      LegalMove, LegalInputs, Kept, NumbersInv, NewNumbers;
    if ch.Compacted? {
      OutputsAreUnused(s, ch.work.outputs);
    }
  }

  lemma {:induction false} AddsAreNew(s: State, ch: Change)
    requires Inv(s) && Matching(s, ch) && ValidEdit(EditOf(ch))
    ensures AddsOnlyNew(s.current, EditOf(ch)) && AddsFrom(EditOf(ch), Added(ch))
  {
    hide ManifestInv, CountersInv, HeldInv, AllStored, MemInv, ImmInv, ApplyOne, Kept, Concat, NumbersInv, InstallInv,
      SnapshotInv, LegalWork, Shaped, Layered, Ordered, UniqueNumbers, Unique, CompactionInv, LegalMove, OlderClosed,
      NewNumbers, LegalTable;
    match ch
    case Flushed(level, table) =>
      if table.Some? {
        assert !InLevel(s.current, level, table.value);
      }
    case Compacted(w) =>
      CompactedTaken(s, w);
      OutputsAreNew(s.current, w.inputs, w.outputs);
    case Moved(level, file) =>
      MovedFile(s.current, level, file);
  }

  lemma {:induction false} CompactedTaken(s: State, w: Work)
    requires Inv(s) && s.compaction == Some(w)
    ensures Taken(s.current, w.inputs)
  {
    hide SnapshotInv, MemInv, ImmInv, FlushInv, NumbersInv, InstallInv, ManifestInv, CountersInv, HeldInv, AllStored,
      Layered, Ordered, UniqueNumbers, Unique, Grown, Besides, NoGap, Kept, MergedInput, OlderClosed, NoValueUnderMarker;
    StillTaken(w.base, s.current, w.inputs);
  }

  lemma {:induction false} NumbersGrow(s: State, s': State, ch: Change)
    requires Inv(s) && LogChange(s, s', ch) && Matching(s, ch)
    ensures NumbersInv(s'.universe, s'.nextFile, s'.current, s'.flush, s'.compaction, s'.installing, s'.pending)
  {
    hide VersionInv, ManifestInv, CountersInv, HeldInv, AllStored, MemInv, ImmInv, ApplyOne, Kept, Concat,
      InstallInv, SnapshotInv, EditOf, WellFormed, CompactionInv, LegalTable, LegalFlushLevel, NewNumbers;
    if ch.Moved? {
      assert ch.file in s.universe by {
        assert ch.file in Inputs(ch.level, [ch.file], []).upper;
        assert InLevel(s.current, ch.level, ch.file);
      }
      assert s'.universe == s.universe;
    } else if ch.Compacted? {
      OutputsJoin(s.universe, ch.work.outputs, s);
      assert s'.universe == s.universe + set f | f in ch.work.outputs;
    }
  }

  lemma {:induction false} OutputsJoin(universe: set<File>, outputs: Level, s: State)
    requires NumbersInv(universe, s.nextFile, s.current, s.flush, s.compaction, s.installing, s.pending)
    requires s.installing.None? && s.compaction.Some? && s.compaction.value.outputs == outputs
    requires CompactionInv(s.compaction, s.current, s.snapshots, s.lastSequence, s.nextFile, s.pending,
                           s.disk.tables, s.flushedTo)
    ensures NumbersFixFiles(universe + set f | f in outputs)
    ensures forall f :: f in outputs ==> f.number < s.nextFile
  {
    hide Grown, AllStored, NumbersBelow, Kept, Concat, WellCut, LegalInputs, MergedInput;
    var all := universe + set f | f in outputs;
    forall f, g | f in all && g in all && f.number == g.number
      ensures f == g
    {
      if f in outputs && g in outputs {
        var i :| 0 <= i < |outputs| && outputs[i] == f;
        var j :| 0 <= j < |outputs| && outputs[j] == g;
      }
    }
  }

  lemma {:induction false} EditsSnoc(manifest: seq<Record>, r: Record)
    ensures Edits(manifest + [r]) == Edits(manifest) + [r.edit]
  {
  }

  lemma {:induction false} ManifestGrows(manifest: seq<Record>, universe: set<File>, v: Version, r: Record,
                                         universe': set<File>)
    requires ManifestInv(manifest, universe, v) && |v| == NumLevels
    requires ValidEdit(r.edit) && AddsOnlyNew(v, r.edit) && AddsFrom(r.edit, universe') && universe <= universe'
    ensures ManifestInv(manifest + [r], universe', ApplyOne(v, r.edit))
  {
    EditsSnoc(manifest, r);
    var es := Edits(manifest);
    assert (es + [r.edit])[..|es|] == es;
    forall i | 0 <= i < |manifest + [r]|
      ensures AddsFrom(Edits(manifest + [r])[i], universe')
    {
      assert i < |manifest| ==> AddsFrom(es[i], universe);
    }
  }

  lemma {:induction false} CountersSnoc(manifest: seq<Record>, r: Record)
    requires r.counters.logNumber.Some? && r.counters.nextFile.Some? && r.counters.lastSequence.Some?
    ensures FinalCounters(manifest + [r]) == r.counters
  {
    assert (manifest + [r])[..|manifest|] == manifest;
  }

  lemma {:induction false} LogChangeKeepsInv(s: State, s': State, ch: Change)
    requires Inv(s) && LogChange(s, s', ch)
    ensures Inv(s')
  {
    hide VersionInv, SnapshotInv, MemInv, ImmInv, CompactionInv, FlushInv, NumbersInv, ManifestInv, HeldInv, AllStored,
      ApplyOne, EditOf, WellFormed, Justified, FinalCounters, NewNumbers, AddsOnlyNew, AddsFrom, OldOrAdded;
    assert ManifestInv(s.disk.manifest, s.universe, s.current);
    VersionHasLevels(s.current, s.nextFile, s.flushedTo);
    LoggedChangeMatches(s, s', ch);
    ChangeStep(s, ch);
    AddsAreNew(s, ch);
    NumbersGrow(s, s', ch);
    MoreToAddFrom(EditOf(ch), Added(ch), s'.universe);
    ManifestGrows(s.disk.manifest, s.universe, s.current, NewRecord(s, ch), s'.universe);
    CountersSnoc(s.disk.manifest, NewRecord(s, ch));
    PendingShrinks(s, s', ch);
    HeldFromMore(s.held, s.disk.tables, s.nextFile, s.universe, s'.universe);
  }

  lemma {:induction false} HeldFromMore(held: multiset<Version>, tables: Tables, nextFile: nat, universe: set<File>,
                                        universe': set<File>)
    requires HeldInv(held, tables, nextFile, universe) && universe <= universe'
    ensures HeldInv(held, tables, nextFile, universe')
  {
  }

  lemma {:induction false} VersionHasLevels(v: Version, nextFile: nat, flushedTo: nat)
    requires VersionInv(v, nextFile, flushedTo)
    ensures |v| == NumLevels
  {
  }

  lemma {:induction false} MoreToAddFrom(e: Edit, files: set<File>, files': set<File>)
    requires AddsFrom(e, files) && files <= files'
    ensures AddsFrom(e, files')
  {
  }

  lemma {:induction false} PendingShrinks(s: State, s': State, ch: Change)
    requires Inv(s) && LogChange(s, s', ch)
    ensures CompactionInv(s'.compaction, s'.current, s'.snapshots, s'.lastSequence, s'.nextFile, s'.pending,
                          s'.disk.tables, s'.flushedTo)
  {
    hide VersionInv, SnapshotInv, MemInv, ImmInv, ManifestInv, HeldInv, AllStored, ApplyOne, EditOf, WellFormed, Justified,
      FinalCounters, LegalWork, Grown;
  }

  // ------------------------------------------------------------------
  // Installing the change.

  lemma {:induction false} InstallingMatches(s: State)
    requires Inv(s) && s.installing.Some?
    ensures Matching(s, s.installing.value)
  {
    hide VersionInv, SnapshotInv, MemInv, ImmInv, CompactionInv, FlushInv, NumbersInv, ManifestInv, HeldInv, AllStored,
      CountersInv, ApplyOne, EditOf, Justified, NewNumbers;
  }

  lemma {:induction false} InstallVersion(s: State, s': State)
    requires Inv(s) && Install(s, s')
    ensures VersionInv(s'.current, s'.nextFile, s'.flushedTo)
  {
    hide SnapshotInv, MemInv, ImmInv, CompactionInv, FlushInv, NumbersInv, InstallInv, ManifestInv, HeldInv, AllStored,
      CountersInv, ApplyOne, EditOf, Justified, Matching, WellFormed, NewerThan;
    var ch := s.installing.value;
    InstallingMatches(s);
    ChangeStep(s, ch);
    MemtablesAreNewer(s);
    if ch.Flushed? {
      ImmUnique(s);
      SequencesAfterFlush(s, s');
    } else {
      forall e | InVersion(s'.current, e)
        ensures InVersion(s.current, e)
      {
        assert e in Contents(s'.current);
      }
    }
  }

  lemma {:induction false} SequencesAfterFlush(s: State, s': State)
    requires Contents(s'.current) == Contents(s.current) + ImmEntries(s)
    requires forall e :: InVersion(s.current, e) ==> e.seqno <= s.flushedTo
    requires forall e :: e in ImmEntries(s) ==> s.flushedTo < e.seqno <= s.switchedAt
    requires s.flushedTo <= s.switchedAt
    ensures forall e :: InVersion(s'.current, e) ==> e.seqno <= s.switchedAt
  {
    forall e | InVersion(s'.current, e)
      ensures e.seqno <= s.switchedAt
    {
      assert e in Contents(s'.current);
    }
  }

  lemma {:induction false} ImmUnique(s: State)
    requires Inv(s) && s.imm.Some?
    ensures Unique(Contents(s.current) + s.imm.value)
  {
    hide WellFormed, SnapshotInv, MemInv, CompactionInv, FlushInv, NumbersInv, InstallInv, ManifestInv, HeldInv, AllStored,
      CountersInv, ApplyOne, EditOf;
    MemtablesAreNewer(s);
    forall d, e | d in s.imm.value && e in s.imm.value && d.seqno == e.seqno
      ensures d == e
    {
      ChainUnique(s.disk.logs[s.logNumber], s.flushedTo, s.switchedAt, d, e);
    }
  }

  lemma {:induction false} InstallStored(s: State, s': State)
    requires Inv(s) && Install(s, s')
    ensures AllStored(s'.disk.tables, s'.current)
    ensures forall l, f :: InLevel(s'.current, l, f) ==> f in s.universe
  {
    var ch := s.installing.value;
    InstallingMatches(s);
    ChangeStep(s, ch);
    AddedIsStored(s);
    hide VersionInv, SnapshotInv, MemInv, ImmInv, CompactionInv, FlushInv, InstallInv, ManifestInv, HeldInv,
      CountersInv, ApplyOne, EditOf, Justified, Matching, WellFormed;
    forall l, f | InLevel(s'.current, l, f)
      ensures Stored(s.disk.tables, f) && f in s.universe
    {
      if f in AllFiles(s.current) {
        var m :| 0 <= m < |s.current| && f in s.current[m];
        assert InLevel(s.current, m, f);
      }
    }
  }

  lemma {:induction false} AddedIsStored(s: State)
    requires Inv(s) && s.installing.Some?
    ensures forall f :: f in Added(s.installing.value) ==> Stored(s.disk.tables, f) && f in s.universe
  {
    hide Shaped, Layered, Ordered, UniqueNumbers, Unique, SnapshotInv, MemInv, ImmInv, ManifestInv, HeldInv, CountersInv,
      ApplyOne, EditOf, LegalWork, LegalMove, OlderClosed, Grown, NewNumbers, LegalFlushLevel, NoGap, RoomFor, Besides,
      Concat, ToWrite, NumbersBelow, LegalTable;
    InstallingMatches(s);
    var ch := s.installing.value;
    if ch.Moved? {
      MovedFile(s.current, ch.level, ch.file);
      assert InLevel(s.current, ch.level, ch.file);
    }
  }

  lemma {:induction false} InstallCompaction(s: State, s': State)
    requires Inv(s) && Install(s, s')
    ensures CompactionInv(s'.compaction, s'.current, s'.snapshots, s'.lastSequence, s'.nextFile, s'.pending,
                          s'.disk.tables, s'.flushedTo)
  {
    hide VersionInv, SnapshotInv, MemInv, ImmInv, FlushInv, NumbersInv, ManifestInv, HeldInv, AllStored,
      CountersInv, ApplyOne, EditOf, Justified, WellFormed, LegalWork, Grown, NewerThan, Besides, Taken, NoGap;
    var ch := s.installing.value;
    MemtablesAreNewer(s);
    if ch.Flushed? && s.compaction.Some? {
      FlushGrows(s, s');
      FlushLeavesRoom(s, s');
    }
  }

  /** What installing a flush does to the version. */
  lemma {:induction false} FlushInstalled(s: State, s': State)
    requires Inv(s) && Install(s, s') && s.installing.value.Flushed?
    ensures Shaped(s.current) && |s'.current| == |s.current| == NumLevels
    ensures var ch := s.installing.value;
      if ch.table.None? then s'.current == s.current
      else
        && ValidFile(ch.table.value) && LegalFlushLevel(s.current, ch.level, ch.table.value)
        && FlushResult(s.current, ch.level, ch.table.value, s'.current)
        && s.imm.Some? && Entries(ch.table.value) == s.imm.value
  {
    InstallingMatches(s);
    hide SnapshotInv, MemInv, ImmInv, CompactionInv, NumbersInv, InstallInv, ManifestInv, HeldInv, AllStored, CountersInv;
    var ch := s.installing.value;
    if ch.table.Some? {
      FlushApplied(s.current, ch.level, ch.table.value);
    } else {
      NoChange(s.current);
    }
  }

  /** A flush inside a compaction adds only newer entries to what the compaction read. */
  lemma {:induction false} FlushGrows(s: State, s': State)
    requires Inv(s) && Install(s, s') && s.installing.value.Flushed? && s.compaction.Some?
    ensures Grown(s.compaction.value.base, s'.current)
  {
    hide VersionInv, SnapshotInv, MemInv, ImmInv, FlushInv, NumbersInv, InstallInv, ManifestInv, HeldInv, AllStored,
      CountersInv, ApplyOne, EditOf, LegalWork, Shaped, LegalFlushLevel, ValidFile, Besides, Taken, NoGap;
    var ch, b := s.installing.value, s.compaction.value.base;
    FlushInstalled(s, s');
    forall l: nat, f | InLevel(b, l, f)
      ensures InLevel(s'.current, l, f)
    {
      assert InLevel(s.current, l, f);
      assert ch.table.Some? ==> FlushedLevel(s.current[l], s'.current[l], l == ch.level, ch.table.value);
    }
    forall l: nat, m: nat, f, g | InLevel(b, l, f) && InLevel(s'.current, m, g) && !InLevel(b, m, g)
      ensures Newer(g, f)
    {
      assert ch.table.Some? ==> FlushedLevel(s.current[m], s'.current[m], m == ch.level, ch.table.value);
      if !InLevel(s.current, m, g) {
        NewOverBase(s, b, l, f, g);
      }
    }
  }

  /** ... and puts nothing between inputs that leave no gap. */
  lemma {:induction false} FlushLeavesRoom(s: State, s': State)
    requires Inv(s) && Install(s, s') && s.installing.value.Flushed? && s.compaction.Some?
    ensures var c := s.compaction.value.inputs;
      NoGap(c) ==> Taken(s'.current, c) && Besides(s'.current, c)
  {
    hide VersionInv, SnapshotInv, MemInv, ImmInv, FlushInv, NumbersInv, InstallInv, ManifestInv, HeldInv, AllStored,
      CountersInv, ApplyOne, EditOf, LegalWork, Shaped, LegalFlushLevel, ValidFile, Besides, Taken, Grown, FlushResult;
    var ch, c := s.installing.value, s.compaction.value.inputs;
    FlushInstalled(s, s');
    if NoGap(c) && ch.table.Some? {
      FlushKeepsBesides(s.current, ch.level, ch.table.value, s'.current, c);
    }
  }

  lemma {:induction false} NewOverBase(s: State, b: Version, l: nat, f: File, g: File)
    requires Inv(s) && s.compaction.Some? && b == s.compaction.value.base && s.imm.Some?
    requires InLevel(b, l, f) && Entries(g) == s.imm.value
    ensures Newer(g, f)
  {
    MemtablesAreNewer(s);
    hide VersionInv, SnapshotInv, MemInv, ImmInv, FlushInv, NumbersInv, InstallInv, ManifestInv, HeldInv, AllStored,
      CountersInv, ApplyOne, EditOf, LegalWork, Grown;
    forall d, e | d in g.entries && e in f.entries && d.key == e.key
      ensures d.seqno > e.seqno
    {
      assert Holds(b[l], e) && InVersion(b, e);
      assert d in Entries(g) && d in ImmEntries(s);
    }
  }

  lemma {:induction false} InstallKeepsInv(s: State, s': State)
    requires Inv(s) && Install(s, s')
    ensures Inv(s')
  {
    hide VersionInv, SnapshotInv, MemInv, ImmInv, CompactionInv, NumbersInv, ManifestInv, HeldInv, AllStored,
      ApplyOne, EditOf, WellFormed, Justified, FinalCounters, NewNumbers, LegalTable;
    InstallVersion(s, s');
    InstallStored(s, s');
    InstallCompaction(s, s');
    InstallNumbers(s, s');
    InstallLogs(s, s');
  }

  lemma {:induction false} InstallNumbers(s: State, s': State)
    requires Inv(s) && Install(s, s')
    requires forall l, f :: InLevel(s'.current, l, f) ==> f in s.universe
    ensures NumbersInv(s'.universe, s'.nextFile, s'.current, s'.flush, s'.compaction, s'.installing, s'.pending)
  {
    hide VersionInv, SnapshotInv, MemInv, ImmInv, CompactionInv, FlushInv, ManifestInv, HeldInv, AllStored,
      ApplyOne, EditOf, WellFormed, Justified, FinalCounters, NewNumbers;
  }

  lemma {:induction false} InstallLogs(s: State, s': State)
    requires Inv(s) && Install(s, s')
    ensures MemInv(s'.disk.logs, s'.logfile, s'.writing, s'.mem, s'.switchedAt, s'.lastSequence)
    ensures ImmInv(s'.disk.logs, s'.logfile, s'.logNumber, s'.imm, s'.flushedTo, s'.switchedAt)
  {
    hide VersionInv, SnapshotInv, MemInv, CompactionInv, NumbersInv, ManifestInv, HeldInv, AllStored,
      ApplyOne, EditOf, WellFormed, Justified, FinalCounters, NewNumbers, Chained, LogEntries;
  }
}

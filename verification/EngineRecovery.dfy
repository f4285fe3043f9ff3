/**
 Recovery. Opening the database after a crash, in any reachable state, restores the
 engine's invariant and the live database with the group in flight, if there is one, made
 whole: the manifest gives back the last logged version, the logs that its log number
 selects give back the memtables, and every file either needs is still on disk.
 */
module EngineRecovery {
  import opened InternalKeys
  import opened Versions
  import opened LevelShape
  import opened VersionBuilder
  import opened CompactionMeaning
  import opened VersionSteps
  import opened Batches
  import opened EngineState
  import opened EngineInvariant
  import opened EngineInstall
  import opened EngineReads

  // ------------------------------------------------------------------
  // The log chunks that become tables.

  lemma {:induction false} SplitChain(a: seq<Batch>, b: seq<Batch>, from: nat, to: nat) returns (mid: nat)
    requires Chained(a + b, from, to)
    ensures Chained(a, from, mid) && Chained(b, mid, to)
  {
    if b == [] {
      assert a + b == a;
      mid := to;
    } else {
      var n := |b| - 1;
      assert (a + b)[..|a + b| - 1] == a + b[..n];
      mid := SplitChain(a, b[..n], from, b[n].first - 1);
    }
  }

  /** The largest sequence number found in a chain of batches is its end. */
  lemma {:induction false} ChainMax(bs: seq<Batch>, from: nat, to: nat, least: nat)
    requires Chained(bs, from, to) && least <= to
    ensures MaxSequence(bs, least) <= to && least <= MaxSequence(bs, least)
    ensures bs != [] ==> MaxSequence(bs, least) == to
  {
    if bs != [] {
      var init, b := bs[..|bs| - 1], bs[|bs| - 1];
      if least <= b.first - 1 {
        ChainMax(init, from, b.first - 1, least);
      } else {
        MaxFromAbove(init, from, b.first - 1, least);
      }
    }
  }

  lemma {:induction false} MaxFromAbove(bs: seq<Batch>, from: nat, to: nat, least: nat)
    requires Chained(bs, from, to) && to <= least
    ensures MaxSequence(bs, least) == least
  {
    if bs != [] {
      var init, b := bs[..|bs| - 1], bs[|bs| - 1];
      MaxFromAbove(init, from, b.first - 1, least);
    }
  }

  // ------------------------------------------------------------------
  // One edit that adds many files is as many flushes to level zero.

  /** Each file has a larger number than the version's files and the files before it. */
  ghost predicate Rising(v: Version, files: Level)
  {
    && (forall i, j :: 0 <= i < j < |files| ==> files[i].number < files[j].number)
    && (forall i :: 0 <= i < |files| ==> NumbersBelow(v, files[i].number))
  }

  lemma {:induction false} AddAllMembers(l: nat, files: Level, m: nat, f: File)
    ensures (m, f) in AddAll(l, files) <==> m == l && f in files
  {
    if f in files {
      var i :| 0 <= i < |files| && files[i] == f;
      assert AddAll(l, files)[i] == (l, f);
    }
  }

  lemma {:induction false} RisingFixesNumbers(v: Version, files: Level)
    requires UniqueNumbers(v) && Rising(v, files)
    ensures NumbersFixFiles(AllFiles(v) + set f | f in files)
  {
    assert NewNumbers(v, files);
    NumbersStayFixed(v, files);
  }

  /** A level once `files` are added to it, or to another level. */
  ghost predicate AddedTo(before: Level, after: Level, here: bool, files: Level)
  {
    StrictOrder(after) && forall f :: f in after <==> f in before || (here && f in files)
  }

  /** What the edit of a recovered log makes of the version. */
  lemma {:induction false} AddedLevel(v: Version, files: Level, l: nat)
    requires WellFormed(v) && Rising(v, files) && l < NumLevels
    ensures ValidEdit(Edit({}, AddAll(0, files)))
    ensures AddsOnlyNew(v, Edit({}, AddAll(0, files)))
    ensures AddedTo(v[l], ApplyOne(v, Edit({}, AddAll(0, files)))[l], l == 0, files)
  {
    var e, all := Edit({}, AddAll(0, files)), AllFiles(v) + set f | f in files;
    RisingFixesNumbers(v, files);
    forall i | 0 <= i < |e.added|
      ensures e.added[i].1 !in v[0] && e.added[i].1 in all
    {
      assert e.added[i].1 == files[i];
      assert NumbersBelow(v, files[i].number);
      assert files[i] in v[0] ==> InLevel(v, 0, files[i]);
    }
    assert AddsFrom(e, all);
    assert StrictOrder(v[l]) && forall f :: f in v[l] ==> f in all;
    StepInOrder(v, e, all, l);
    forall f
      ensures f in ApplyOne(v, e)[l] <==> f in v[l] || (l == 0 && f in files)
    {
      AppliedMembers(v, e, all, l, f);
      AddAllMembers(0, files, l, f);
    }
  }

  /** Adding the last file to the rest's result. */
  lemma {:induction false} AddLast(v: Version, files: Level)
    requires WellFormed(v) && Rising(v, files) && files != []
    requires ValidEdit(Edit({}, AddAll(0, files[..|files| - 1])))
    requires WellFormed(ApplyOne(v, Edit({}, AddAll(0, files[..|files| - 1]))))
    requires NumbersBelow(ApplyOne(v, Edit({}, AddAll(0, files[..|files| - 1]))), files[|files| - 1].number)
    ensures ValidEdit(Edit({}, AddAll(0, files)))
    ensures ValidEdit(FlushEdit(0, files[|files| - 1]))
    ensures ApplyOne(v, Edit({}, AddAll(0, files)))
         == ApplyOne(ApplyOne(v, Edit({}, AddAll(0, files[..|files| - 1]))), FlushEdit(0, files[|files| - 1]))
  {
    assert |v| == NumLevels;
    hide ApplyOne, WellFormed, NumbersBelow, AddsOnlyNew, AddedTo, FlushedLevel, StrictOrder;
    var n := |files| - 1;
    var init, f := files[..n], files[n];
    var u := ApplyOne(v, Edit({}, AddAll(0, init)));
    FlushApplied(u, 0, f);
    FewerRising(v, files);
    AddedLevel(v, files, 0);
    var w, w' := ApplyOne(u, FlushEdit(0, f)), ApplyOne(v, Edit({}, AddAll(0, files)));
    forall l | 0 <= l < NumLevels
      ensures w[l] == w'[l]
    {
      AddedLevel(v, init, l);
      AddedLevel(v, files, l);
      SameLevel(v[l], u[l], w[l], w'[l], l == 0, files);
    }
  }

  lemma {:induction false} SameLevel(before: Level, middle: Level, after: Level, after': Level, here: bool,
                                     files: Level)
    requires files != [] && AddedTo(before, middle, here, files[..|files| - 1])
    requires FlushedLevel(middle, after, here, files[|files| - 1]) && StrictOrder(after)
    requires AddedTo(before, after', here, files)
    ensures after == after'
  {
    assert files == files[..|files| - 1] + [files[|files| - 1]];
    OrderedByMembers(after, after');
  }

  /** Adding `files` at level zero gives a good version that also holds `es`. */
  ghost predicate Absorbs(v: Version, files: Level, es: iset<Entry>)
  {
    && |v| == NumLevels && ValidEdit(Edit({}, AddAll(0, files)))
    && var v' := ApplyOne(v, Edit({}, AddAll(0, files)));
       && WellFormed(v') && Contents(v') == Contents(v) + es
       && (forall l, f :: InLevel(v', l, f) ==> InLevel(v, l, f) || f in files)
  }

  /** Replaying chained batches into level-zero tables keeps the version's invariants. */
  lemma {:induction false} TablesKeepWellFormed(v: Version, chunks: seq<seq<Batch>>, files: Level, from: nat, to: nat)
    requires WellFormed(v) && (forall e :: InVersion(v, e) ==> e.seqno <= from)
    requires TablesOf(chunks, files) && Chained(Flatten(chunks), from, to) && Rising(v, files)
    ensures Absorbs(v, files, LogEntries(Flatten(chunks)))
    decreases |chunks|
  {
    hide WellFormed, Absorbs, Rising, LogEntries, Chained;
    if chunks == [] {
      AbsorbsNothing(v);
    } else {
      var n := |chunks| - 1;
      var mid := SplitChain(Flatten(chunks[..n]), chunks[n], from, to);
      EntriesConcat(Flatten(chunks[..n]), chunks[n]);
      if LogEntries(chunks[n]) == iset{} {
        TablesKeepWellFormed(v, chunks[..n], files, from, mid);
        assert LogEntries(Flatten(chunks)) == LogEntries(Flatten(chunks[..n]));
      } else {
        FewerRising(v, files);
        TablesKeepWellFormed(v, chunks[..n], files[..|files| - 1], from, mid);
        LastTable(v, chunks[..n], files, from, mid, files[|files| - 1], chunks[n], to);
      }
    }
  }

  lemma {:induction false} AbsorbsNothing(v: Version)
    requires WellFormed(v)
    ensures Absorbs(v, [], LogEntries([]))
  {
    NoChange(v);
    assert AddAll(0, []) == [];
    assert LogEntries([]) == iset{};
  }

  lemma {:induction false} FewerRising(v: Version, files: Level)
    requires Rising(v, files) && files != []
    ensures Rising(v, files[..|files| - 1])
  {
  }

  lemma {:induction false} LastTable(v: Version, chunks: seq<seq<Batch>>, files: Level, from: nat, mid: nat,
                                     last: File, chunk: seq<Batch>, to: nat)
    requires WellFormed(v) && (forall e :: InVersion(v, e) ==> e.seqno <= from)
    requires Rising(v, files) && files != [] && last == files[|files| - 1]
    requires ValidFile(last) && Entries(last) == LogEntries(chunk)
    requires Chained(Flatten(chunks), from, mid) && Chained(chunk, mid, to)
    requires Absorbs(v, files[..|files| - 1], LogEntries(Flatten(chunks)))
    ensures Absorbs(v, files, LogEntries(Flatten(chunks)) + LogEntries(chunk))
  {
    hide WellFormed, ApplyOne, ValidFile, AddAll, Flatten, LogEntries, Contents, NewerThan, Chained, Entries, Rising;
    var u := ApplyOne(v, Edit({}, AddAll(0, files[..|files| - 1])));
    BelowLast(v, u, files);
    ChunkIsNewer(v, u, chunks, from, mid, last, chunk, to);
    AddLast(v, files);
    assert LegalFlushLevel(u, 0, last);
    FlushKeepsWellFormed(u, 0, last);
    OnlyTheseFiles(v, u, files);
  }

  lemma {:induction false} BelowLast(v: Version, u: Version, files: Level)
    requires Rising(v, files) && files != []
    requires forall l, f :: InLevel(u, l, f) ==> InLevel(v, l, f) || f in files[..|files| - 1]
    ensures NumbersBelow(u, files[|files| - 1].number)
  {
    assert NumbersBelow(v, files[|files| - 1].number);
  }

  lemma {:induction false} OnlyTheseFiles(v: Version, u: Version, files: Level)
    requires WellFormed(u) && files != [] && NumbersBelow(u, files[|files| - 1].number)
    requires forall l, f :: InLevel(u, l, f) ==> InLevel(v, l, f) || f in files[..|files| - 1]
    ensures ValidEdit(FlushEdit(0, files[|files| - 1]))
    ensures forall l, f :: InLevel(ApplyOne(u, FlushEdit(0, files[|files| - 1])), l, f) ==> InLevel(v, l, f) || f in files
  {
    var last := files[|files| - 1];
    FlushApplied(u, 0, last);
    var v' := ApplyOne(u, FlushEdit(0, last));
    forall l: nat, f | InLevel(v', l, f)
      ensures InLevel(v, l, f) || f in files
    {
      assert FlushedLevel(u[l], v'[l], l == 0, last);
      assert InLevel(u, l, f) || f == last;
    }
  }

  lemma {:induction false} ChunkIsNewer(v: Version, u: Version, chunks: seq<seq<Batch>>, from: nat, mid: nat,
                                        last: File, chunk: seq<Batch>, to: nat)
    requires forall e :: InVersion(v, e) ==> e.seqno <= from
    requires Entries(last) == LogEntries(chunk)
    requires Chained(Flatten(chunks), from, mid) && Chained(chunk, mid, to)
    requires Contents(u) == Contents(v) + LogEntries(Flatten(chunks))
    ensures NewerThan(Entries(last), u)
  {
    ChainBounds(Flatten(chunks), from, mid);
    ChainBounds(chunk, mid, to);
    forall d, e | d in Entries(last) && InVersion(u, e) && d.key == e.key
      ensures d.seqno > e.seqno
    {
      assert d in LogEntries(chunk);
      assert e in Contents(u);
    }
  }

  // ------------------------------------------------------------------
  // The new manifest starts with a snapshot of the version.

  lemma {:induction false} SnapshotMembers(v: Version, n: nat, l: nat, f: File)
    requires n <= |v|
    ensures (l, f) in SnapshotFiles(v, n) <==> l < n && f in v[l]
  {
    if n > 0 {
      SnapshotMembers(v, n - 1, l, f);
      AddAllMembers(n - 1, v[n - 1], l, f);
    }
  }

  lemma {:induction false} SnapshotIsValid(v: Version)
    requires |v| == NumLevels
    ensures ValidEdit(SnapshotEdit(v)) && AddsFrom(SnapshotEdit(v), AllFiles(v))
  {
    var e := SnapshotEdit(v);
    forall i | 0 <= i < |e.added|
      ensures e.added[i].0 < NumLevels && e.added[i].1 in AllFiles(v)
    {
      var (l, f) := e.added[i];
      assert e.added[i] == (l, f);
      SnapshotMembers(v, |v|, l, f);
    }
  }

  /** `WriteSnapshot` followed by `Recover` is the identity on versions. */
  lemma {:induction false} SnapshotRestores(v: Version)
    requires WellFormed(v)
    ensures ValidEdit(SnapshotEdit(v)) && AddsFrom(SnapshotEdit(v), AllFiles(v))
    ensures ApplyOne(EmptyVersion, SnapshotEdit(v)) == v
  {
    var e := SnapshotEdit(v);
    SnapshotIsValid(v);
    NumbersFixed(v);
    forall l | 0 <= l < NumLevels
      ensures ApplyOne(EmptyVersion, e)[l] == v[l]
    {
      assert EmptyVersion[l] == [];
      NothingYet(e);
      StepInOrder(EmptyVersion, e, AllFiles(v), l);
      forall f
        ensures f in ApplyOne(EmptyVersion, e)[l] <==> f in v[l]
      {
        AppliedMembers(EmptyVersion, e, AllFiles(v), l, f);
        SnapshotMembers(v, |v|, l, f);
      }
      OrderedByMembers(ApplyOne(EmptyVersion, e)[l], v[l]);
    }
  }

  lemma {:induction false} NothingYet(e: Edit)
    requires ValidEdit(e)
    ensures AddsOnlyNew(EmptyVersion, e)
  {
    forall i | 0 <= i < |e.added|
      ensures e.added[i].1 !in EmptyVersion[e.added[i].0]
    {
      assert EmptyVersion[e.added[i].0] == [];
    }
  }

  lemma {:induction false} NewManifest(v: Version, files: Level, c: Counters)
    requires WellFormed(v) && Rising(v, files)
    ensures ValidEdit(Edit({}, AddAll(0, files)))
    ensures ManifestInv([Record(SnapshotEdit(v), Counters(None, None, None)), Record(Edit({}, AddAll(0, files)), c)],
                        AllFiles(v) + (set f | f in files), ApplyOne(v, Edit({}, AddAll(0, files))))
  {
    hide WellFormed, ApplyOne, SnapshotEdit, ManifestInv, AllFiles, Rising, AddedTo, AddsOnlyNew, AddAll;
    HasLevels(v);
    var first, second := Record(SnapshotEdit(v), Counters(None, None, None)), Record(Edit({}, AddAll(0, files)), c);
    var all := AllFiles(v) + (set f | f in files);
    SnapshotRestores(v);
    AddedLevel(v, files, 0);
    FirstRecord(v, first);
    AddAllFrom(files, all);
    ManifestGrows([first], AllFiles(v), v, second, all);
    assert [first] + [second] == [first, second];
  }

  lemma {:induction false} HasLevels(v: Version)
    requires WellFormed(v)
    ensures |v| == NumLevels
  {
  }

  lemma {:induction false} AddAllFrom(files: Level, all: set<File>)
    requires forall f :: f in files ==> f in all
    ensures AddsFrom(Edit({}, AddAll(0, files)), all)
  {
    forall p | p in AddAll(0, files)
      ensures p.1 in all
    {
      AddAllMembers(0, files, p.0, p.1);
      assert p == (p.0, p.1);
    }
  }

  lemma {:induction false} FirstRecord(v: Version, r: Record)
    requires ValidEdit(r.edit) && |v| == NumLevels && AddsFrom(r.edit, AllFiles(v)) && ApplyOne(EmptyVersion, r.edit) == v
    ensures ManifestInv([r], AllFiles(v), v)
  {
    assert ManifestInv([], AllFiles(v), EmptyVersion);
    NothingYet(r.edit);
    ManifestGrows([], AllFiles(v), EmptyVersion, r, AllFiles(v));
    assert [] + [r] == [r];
  }

  // ------------------------------------------------------------------
  // Opening after a crash.

  /** What recovery reads back: the version last logged and the batches not yet in it. */
  lemma {:induction false} ManifestGivesVersion(s: State)
    requires Inv(s) && s.installing.None?
    ensures Recoverable(s.disk) && ManifestVersion(s.disk) == s.current
    ensures FinalCounters(s.disk.manifest).logNumber == Some(s.logNumber)
    ensures FinalCounters(s.disk.manifest).nextFile.value <= s.nextFile
    ensures NumbersBelow(s.current, FinalCounters(s.disk.manifest).nextFile.value)
  {
    hide VersionInv, SnapshotInv, MemInv, ImmInv, CompactionInv, FlushInv, InstallInv, HeldInv, AllStored, FinalCounters,
      NumbersBelow;
    ReplayMatches(Edits(s.disk.manifest), s.universe);
  }

  /** The batches replayed are one chain and hold exactly the memtables and the group in flight. */
  lemma {:induction false} LogsGiveMemtables(s: State, hi: nat)
    requires Inv(s) && s.installing.None? && (forall n :: n in s.disk.logs ==> n < hi)
    ensures var bs := Collect(s.disk.logs, s.logNumber, hi);
      && Chained(bs, s.flushedTo, s.lastSequence + InFlightCount(s))
      && LogEntries(bs) == MemEntries(s) + InFlight(s)
  {
    hide VersionInv, SnapshotInv, MemInv, CompactionInv, FlushInv, NumbersInv, InstallInv, ManifestInv, CountersInv, HeldInv,
      AllStored, Collect, Chained, LogEntries;
    ReplayIs(s, hi);
    CurrentLogChain(s);
    var log := s.disk.logs[s.logfile];
    if s.imm.Some? {
      var older := s.disk.logs[s.logNumber];
      ChainConcat(older, log, s.flushedTo, s.switchedAt, s.lastSequence + InFlightCount(s));
      EntriesConcat(older, log);
    }
  }

  /** Recovery ends with the last sequence number, past the group in flight. */
  lemma {:induction false} LastSequenceRecovered(s: State, hi: nat)
    requires Inv(s) && s.installing.None? && (forall n :: n in s.disk.logs ==> n < hi) && s.logfile < hi
    ensures Recoverable(s.disk)
    ensures MaxSequence(Collect(s.disk.logs, s.logNumber, hi), FinalCounters(s.disk.manifest).lastSequence.value)
         == s.lastSequence + InFlightCount(s)
  {
    hide VersionInv, SnapshotInv, CompactionInv, FlushInv, NumbersInv, InstallInv, ManifestInv, HeldInv,
      AllStored, Collect, Chained, LogEntries, FinalCounters, NumbersBelow;
    ManifestGivesVersion(s);
    LogsGiveMemtables(s, hi);
    ReplayIs(s, hi);
    ReplayIs(s, s.logfile + 1);
    ChainMax(Collect(s.disk.logs, s.logNumber, hi), s.flushedTo, s.lastSequence + InFlightCount(s),
             FinalCounters(s.disk.manifest).lastSequence.value);
  }

  /** The version an open installs. */
  ghost function OpenedVersion(v: Version, files: Level): Version
    requires |v| == NumLevels && ValidEdit(Edit({}, AddAll(0, files)))
  {
    ApplyOne(v, Edit({}, AddAll(0, files)))
  }

  lemma {:induction false} OpenRises(s: State, s': State, hi: nat, chunks: seq<seq<Batch>>, files: Level, newLog: nat)
    requires Inv(s) && s.installing.None? && CrashAndOpen(s, s', hi, chunks, files, newLog)
    ensures Rising(s.current, files) && NumbersBelow(s.current, newLog)
    ensures forall f :: f in files ==> f.number < newLog
  {
    hide VersionInv, SnapshotInv, MemInv, ImmInv, CompactionInv, FlushInv, NumbersInv, InstallInv, ManifestInv, CountersInv,
      HeldInv, AllStored, FinalCounters, Opened, TablesOf;
    ManifestGivesVersion(s);
  }

  /** The recovered version holds what was in the version, the memtables and the group in flight. */
  lemma {:induction false} OpenContents(s: State, s': State, hi: nat, chunks: seq<seq<Batch>>, files: Level,
                                        newLog: nat)
    requires Inv(s) && s.installing.None? && CrashAndOpen(s, s', hi, chunks, files, newLog)
    ensures Absorbs(s.current, files, MemEntries(s) + InFlight(s))
    ensures s'.lastSequence == s.lastSequence + InFlightCount(s)
    ensures s'.current == OpenedVersion(s.current, files)
  {
    hide SnapshotInv, MemInv, ImmInv, CompactionInv, FlushInv, NumbersInv, InstallInv, ManifestInv, CountersInv, Unique,
      HeldInv, AllStored, FinalCounters, TablesOf, Absorbs, WellFormed, Chained, LogEntries, Collect, ApplyOne, Rising,
      NumbersBelow, MaxSequence, Flatten, Contents, SnapshotEdit, StoreAll, AllFiles;
    ManifestGivesVersion(s);
    LogfileBelow(s, hi);
    LogsGiveMemtables(s, hi);
    LastSequenceRecovered(s, hi);
    OpenRises(s, s', hi, chunks, files, newLog);
    TablesKeepWellFormed(s.current, chunks, files, s.flushedTo, s.lastSequence + InFlightCount(s));
    EffectOfAbsorbing(s.current, files, MemEntries(s) + InFlight(s));
  }

  lemma {:induction false} LogfileBelow(s: State, hi: nat)
    requires Inv(s) && (forall n :: n in s.disk.logs ==> n < hi)
    ensures s.logfile < hi
  {
    hide VersionInv, SnapshotInv, CompactionInv, FlushInv, NumbersInv, InstallInv, ManifestInv, CountersInv,
      HeldInv, AllStored, ImmInv;
  }

  lemma {:induction false} EffectOfAbsorbing(v: Version, files: Level, es: iset<Entry>)
    requires Absorbs(v, files, es)
    ensures |v| == NumLevels && ValidEdit(Edit({}, AddAll(0, files)))
    ensures WellFormed(OpenedVersion(v, files)) && Contents(OpenedVersion(v, files)) == Contents(v) + es
    ensures forall l, f :: InLevel(OpenedVersion(v, files), l, f) ==> InLevel(v, l, f) || f in files
  {
  }

  lemma {:induction false} OpenVersionInv(s: State, s': State, hi: nat, chunks: seq<seq<Batch>>, files: Level,
                                          newLog: nat)
    requires Inv(s) && s.installing.None? && CrashAndOpen(s, s', hi, chunks, files, newLog)
    ensures VersionInv(s'.current, newLog + 1, s'.lastSequence)
    ensures Everything(s') == Everything(s) + InFlight(s)
  {
    hide SnapshotInv, MemInv, ImmInv, CompactionInv, FlushInv, NumbersInv, InstallInv, ManifestInv, CountersInv,
      HeldInv, AllStored, FinalCounters, TablesOf, WellFormed, Chained, LogEntries, Collect, ApplyOne, Rising, Absorbs,
      OpenedVersion;
    OpenRises(s, s', hi, chunks, files, newLog);
    OpenContents(s, s', hi, chunks, files, newLog);
    EffectOfAbsorbing(s.current, files, MemEntries(s) + InFlight(s));
    AllUnique(s);
    SequencesBelow(s);
    assert Contents(s'.current) == Everything(s) + InFlight(s);
    forall e | InVersion(s'.current, e)
      ensures e.seqno <= s'.lastSequence
    {
      assert e in Contents(s'.current);
    }
  }

  lemma {:induction false} SequencesBelow(s: State)
    requires Inv(s)
    ensures forall e :: e in Everything(s) + InFlight(s) ==> e.seqno <= s.lastSequence + InFlightCount(s)
    ensures s.lastSequence + InFlightCount(s) < MaxSequenceNumber
  {
    hide WellFormed, CompactionInv, FlushInv, NumbersInv, InstallInv, ManifestInv, CountersInv, HeldInv, AllStored;
    MemtablesAreNewer(s);
    CurrentLogChain(s);
    ChainBounds(s.disk.logs[s.logfile], s.switchedAt, s.lastSequence + InFlightCount(s));
    forall e | e in Everything(s) + InFlight(s)
      ensures e.seqno <= s.lastSequence + InFlightCount(s)
    {
      assert e in s.mem + InFlight(s) ==> InBatches(s.disk.logs[s.logfile], e);
    }
  }

  lemma {:induction false} StoredAfterOpen(v: Version, v': Version, tables: Tables, files: Level, n: nat)
    requires AllStored(tables, v) && NumbersBelow(v, n) && DistinctNumbers(files)
    requires forall i :: 0 <= i < |files| ==> files[i].number >= n
    requires forall l, f :: InLevel(v', l, f) ==> InLevel(v, l, f) || f in files
    ensures AllStored(StoreAll(tables, files), v')
  {
    StoreAllStores(tables, files, n);
  }

  lemma {:induction false} NumbersAfterOpen(v: Version, v': Version, files: Level, limit: nat)
    requires UniqueNumbers(v) && Rising(v, files) && NumbersBelow(v, limit)
    requires forall f :: f in files ==> f.number < limit
    requires forall l, f :: InLevel(v', l, f) ==> InLevel(v, l, f) || f in files
    ensures NumbersInv(AllFiles(v) + (set f | f in files), limit, v', None, None, None, {})
  {
    RisingFixesNumbers(v, files);
    forall f | f in AllFiles(v)
      ensures f.number < limit
    {
      var l :| 0 <= l < |v| && f in v[l];
      assert InLevel(v, l, f);
    }
    forall l: nat, f | InLevel(v, l, f)
      ensures f in AllFiles(v)
    {
    }
  }

  lemma {:induction false} OpenStored(s: State, s': State, hi: nat, chunks: seq<seq<Batch>>, files: Level, newLog: nat)
    requires Inv(s) && s.installing.None? && CrashAndOpen(s, s', hi, chunks, files, newLog)
    ensures AllStored(s'.disk.tables, s'.current)
    ensures NumbersInv(s'.universe, s'.nextFile, s'.current, None, None, None, {})
  {
    hide SnapshotInv, MemInv, ImmInv, CompactionInv, FlushInv, InstallInv, ManifestInv, CountersInv, Shaped, Layered, Unique,
      HeldInv, FinalCounters, TablesOf, Chained, LogEntries, Collect, ApplyOne, Absorbs, OpenedVersion, AllStored, Rising,
      Contents, AllFiles, NumbersInv, StoreAll;
    ManifestGivesVersion(s);
    OpenRises(s, s', hi, chunks, files, newLog);
    OpenContents(s, s', hi, chunks, files, newLog);
    EffectOfAbsorbing(s.current, files, MemEntries(s) + InFlight(s));
    StoredAfterOpen(s.current, s'.current, s.disk.tables, files, FinalCounters(s.disk.manifest).nextFile.value);
    NumbersAfterOpen(s.current, s'.current, files, newLog + 1);
  }

  /** Opening after a crash with no install under way. */
  lemma {:induction false} OpenQuiet(s: State, s': State, hi: nat, chunks: seq<seq<Batch>>, files: Level, newLog: nat)
    requires Inv(s) && s.installing.None? && CrashAndOpen(s, s', hi, chunks, files, newLog)
    ensures Inv(s') && Everything(s') == Everything(s) + InFlight(s)
    ensures s'.lastSequence == s.lastSequence + InFlightCount(s)
  {
    hide VersionInv, MemInv, ImmInv, CompactionInv, NumbersInv, InstallInv, ManifestInv, CountersInv, HeldInv, FlushInv,
      FinalCounters, TablesOf, WellFormed, LogEntries, Collect, ApplyOne, Rising, Absorbs, AllStored, Everything, InFlight;
    OpenVersionInv(s, s', hi, chunks, files, newLog);
    OpenContents(s, s', hi, chunks, files, newLog);
    OpenStored(s, s', hi, chunks, files, newLog);
    SequencesBelow(s);
    OpenLogs(s, s', hi, chunks, files, newLog);
    OpenManifest(s, s', hi, chunks, files, newLog);
    OpenIdle(s'.current, s'.lastSequence, s'.nextFile, s'.disk.tables, s'.flushedTo, s'.universe);
  }

  /** A database just opened does no background work. */
  lemma {:induction false} OpenIdle(v: Version, last: nat, next: nat, tables: Tables, flushedTo: nat,
                                    universe: set<File>)
    ensures CompactionInv(None, v, [], last, next, {}, tables, flushedTo)
    ensures FlushInv(None, None, v, next, tables) && InstallInv(None, v, None, None) && HeldInv(multiset{}, tables, next, universe)
  {
  }

  lemma {:induction false} OpenLogs(s: State, s': State, hi: nat, chunks: seq<seq<Batch>>, files: Level, newLog: nat)
    requires CrashAndOpen(s, s', hi, chunks, files, newLog)
    ensures MemInv(s'.disk.logs, s'.logfile, s'.writing, s'.mem, s'.switchedAt, s'.lastSequence)
    ensures ImmInv(s'.disk.logs, s'.logfile, s'.logNumber, s'.imm, s'.flushedTo, s'.switchedAt)
  {
    assert LogEntries([]) == iset{};
  }

  lemma {:induction false} OpenManifest(s: State, s': State, hi: nat, chunks: seq<seq<Batch>>, files: Level,
                                        newLog: nat)
    requires Inv(s) && s.installing.None? && CrashAndOpen(s, s', hi, chunks, files, newLog)
    requires VersionInv(s'.current, newLog + 1, s'.lastSequence)
    ensures ManifestInv(s'.disk.manifest, s'.universe, s'.current)
    ensures CountersInv(FinalCounters(s'.disk.manifest), s'.logNumber, s'.current, s'.nextFile, s'.lastSequence,
                        s'.disk.logs, s'.logfile)
  {
    hide SnapshotInv, MemInv, ImmInv, CompactionInv, FlushInv, InstallInv, ManifestInv, NumbersInv,
      HeldInv, FinalCounters, TablesOf, Chained, LogEntries, Collect, ApplyOne, Absorbs, AllStored, Rising, WellFormed;
    ManifestGivesVersion(s);
    OpenRises(s, s', hi, chunks, files, newLog);
    var r := s'.disk.manifest[1];
    NewManifest(s.current, files, r.counters);
    CountersSnoc(s'.disk.manifest[..1], r);
    assert s'.disk.manifest[..1] + [r] == s'.disk.manifest;
  }

  // ------------------------------------------------------------------
  // Main result.

  /** The state reached by finishing the install, if one is under way. */
  ghost function Finished(s: State): State
    requires |s.current| == NumLevels && (s.installing.Some? ==> ValidEdit(EditOf(s.installing.value)))
  {
    if s.installing.None? then s else
      var ch := s.installing.value;
      var t := s.(current := ApplyOne(s.current, EditOf(ch)), installing := None);
      match ch
      case Flushed(_, _) => t.(imm := None, flush := None, logNumber := s.logfile, flushedTo := s.switchedAt)
      case Compacted(w) =>
        t.(compaction := None, pending := s.pending - Numbers(w.outputs))
      case Moved(_, _) => t
  }

  lemma {:induction false} FinishedIsGood(s: State)
    requires Inv(s)
    ensures |s.current| == NumLevels && (s.installing.Some? ==> ValidEdit(EditOf(s.installing.value)))
    ensures Inv(Finished(s)) && Finished(s).installing.None?
    ensures forall q :: q >= s.lastSequence ==> View(Everything(Finished(s)), q) == View(Everything(s), q)
  {
    hide SnapshotInv, MemInv, ImmInv, FlushInv, NumbersInv, ManifestInv, CountersInv, HeldInv, AllStored, LegalWork, Grown,
      ApplyOne, EditOf, View, Everything;
    if s.installing.Some? {
      assert Install(s, Finished(s));
      InstallKeepsInv(s, Finished(s));
      forall q | q >= s.lastSequence
        ensures View(Everything(Finished(s)), q) == View(Everything(s), q)
      {
        InstallIsInvisible(s, Finished(s), q);
      }
    }
  }

  /**
   Recovery equivalence. Opening after a crash in any reachable state keeps the invariant;
   the last sequence number moves past the group in flight, and a reader there sees what
   the live database would have shown with that group applied.
   */
  lemma {:induction false} RecoveryEquivalence(s: State, s': State, hi: nat, chunks: seq<seq<Batch>>, files: Level,
                                               newLog: nat, m: Map)
    requires Inv(s) && CrashAndOpen(s, s', hi, chunks, files, newLog)
    requires View(Everything(s), s.lastSequence) == Pairs(m)
    ensures Inv(s') && s'.lastSequence == s.lastSequence + InFlightCount(s)
    ensures var ops := if s.writing.Some? then s.writing.value.batch.ops else [];
      View(Everything(s'), s'.lastSequence) == Pairs(ApplyOps(m, ops, |ops|))
  {
    hide VersionInv, SnapshotInv, MemInv, ImmInv, CompactionInv, FlushInv, NumbersInv, InstallInv, ManifestInv, CountersInv,
      HeldInv, AllStored, FinalCounters, TablesOf, View, Pairs, Everything, Opened, Inv;
    FinishedIsGood(s);
    var t := Finished(s);
    OpenQuiet(t, s', hi, chunks, files, newLog);
    assert View(Everything(t), t.lastSequence) == Pairs(m);
    ReadAfterOpen(t, m);
  }

  lemma {:induction false} ReadAfterOpen(s: State, m: Map)
    requires Inv(s) && View(Everything(s), s.lastSequence) == Pairs(m)
    ensures var ops := if s.writing.Some? then s.writing.value.batch.ops else [];
      View(Everything(s) + InFlight(s), s.lastSequence + InFlightCount(s)) == Pairs(ApplyOps(m, ops, |ops|))
  {
    hide VersionInv, SnapshotInv, MemInv, ImmInv, CompactionInv, FlushInv, NumbersInv, InstallInv, ManifestInv, CountersInv,
      HeldInv, AllStored, View, Pairs, BatchEntries, Contents, Everything;
    AllUnique(s);
    if s.writing.Some? {
      GroupIsNext(s);
      var b := s.writing.value.batch;
      NewEntriesUnseen(Everything(s), Everything(s) + InFlight(s), s.lastSequence);
      BatchBecomesVisible(Everything(s) + InFlight(s), b, |b.ops|, m);
    } else {
      assert Everything(s) + InFlight(s) == Everything(s);
    }
  }
}

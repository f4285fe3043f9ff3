/**
 What readers of the engine see. No step that leaves the last sequence number alone changes
 what is read at that number or at a live snapshot, and publishing a group changes it as
 applying the group's operations, in order, changes a plain map.
 */
module EngineReads {
  import opened InternalKeys
  import opened Versions
  import opened VersionBuilder
  import opened CompactionMeaning
  import opened Batches
  import opened EngineState
  import opened EngineInvariant
  import opened EngineInstall

  // ------------------------------------------------------------------
  // The plain map a user has in mind.

  type Map = map<UserKey, Bytes>

  function ApplyOp(m: Map, op: Op): Map
  {
    if op.kind.Value? then m[op.key := op.value] else m - {op.key}
  }

  /** The map after the first `n` operations of a group. */
  function ApplyOps(m: Map, ops: seq<Op>, n: nat): Map
    requires n <= |ops|
  {
    if n == 0 then m else ApplyOp(ApplyOps(m, ops, n - 1), ops[n - 1])
  }

  ghost function Pairs(m: Map): iset<(UserKey, Bytes)>
  {
    iset p: (UserKey, Bytes) | p.0 in m && m[p.0] == p.1
  }

  /** Raising the snapshot by one makes one entry visible, which acts as one operation. */
  lemma {:induction false} OneMoreVisible(es: iset<Entry>, q: nat, e: Entry, m: Map)
    requires Unique(es) && e in es && e.seqno == q + 1
    requires forall d :: d in es && d.seqno == q + 1 ==> d == e
    requires View(es, q) == Pairs(m)
    ensures View(es, q + 1) == Pairs(ApplyOp(m, Op(e.key, e.kind, e.value)))
  {
    var m', q' := ApplyOp(m, Op(e.key, e.kind, e.value)), q + 1;
    forall k, v
      ensures Shows(es, k, q', v) <==> k in m' && m'[k] == v
    {
      if k == e.key {
        assert IsNewest(es, k, q', e);
        ShowsByLookup(es, k, q', v, Some(e));
      } else {
        OthersUnchanged(es, q, e, k, v);
        assert (k, v) in View(es, q) <==> (k, v) in Pairs(m);
      }
    }
  }

  lemma {:induction false} OthersUnchanged(es: iset<Entry>, q: nat, e: Entry, k: UserKey, v: Bytes)
    requires forall d :: d in es && d.seqno == q + 1 ==> d == e
    requires k != e.key
    ensures Shows(es, k, q + 1, v) <==> Shows(es, k, q, v)
  {
    forall d
      ensures IsNewest(es, k, q + 1, d) <==> IsNewest(es, k, q, d)
    {
      assert forall c :: c in es && Matches(c, k, q + 1) ==> Matches(c, k, q);
    }
  }

  /** Raising the snapshot over a whole batch applies the batch. */
  lemma {:induction false} BatchBecomesVisible(es: iset<Entry>, b: Batch, n: nat, m: Map)
    requires Unique(es) && b.first > 0 && n <= |b.ops|
    requires BatchEntries(b, |b.ops|) <= es
    requires forall d :: d in es && b.first <= d.seqno < b.first + |b.ops| ==> d in BatchEntries(b, |b.ops|)
    requires View(es, b.first - 1) == Pairs(m)
    ensures View(es, b.first + n - 1) == Pairs(ApplyOps(m, b.ops, n))
  {
    if n > 0 {
      BatchBecomesVisible(es, b, n - 1, m);
      var e := EntryOf(b, n - 1);
      assert InBatch(b, |b.ops|, e);
      OneMoreVisible(es, b.first + n - 2, e, ApplyOps(m, b.ops, n - 1));
    }
  }

  // ------------------------------------------------------------------
  // Entries a snapshot cannot see.

  lemma {:induction false} NewEntriesUnseen(es: iset<Entry>, es': iset<Entry>, q: nat)
    requires es <= es' && forall e :: e in es' && e.seqno <= q ==> e in es
    ensures View(es, q) == View(es', q)
  {
    forall k, v
      ensures Shows(es, k, q, v) <==> Shows(es', k, q, v)
    {
      forall d
        ensures IsNewest(es, k, q, d) <==> IsNewest(es', k, q, d)
      {
      }
    }
  }

  // ------------------------------------------------------------------
  // The entries of a reachable state.

  /** The current log, with the group in flight, is one chain of batches. */
  lemma {:induction false} CurrentLogChain(s: State)
    requires Inv(s)
    ensures s.logfile in s.disk.logs
    ensures Chained(s.disk.logs[s.logfile], s.switchedAt, s.lastSequence + InFlightCount(s))
    ensures LogEntries(s.disk.logs[s.logfile]) == s.mem + InFlight(s)
  {
    hide VersionInv, SnapshotInv, CompactionInv, FlushInv, NumbersInv, InstallInv, ManifestInv, CountersInv, HeldInv,
      AllStored, ImmInv;
    var log := s.disk.logs[s.logfile];
    if s.writing.Some? {
      var b := s.writing.value.batch;
      assert log == Done(log, s.writing) + [b];
      ChainSnoc(Done(log, s.writing), s.switchedAt, s.lastSequence, b);
      EntriesConcat(Done(log, s.writing), [b]);
      SingleBatch(b);
      assert Applied(s.writing) <= BatchEntries(b, |b.ops|);
    }
  }

  lemma {:induction false} SingleBatch(b: Batch)
    ensures LogEntries([b]) == BatchEntries(b, |b.ops|)
  {
    forall e
      ensures InBatches([b], e) <==> InBatch(b, |b.ops|, e)
    {
      assert InBatch(b, |b.ops|, e) ==> InBatch([b][0], |[b][0].ops|, e);
    }
  }

  /** The entries of the group that is in the log but not yet published. */
  ghost function InFlight(s: State): iset<Entry>
  {
    if s.writing.Some? then BatchEntries(s.writing.value.batch, |s.writing.value.batch.ops|) else iset{}
  }

  function InFlightCount(s: State): nat
  {
    if s.writing.Some? then |s.writing.value.batch.ops| else 0
  }

  lemma {:induction false} AllUnique(s: State)
    requires Inv(s)
    ensures Unique(Everything(s) + InFlight(s)) && Unique(Everything(s))
    ensures forall e :: e in InFlight(s) <==> e in Everything(s) + InFlight(s) && e.seqno > s.lastSequence
  {
    hide WellFormed, SnapshotInv, CompactionInv, FlushInv, NumbersInv, InstallInv, ManifestInv, CountersInv, HeldInv,
      AllStored;
    MemtablesAreNewer(s);
    CurrentLogChain(s);
    var log := s.disk.logs[s.logfile];
    ChainBounds(log, s.switchedAt, s.lastSequence + InFlightCount(s));
    ChainBounds(Done(log, s.writing), s.switchedAt, s.lastSequence);
    forall d, e | d in LogEntries(log) && e in LogEntries(log) && d.seqno == e.seqno
      ensures d == e
    {
      ChainUnique(log, s.switchedAt, s.lastSequence + InFlightCount(s), d, e);
    }
    if s.imm.Some? {
      ImmUnique(s);
    }
    forall e | e in s.mem && e.seqno > s.lastSequence
      ensures e in InFlight(s)
    {
      assert e !in LogEntries(Done(log, s.writing));
    }
    UniqueParts(s);
  }

  lemma {:induction false} UniqueParts(s: State)
    requires forall d, e :: d in s.mem + InFlight(s) && e in s.mem + InFlight(s) && d.seqno == e.seqno ==> d == e
    requires Unique(Contents(s.current) + ImmEntries(s))
    requires forall e :: e in s.mem + InFlight(s) ==> s.switchedAt < e.seqno
    requires forall e :: e in Contents(s.current) + ImmEntries(s) ==> e.seqno <= s.switchedAt
    ensures Unique(Everything(s) + InFlight(s)) && Unique(Everything(s))
  {
    var all := Everything(s) + InFlight(s);
    forall d, e | d in all && e in all && d.key == e.key && d.seqno == e.seqno
      ensures d == e
    {
      if d in s.mem + InFlight(s) {
        assert e in s.mem + InFlight(s);
      }
    }
  }

  // ------------------------------------------------------------------
  // Steps.

  /** Every number at which someone may still read. */
  ghost predicate Readable(s: State, q: nat)
  {
    q == s.lastSequence || q in s.snapshots
  }

  lemma {:induction false} ReadableIsCovered(s: State, q: nat)
    requires Inv(s) && Readable(s, q)
    ensures q <= s.lastSequence && (s.compaction.Some? ==> s.compaction.value.smallest <= q)
  {
    hide VersionInv, MemInv, ImmInv, FlushInv, NumbersInv, InstallInv, ManifestInv, CountersInv, HeldInv, AllStored,
      LegalWork, Grown;
  }

  /** Inserting one entry of the group in flight is invisible. */
  lemma {:induction false} InsertIsInvisible(s: State, s': State, q: nat)
    requires Inv(s) && InsertNext(s, s') && q <= s.lastSequence
    ensures View(Everything(s'), q) == View(Everything(s), q)
  {
    hide VersionInv, SnapshotInv, ImmInv, CompactionInv, FlushInv, NumbersInv, InstallInv, ManifestInv, CountersInv,
      HeldInv, AllStored;
    NewEntriesUnseen(Everything(s), Everything(s'), q);
  }

  /** Installing a flush, a compaction or a move changes no read at or above its snapshot. */
  lemma {:induction false} InstallIsInvisible(s: State, s': State, q: nat)
    requires Inv(s) && Install(s, s') && (s.compaction.Some? ==> s.compaction.value.smallest <= q)
    ensures View(Everything(s'), q) == View(Everything(s), q)
  {
    hide VersionInv, SnapshotInv, MemInv, ImmInv, FlushInv, NumbersInv, InstallInv, ManifestInv, CountersInv, HeldInv,
      AllStored, WellFormed, ApplyOne, EditOf, Justified, GoodStep, NewNumbers, Grown, LegalWork, CompactionInv;
    var ch := s.installing.value;
    InstallingMatches(s);
    ChangeStep(s, ch);
    match ch
    case Flushed(_, _) =>
      assert Everything(s') == Everything(s);
    case Moved(_, _) =>
      assert Everything(s') == Everything(s);
    case Compacted(w) =>
      AllUnique(s);
      CompactionIsInvisible(s, s', w, q);
  }

  lemma {:induction false} CompactionIsInvisible(s: State, s': State, w: Work, q: nat)
    requires Inv(s) && Install(s, s') && s.installing == Some(Compacted(w)) && Matching(s, Compacted(w))
    requires w.smallest <= q && Unique(Everything(s)) && Contents(s'.current) <= Contents(s.current)
    ensures View(Everything(s'), q) == View(Everything(s), q)
  {
    hide SnapshotInv, MemInv, ImmInv, FlushInv, NumbersInv, InstallInv, ManifestInv, CountersInv, HeldInv,
      AllStored, WellFormed, ApplyOne, NewNumbers, Grown, NewerThan;
    MemtablesAreNewer(s);
    assert Everything(s') <= Everything(s);
    forall k
      ensures Agree(Everything(s), Everything(s'), k, q)
    {
      CompactionPreservesReads(w.base, s.current, w.inputs, w.merged, w.smallest, w.outputs, MemEntries(s), k, q);
    }
    SameAnswersSameView(Everything(s), Everything(s'), q);
  }

  /** Publishing a group is the group applied to the map, all at once. */
  lemma {:induction false} PublishAppliesGroup(s: State, s': State, m: Map)
    requires Inv(s) && Publish(s, s') && View(Everything(s), s.lastSequence) == Pairs(m)
    ensures var ops := s.writing.value.batch.ops;
      View(Everything(s'), s'.lastSequence) == Pairs(ApplyOps(m, ops, |ops|))
  {
    hide VersionInv, SnapshotInv, MemInv, ImmInv, CompactionInv, FlushInv, NumbersInv, InstallInv, ManifestInv, CountersInv,
      HeldInv, AllStored, View, Pairs, Unique, BatchEntries, Contents;
    AllUnique(s);
    GroupIsNext(s);
    assert Everything(s) + InFlight(s) == Everything(s) by {
      assert Applied(s.writing) == InFlight(s);
    }
    var b := s.writing.value.batch;
    BatchBecomesVisible(Everything(s), b, |b.ops|, m);
  }

  lemma {:induction false} GroupIsNext(s: State)
    requires Inv(s) && s.writing.Some?
    ensures s.writing.value.batch.first == s.lastSequence + 1 && Applied(s.writing) <= s.mem
  {
    hide VersionInv, SnapshotInv, ImmInv, CompactionInv, FlushInv, NumbersInv, InstallInv, ManifestInv, CountersInv,
      HeldInv, AllStored;
  }
}

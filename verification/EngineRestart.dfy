/**
 Recovery never gets stuck: in every reachable state the disk alone is enough to open the
 database again. So the runs in which crashes happen are all there, and nothing that is
 proved of them holds for want of one.
 */
module EngineRestart {
  import opened InternalKeys
  import opened Versions
  import opened Batches
  import opened EngineState
  import opened EngineInvariant
  import opened EngineReads
  import opened EngineRecovery
  import opened EngineRuns

  // ------------------------------------------------------------------
  // The table of a log.

  /** Puts a newer entry in its place. */
  lemma {:induction false} InsertEntry(es: seq<Entry>, e: Entry) returns (r: seq<Entry>)
    requires Sorted(es) && forall x :: x in es ==> x.seqno < e.seqno
    ensures Sorted(r) && forall x :: x in r <==> x == e || x in es
  {
    if es == [] || Before(e, es[0]) {
      r := [e] + es;
    } else {
      assert es[0] in es;
      var rest := InsertEntry(es[1..], e);
      r := [es[0]] + rest;
      forall i | 0 <= i < |rest|
        ensures Before(es[0], rest[i])
      {
        assert rest[i] in rest;
      }
      assert forall x :: x in es <==> x == es[0] || x in es[1..];
    }
  }

  lemma {:induction false} InsertBatch(es: seq<Entry>, b: Batch, n: nat) returns (r: seq<Entry>)
    requires Sorted(es) && n <= |b.ops| && forall x :: x in es ==> x.seqno < b.first
    ensures Sorted(r) && forall x :: x in r <==> x in es || InBatch(b, n, x)
  {
    if n == 0 {
      r := es;
    } else {
      var init := InsertBatch(es, b, n - 1);
      r := InsertEntry(init, EntryOf(b, n - 1));
    }
  }

  /** The entries of a chain of batches, as one sorted run. */
  lemma {:induction false} SortBatches(bs: seq<Batch>, from: nat, to: nat) returns (es: seq<Entry>)
    requires Chained(bs, from, to)
    ensures Sorted(es) && forall x :: x in es <==> InBatches(bs, x)
  {
    if bs == [] {
      es := [];
    } else {
      var init, b := bs[..|bs| - 1], bs[|bs| - 1];
      ChainBounds(init, from, b.first - 1);
      es := SortBatches(init, from, b.first - 1);
      es := InsertBatch(es, b, |b.ops|);
      forall x
        ensures x in es <==> InBatches(bs, x)
      {
        InLastOrBefore(bs, x);
      }
    }
  }

  /** One table for all that is replayed, or none if that is nothing. */
  lemma {:induction false} TableOf(bs: seq<Batch>, from: nat, to: nat, number: nat) returns (files: Level)
    requires Chained(bs, from, to)
    ensures Flatten([bs]) == bs && TablesOf([bs], files)
    ensures |files| <= 1 && forall i :: 0 <= i < |files| ==> files[i].number == number
  {
    var es := SortBatches(bs, from, to);
    assert [bs][..0] == [] && Flatten([bs]) == Flatten([]) + bs;
    if es == [] {
      files := [];
      assert LogEntries(bs) == iset{};
      assert TablesOf([], files);
    } else {
      var f := File(number, 0, es[0], es[|es| - 1], es);
      files := [f];
      assert es[0] in LogEntries(bs);
      assert Entries(f) == LogEntries(bs);
      assert files[..0] == [] && TablesOf([], []);
    }
  }

  lemma {:induction false} Bound(keys: set<nat>) returns (hi: nat)
    ensures forall n :: n in keys ==> n < hi
  {
    if keys == {} {
      hi := 0;
    } else {
      var k :| k in keys;
      var rest := Bound(keys - {k});
      hi := if k < rest then rest else k + 1;
      assert forall n :: n in keys ==> n == k || n in keys - {k};
    }
  }

  // ------------------------------------------------------------------
  // Opening.

  lemma {:induction false} QuietReopens(s: State) returns (step: Step, s': State)
    requires Inv(s) && s.installing.None?
    ensures step.Crash? && Does(s, step, s')
  {
    hide Inv, Opened, TablesOf, Chained, LogEntries, EngineState.Collect, FinalCounters, Flatten;
    var hi := Bound(s.disk.logs.Keys);
    ManifestGivesVersion(s);
    LogsGiveMemtables(s, hi);
    var c, bs := FinalCounters(s.disk.manifest), EngineState.Collect(s.disk.logs, s.logNumber, hi);
    var newLog := hi + c.nextFile.value + 2;
    var files := TableOf(bs, s.flushedTo, s.lastSequence + InFlightCount(s), newLog - 1);
    assert Replayed(s.disk, hi) == bs;
    s' := Opened(s.disk, files, newLog, MaxSequence(bs, c.lastSequence.value));
    step := Crash(hi, [bs], files, newLog);
    assert CrashAndOpen(s, s', hi, [bs], files, newLog);
  }

  /** After a crash in any reachable state, the database opens. */
  lemma {:induction false} RecoveryAlwaysSucceeds(states: seq<State>, steps: seq<Step>, n: nat)
    returns (step: Step, s': State)
    requires Run(states, steps) && n <= |steps|
    ensures step.Crash? && Does(states[n], step, s') && Inv(s')
  {
    hide Inv, Opened, TablesOf, FinalCounters, Recoverable, View, Everything, Pairs, Model, Init, Replayed, Flatten;
    RunRefinesMap(states, steps, n);
    var s := states[n];
    FinishedIsGood(s);
    step, s' := QuietReopens(Finished(s));
    assert CrashAndOpen(s, s', step.hi, step.chunks, step.files, step.newLog);
    StepKeepsInv(s, step, s');
  }
}

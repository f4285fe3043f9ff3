/**
 Write batches as the log and the memtables see them: a first sequence number and a list
 of operations, the i-th of which carries the i-th sequence number from the first.
 */
module Batches {
  import opened InternalKeys

  datatype Op = Op(key: UserKey, kind: Kind, value: Bytes)

  datatype Batch = Batch(first: nat, ops: seq<Op>)

  function EntryOf(b: Batch, i: nat): Entry
    requires i < |b.ops|
  {
    Entry(b.ops[i].key, b.first + i, b.ops[i].kind, b.ops[i].value)
  }

  /** `e` comes from one of the first `n` operations of `b`. */
  ghost predicate InBatch(b: Batch, n: nat, e: Entry)
  {
    exists i :: 0 <= i < n && i < |b.ops| && e == EntryOf(b, i)
  }

  ghost predicate InBatches(bs: seq<Batch>, e: Entry)
  {
    exists j :: 0 <= j < |bs| && InBatch(bs[j], |bs[j].ops|, e)
  }

  ghost function BatchEntries(b: Batch, n: nat): iset<Entry>
  {
    iset e | InBatch(b, n, e)
  }

  ghost function LogEntries(bs: seq<Batch>): iset<Entry>
  {
    iset e | InBatches(bs, e)
  }

  /** The batches use up the sequence numbers in (from, to], one after the other. */
  ghost predicate Chained(bs: seq<Batch>, from: nat, to: nat)
  {
    if bs == [] then from == to
    else
      var b := bs[|bs| - 1];
      && b.first > 0
      && b.first + |b.ops| == to + 1
      && Chained(bs[..|bs| - 1], from, b.first - 1)
  }

  lemma {:induction false} ChainBounds(bs: seq<Batch>, from: nat, to: nat)
    requires Chained(bs, from, to)
    ensures from <= to
    ensures forall e :: InBatches(bs, e) ==> from < e.seqno <= to
  {
    if bs != [] {
      var init, b := bs[..|bs| - 1], bs[|bs| - 1];
      ChainBounds(init, from, b.first - 1);
      forall e | InBatches(bs, e)
        ensures from < e.seqno <= to
      {
        InLastOrBefore(bs, e);
      }
    }
  }

  lemma {:induction false} InLastOrBefore(bs: seq<Batch>, e: Entry)
    requires bs != []
    ensures InBatches(bs, e) <==>
            InBatches(bs[..|bs| - 1], e) || InBatch(bs[|bs| - 1], |bs[|bs| - 1].ops|, e)
  {
    var init := bs[..|bs| - 1];
    if InBatches(init, e) {
      var j :| 0 <= j < |init| && InBatch(init[j], |init[j].ops|, e);
      assert bs[j] == init[j];
    }
    if InBatches(bs, e) {
      var j :| 0 <= j < |bs| && InBatch(bs[j], |bs[j].ops|, e);
      assert j < |bs| - 1 ==> init[j] == bs[j];
    }
  }

  /** Two entries of one chain with the same sequence number are the same entry. */
  lemma {:induction false} ChainUnique(bs: seq<Batch>, from: nat, to: nat, d: Entry, e: Entry)
    requires Chained(bs, from, to)
    requires InBatches(bs, d) && InBatches(bs, e) && d.seqno == e.seqno
    ensures d == e
  {
    if bs != [] {
      var init, b := bs[..|bs| - 1], bs[|bs| - 1];
      InLastOrBefore(bs, d);
      InLastOrBefore(bs, e);
      ChainBounds(init, from, b.first - 1);
      if InBatches(init, d) && InBatches(init, e) {
        ChainUnique(init, from, b.first - 1, d, e);
      }
    }
  }

  lemma {:induction false} ChainSnoc(bs: seq<Batch>, from: nat, to: nat, b: Batch)
    requires Chained(bs, from, to) && b.first == to + 1
    ensures Chained(bs + [b], from, to + |b.ops|)
  {
    assert (bs + [b])[..|bs|] == bs;
  }

  lemma {:induction false} ChainConcat(a: seq<Batch>, b: seq<Batch>, from: nat, mid: nat, to: nat)
    requires Chained(a, from, mid) && Chained(b, mid, to)
    ensures Chained(a + b, from, to)
  {
    if b == [] {
      assert a + b == a;
    } else {
      var n := |b| - 1;
      ChainConcat(a, b[..n], from, mid, b[n].first - 1);
      assert (a + b)[..|a + b| - 1] == a + b[..n];
    }
  }

  lemma {:induction false} EntriesConcat(a: seq<Batch>, b: seq<Batch>)
    ensures LogEntries(a + b) == LogEntries(a) + LogEntries(b)
  {
    forall e
      ensures InBatches(a + b, e) <==> InBatches(a, e) || InBatches(b, e)
    {
      if InBatches(a + b, e) {
        var j :| 0 <= j < |a + b| && InBatch((a + b)[j], |(a + b)[j].ops|, e);
        assert if j < |a| then (a + b)[j] == a[j] else (a + b)[j] == b[j - |a|];
      }
      if InBatches(a, e) {
        var j :| 0 <= j < |a| && InBatch(a[j], |a[j].ops|, e);
        assert (a + b)[j] == a[j];
      }
      if InBatches(b, e) {
        var j :| 0 <= j < |b| && InBatch(b[j], |b[j].ops|, e);
        assert (a + b)[|a| + j] == b[j];
      }
    }
  }

  lemma {:induction false} OneMoreEntry(b: Batch, n: nat)
    requires n < |b.ops|
    ensures BatchEntries(b, n + 1) == BatchEntries(b, n) + iset{EntryOf(b, n)}
  {
  }
}

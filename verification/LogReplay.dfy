/**
 From the bytes of a log file to the batches the engine replays. A log file holds one record
 for each group, encoded as a write batch; whatever the byte at which a crash cut the file,
 reading it back gives the groups whose records are whole. So appending a group is one step:
 torn in the middle it has not happened.
 */
module LogReplay {
  import opened InternalKeys
  import opened Coding
  import opened LogFormat
  import opened Log
  import WriteBatchCodec
  import Batches
  import EngineState

  /** A group as it is written: its first sequence number and its operations on byte strings. */
  datatype ByteBatch = ByteBatch(first: nat, ops: seq<WriteBatchCodec.Op>)

  predicate Fits(b: ByteBatch)
  {
    b.first < Pow256(8) && |b.ops| < 0x1_0000_0000 && forall i :: 0 <= i < |b.ops| ==> WriteBatchCodec.OpFits(b.ops[i])
  }

  function Rep(b: ByteBatch): Bytes
  {
    WriteBatchCodec.RepOf(b.first, b.ops)
  }

  function Reps(bs: seq<ByteBatch>): (r: seq<Bytes>)
    ensures |r| == |bs|
  {
    seq(|bs|, i requires 0 <= i < |bs| => Rep(bs[i]))
  }

  /** An operation by the rank of its user key. */
  function Ranked(rank: Bytes -> UserKey, op: WriteBatchCodec.Op): Batches.Op
  {
    match op
    case Put(key, value) => Batches.Op(rank(key), Value, value)
    case Delete(key) => Batches.Op(rank(key), Deletion, [])
  }

  function RankedBatch(rank: Bytes -> UserKey, b: ByteBatch): Batches.Batch
  {
    Batches.Batch(b.first, seq(|b.ops|, i requires 0 <= i < |b.ops| => Ranked(rank, b.ops[i])))
  }

  function RankedLog(rank: Bytes -> UserKey, bs: seq<ByteBatch>): (r: seq<Batches.Batch>)
    ensures |r| == |bs|
  {
    seq(|bs|, i requires 0 <= i < |bs| => RankedBatch(rank, bs[i]))
  }

  /** The header and the operations of a record read back. */
  lemma {:induction false} RecordDecodes(b: ByteBatch)
    requires Fits(b)
    ensures var rep := Rep(b);
      |rep| >= 12 && Unfixed(rep[..8]) == b.first && WriteBatchCodec.Decode(rep) == Some(b.ops)
  {
    hide Fixed, Unfixed, WriteBatchCodec.Decode, Pow256;
    WriteBatchCodec.Parts(b.first, b.ops);
    FixedRoundTrip(b.first, 8);
    WriteBatchCodec.BatchRoundTrip(b.first, b.ops);
  }

  /** The reading half of `RecoverLogFile`: the batches of the records that are whole. */
  method ReplayLog(extend: Extend, rank: Bytes -> UserKey, file: Bytes, ghost whole: Bytes, ghost bs: seq<ByteBatch>)
      returns (log: seq<Batches.Batch>)
    requires LogLaidOut(extend, whole, Reps(bs)) && file <= whole && forall i :: 0 <= i < |bs| ==> Fits(bs[i])
    ensures WholeRecords(Reps(bs), |file|, |log|) && log == RankedLog(rank, bs[..|log|])
    ensures file == whole ==> log == RankedLog(rank, bs)
  {
    hide Fits, WriteBatchCodec.Decode, Unfixed, LogLaidOut, Boundary;
    var records, dropped := ReadAll(extend, file, true, whole, Reps(bs));
    log := [];
    for i := 0 to |records|
      invariant |log| == i && log == RankedLog(rank, bs[..i])
    {
      RecordDecodes(bs[i]);
      assert records[i] == Rep(bs[i]);
      var ok, ops := WriteBatchCodec.Iterate(records[i]);
      var b := ByteBatch(Unfixed(records[i][..8]), ops);
      log := log + [RankedBatch(rank, b)];
      assert bs[..i + 1] == bs[..i] + [bs[i]];
    }
    assert bs[..|bs|] == bs;
  }

  /** How many records are whole when the file ends within the last one. */
  lemma {:induction false} WholeButLast(records: seq<Bytes>, cut: nat, n: nat)
    requires WholeRecords(records, cut, n) && records != []
    requires Boundary(records, |records| - 1) <= cut <= Boundary(records, |records|)
    ensures n == if cut < Boundary(records, |records|) then |records| - 1 else |records|
  {
    hide Boundary;
    if n + 1 < |records| - 1 {
      BoundariesGrow(records, n + 1, |records| - 1);
    }
  }

  /**
   A crash while a group is being appended, at whatever byte: the disk reads back as it was
   before the group, or with the whole group once its last byte is there.
   */
  lemma {:induction false} TornAppend(s: EngineState.State, s': EngineState.State, ops: seq<Batches.Op>,
                                      rank: Bytes -> UserKey, bs: seq<ByteBatch>, b: ByteBatch, cut: nat,
                                      log: seq<Batches.Batch>)
    requires EngineState.AppendLog(s, s', ops) && s.disk.logs[s.logfile] == RankedLog(rank, bs)
    requires RankedBatch(rank, b) == Batches.Batch(s.lastSequence + 1, ops)
    requires Boundary(Reps(bs + [b]), |bs|) <= cut <= Boundary(Reps(bs + [b]), |bs| + 1)
    requires WholeRecords(Reps(bs + [b]), cut, |log|) && log == RankedLog(rank, (bs + [b])[..|log|])
    ensures s'.disk.(logs := s'.disk.logs[s.logfile := log])
         == if cut < Boundary(Reps(bs + [b]), |bs| + 1) then s.disk else s'.disk
  {
    hide Boundary, WholeRecords, RankedBatch;
    var all := bs + [b];
    WholeButLast(Reps(all), cut, |log|);
    assert all[..|bs|] == bs && all[..|all|] == all;
    assert RankedLog(rank, all) == RankedLog(rank, bs) + [RankedBatch(rank, b)];
    assert s.disk.logs[s.logfile := s.disk.logs[s.logfile]] == s.disk.logs;
  }
}

/**
 Group commit. Writers queue up; the one at the head leads: it makes room, gathers a group
 from the queue, logs it, syncs if it was asked to, inserts it, and acknowledges the whole
 group. A state machine over the stretches of `DBImpl::Write` between taking and leaving
 the mutex, with failures of each stage.
 */
module GroupCommit {
  import opened InternalKeys
  import opened Batches

  /** One call of `Write`; no batch means the caller only waits for its turn. */
  datatype Writer = Writer(batch: Option<seq<Op>>, sync: bool)

  /** How far the leader is. */
  datatype Phase =
    | Entered
    | Ready
    | Grouped(n: nat, ops: seq<Op>)
    | Logged(n: nat, ops: seq<Op>)
    | Synced(n: nat, ops: seq<Op>)
    | Over(n: nat, ops: seq<Op>, ok: bool)

  /** An acknowledged writer: the first sequence number of its group share, and the outcome. */
  datatype Ack = Ack(id: nat, ops: seq<Op>, first: nat, sync: bool, ok: bool)

  datatype State = State(
    writers: map<nat, Writer>,
    queue: seq<nat>,
    asleep: set<nat>,
    signalled: set<nat>,
    leader: Option<Phase>,
    lastSequence: nat,
    log: seq<Batch>,
    synced: nat,
    mem: iset<Entry>,
    broken: bool,
    acked: seq<Ack>,
    returned: seq<nat>,
    // History: every writer, in the order of arrival.
    arrived: seq<nat>)

  function OpsOf(w: Writer): seq<Op>
  {
    if w.batch.Some? then w.batch.value else []
  }

  /** The operations of the first `n` queued writers, in queue order. */
  function GroupOps(writers: map<nat, Writer>, queue: seq<nat>, n: nat): seq<Op>
    requires n <= |queue| && forall i :: 0 <= i < |queue| ==> queue[i] in writers
  {
    if n == 0 then [] else GroupOps(writers, queue, n - 1) + OpsOf(writers[queue[n - 1]])
  }

  /** A group never takes a sync writer along unless its leader syncs. */
  ghost predicate LegalGroup(writers: map<nat, Writer>, queue: seq<nat>, n: nat)
    requires forall i :: 0 <= i < |queue| ==> queue[i] in writers
  {
    && 0 < n <= |queue| && writers[queue[0]].batch.Some?
    && forall i :: 0 <= i < n && writers[queue[i]].sync ==> writers[queue[0]].sync
  }

  // ------------------------------------------------------------------
  // Gathering a group.

  const SmallWrite: nat := 0x2_0000
  const LargeGroup: nat := 0x10_0000

  /** The bound on the bytes of a group, by the size of its first batch. */
  function MaxGroup(first: nat): nat
  {
    if first <= SmallWrite then first + SmallWrite else LargeGroup
  }

  function SizeOf(size: seq<Op> -> nat, w: Writer): nat
  {
    if w.batch.Some? then size(w.batch.value) else 0
  }

  function GroupSize(size: seq<Op> -> nat, writers: map<nat, Writer>, queue: seq<nat>, n: nat): nat
    requires n <= |queue| && forall i :: 0 <= i < |queue| ==> queue[i] in writers
  {
    if n == 0 then 0 else GroupSize(size, writers, queue, n - 1) + SizeOf(size, writers[queue[n - 1]])
  }

  /** `BuildBatchGroup`: a legal group within the bound, and as long as both rules allow. */
  method BuildBatchGroup(writers: map<nat, Writer>, queue: seq<nat>, size: seq<Op> -> nat) returns (n: nat, ops: seq<Op>)
    requires queue != [] && (forall i :: 0 <= i < |queue| ==> queue[i] in writers) && writers[queue[0]].batch.Some?
    ensures LegalGroup(writers, queue, n) && ops == GroupOps(writers, queue, n)
    ensures var first := SizeOf(size, writers[queue[0]]);
      var most := if first <= 131072 then first + 131072 else 1048576;
      && (GroupSize(size, writers, queue, n) <= most || forall i :: 1 <= i < n ==> writers[queue[i]].batch.None?)
      && (n < |queue| ==>
            (writers[queue[n]].sync && !writers[queue[0]].sync) || GroupSize(size, writers, queue, n + 1) > most)
  {
    var first := writers[queue[0]];
    ops := first.batch.value;
    var total := size(ops);
    var most := MaxGroup(total);
    assert GroupOps(writers, queue, 1) == ops by {
      assert GroupOps(writers, queue, 0) == [];
    }
    assert GroupSize(size, writers, queue, 1) == total by {
      assert GroupSize(size, writers, queue, 0) == 0;
    }
    n := 1;
    while n < |queue|
      invariant 1 <= n <= |queue| && LegalGroup(writers, queue, n)
      invariant ops == GroupOps(writers, queue, n) && total == GroupSize(size, writers, queue, n)
      invariant total <= most || forall i :: 1 <= i < n ==> writers[queue[i]].batch.None?
    {
      var w := writers[queue[n]];
      if w.sync && !first.sync {
        break;
      }
      if w.batch.Some? {
        if total + size(w.batch.value) > most {
          break;
        }
        total := total + size(w.batch.value);
        ops := ops + w.batch.value;
      }
      n := n + 1;
    }
  }

  // ------------------------------------------------------------------
  // Steps.

  /** A caller queues up; it runs at once if it is alone, and sleeps otherwise. */
  ghost predicate Enqueue(s: State, s': State, id: nat, w: Writer)
  {
    && id !in s.writers
    && s' == s.(writers := s.writers[id := w], queue := s.queue + [id], arrived := s.arrived + [id],
                leader := if s.queue == [] then Some(Entered) else s.leader,
                asleep := if s.queue == [] then s.asleep else s.asleep + {id})
  }

  predicate Acknowledged(acked: seq<Ack>, id: nat)
  {
    exists i :: 0 <= i < |acked| && acked[i].id == id
  }

  /** A sleeper wakes, signalled or not, and looks: done, at the head, or neither. */
  ghost predicate Wake(s: State, s': State, id: nat)
  {
    && id in s.asleep
    && if Acknowledged(s.acked, id) then
         s' == s.(asleep := s.asleep - {id}, signalled := s.signalled - {id}, returned := s.returned + [id])
       else if s.queue != [] && s.queue[0] == id then
         s' == s.(asleep := s.asleep - {id}, signalled := s.signalled - {id}, leader := Some(Entered))
       else s' == s.(signalled := s.signalled - {id})
  }

  ghost predicate Leading(s: State)
  {
    s.queue != [] && s.queue[0] in s.writers && s.leader.Some?
  }

  /** `MakeRoomForWrite` succeeds, or reports the background error. */
  ghost predicate MakeRoom(s: State, s': State)
  {
    && Leading(s) && s.leader.value.Entered?
    && s' == s.(leader := Some(if s.broken then Over(1, [], false)
                               else if s.writers[s.queue[0]].batch.None? then Over(1, [], true) else Ready))
  }

  ghost predicate Gather(s: State, s': State, n: nat)
  {
    && Leading(s) && s.leader.value.Ready? && (forall i :: 0 <= i < |s.queue| ==> s.queue[i] in s.writers)
    && LegalGroup(s.writers, s.queue, n)
    && s' == s.(leader := Some(Grouped(n, GroupOps(s.writers, s.queue, n))))
  }

  /** The group goes to the log, or the log refuses it. */
  ghost predicate LogGroup(s: State, s': State, ok: bool)
  {
    && Leading(s) && s.leader.value.Grouped?
    && var g := s.leader.value;
       if ok then
         s' == s.(log := s.log + [Batch(s.lastSequence + 1, g.ops)], leader := Some(Logged(g.n, g.ops)))
       else
         s' == s.(leader := Some(Over(g.n, g.ops, false)))
  }

  /** The leader syncs the log if it was asked to; a failure makes all later writes fail. */
  ghost predicate SyncLog(s: State, s': State, ok: bool)
  {
    && Leading(s) && s.leader.value.Logged?
    && var g := s.leader.value;
       if !s.writers[s.queue[0]].sync then s' == s.(leader := Some(Synced(g.n, g.ops)))
       else if ok then s' == s.(synced := |s.log|, leader := Some(Synced(g.n, g.ops)))
       else s' == s.(broken := true, leader := Some(Over(g.n, g.ops, false)))
  }

  ghost predicate InsertGroup(s: State, s': State)
  {
    && Leading(s) && s.leader.value.Synced?
    && var g := s.leader.value;
       s' == s.(mem := s.mem + BatchEntries(Batch(s.lastSequence + 1, g.ops), |g.ops|),
                leader := Some(Over(g.n, g.ops, true)))
  }

  /** The acknowledgements of the first `n` queued writers, the group starting at `first`. */
  function Acks(writers: map<nat, Writer>, queue: seq<nat>, n: nat, first: nat, ok: bool, apply: bool): seq<Ack>
    requires n <= |queue| && forall i :: 0 <= i < |queue| ==> queue[i] in writers
  {
    if n == 0 then [] else
      Acks(writers, queue, n - 1, first, ok, apply) +
      [Ack(queue[n - 1], if apply then OpsOf(writers[queue[n - 1]]) else [],
           first + if apply then |GroupOps(writers, queue, n - 1)| else 0, writers[queue[n - 1]].sync, ok)]
  }

  /** The members of the group other than the leader, and the next head. */
  function Told(queue: seq<nat>, n: nat): set<nat>
    requires n <= |queue|
  {
    (set i | 0 < i < n :: queue[i]) + (if n == |queue| then {} else {queue[n]})
  }

  /** The group leaves the queue, its members are told, and the next writer is signalled. */
  ghost predicate Acknowledge(s: State, s': State)
  {
    && Leading(s) && s.leader.value.Over? && (forall i :: 0 <= i < |s.queue| ==> s.queue[i] in s.writers)
    && s.leader.value.n <= |s.queue|
    && var g := s.leader.value;
       var rest := s.queue[g.n..];
       s' == s.(queue := rest, leader := None, lastSequence := s.lastSequence + |g.ops|,
                acked := s.acked + Acks(s.writers, s.queue, g.n, s.lastSequence + 1, g.ok, g.ops != []),
                returned := s.returned + [s.queue[0]],
                signalled := s.signalled + Told(s.queue, g.n))
  }

  // ------------------------------------------------------------------
  // The invariant.

  ghost predicate Distinct(ids: seq<nat>)
  {
    forall i, j :: 0 <= i < j < |ids| ==> ids[i] != ids[j]
  }

  /** Every writer is queued or acknowledged, once. */
  ghost predicate QueueInv(writers: map<nat, Writer>, queue: seq<nat>, acked: seq<Ack>)
  {
    && (forall i :: 0 <= i < |queue| ==> queue[i] in writers && !Acknowledged(acked, queue[i]))
    && Distinct(queue)
    && (forall i :: 0 <= i < |acked| ==> acked[i].id in writers)
    && (forall i, j :: 0 <= i < j < |acked| ==> acked[i].id != acked[j].id)
    && (forall id :: id in writers ==> id in queue || Acknowledged(acked, id))
  }

  function Ids(acked: seq<Ack>): seq<nat>
  {
    seq(|acked|, i requires 0 <= i < |acked| => acked[i].id)
  }

  /** An acknowledgement speaks of its writer: its sync flag, and its batch unless it failed before the log. */
  ghost predicate TieInv(writers: map<nat, Writer>, acked: seq<Ack>)
  {
    forall i :: 0 <= i < |acked| && acked[i].id in writers ==>
      && acked[i].sync == writers[acked[i].id].sync
      && (acked[i].ops == OpsOf(writers[acked[i].id]) || (acked[i].ops == [] && !acked[i].ok))
  }

  /** The head of the queue leads or has been signalled; everyone else in it sleeps. */
  ghost predicate SleepInv(queue: seq<nat>, asleep: set<nat>, signalled: set<nat>, leading: bool)
  {
    && (leading ==> queue != [] && queue[0] !in asleep)
    && (forall i :: 0 <= i < |queue| && !(leading && i == 0) ==> queue[i] in asleep)
    && (queue != [] && !leading ==> queue[0] in signalled)
  }

  /** An acknowledged writer has returned, once, or sleeps with a signal pending. */
  ghost predicate ReturnInv(queue: seq<nat>, acked: seq<Ack>, returned: seq<nat>, asleep: set<nat>, signalled: set<nat>)
  {
    && Distinct(returned)
    && (forall i :: 0 <= i < |returned| ==> Acknowledged(acked, returned[i]) && returned[i] !in asleep)
    && (forall i :: 0 <= i < |acked| ==> acked[i].id in returned || (acked[i].id in asleep && acked[i].id in signalled))
    && (forall id :: id in asleep ==> id in queue || Acknowledged(acked, id))
  }

  function Total(acked: seq<Ack>, n: nat): nat
    requires n <= |acked|
  {
    if n == 0 then 0 else Total(acked, n - 1) + |acked[n - 1].ops|
  }

  /** Sequence numbers are handed out without gaps, in the order of acknowledgement. */
  ghost predicate SequenceInv(acked: seq<Ack>, last: nat)
  {
    last == Total(acked, |acked|) && forall i :: 0 <= i < |acked| ==> acked[i].first == 1 + Total(acked, i)
  }

  /** The batch sits in record `b` at place `k`, under its own sequence numbers. */
  predicate InRecord(b: Batch, k: nat, first: nat, ops: seq<Op>)
  {
    k + |ops| <= |b.ops| && b.ops[k..k + |ops|] == ops && b.first + k == first
  }

  /** The batch is in the log, below `limit` records, and in the memtable. */
  ghost predicate Kept(log: seq<Batch>, limit: nat, mem: iset<Entry>, first: nat, ops: seq<Op>)
  {
    && (exists j, k :: 0 <= j < |log| && j < limit && InRecord(log[j], k, first, ops))
    && BatchEntries(Batch(first, ops), |ops|) <= mem
  }

  ghost predicate AckInv(acked: seq<Ack>, log: seq<Batch>, synced: nat, mem: iset<Entry>)
  {
    && synced <= |log|
    && forall i :: 0 <= i < |acked| && acked[i].ok && acked[i].ops != [] ==>
         Kept(log, if acked[i].sync then synced else |log|, mem, acked[i].first, acked[i].ops)
  }

  /** What the leader has done so far for its group. */
  ghost predicate LeaderInv(phase: Phase, writers: map<nat, Writer>, queue: seq<nat>, log: seq<Batch>, synced: nat,
                            mem: iset<Entry>, last: nat)
    requires queue != [] && forall i :: 0 <= i < |queue| ==> queue[i] in writers
  {
    match phase
    case Entered => true
    case Ready => writers[queue[0]].batch.Some?
    case Grouped(n, ops) => LegalGroup(writers, queue, n) && ops == GroupOps(writers, queue, n)
    case Logged(n, ops) =>
      && LegalGroup(writers, queue, n) && ops == GroupOps(writers, queue, n)
      && log != [] && log[|log| - 1] == Batch(last + 1, ops)
    case Synced(n, ops) =>
      && LegalGroup(writers, queue, n) && ops == GroupOps(writers, queue, n)
      && log != [] && log[|log| - 1] == Batch(last + 1, ops) && (writers[queue[0]].sync ==> synced == |log|)
    case Over(n, ops, ok) =>
      && 0 < n <= |queue| && (ops == GroupOps(writers, queue, n) || (ops == [] && n == 1 && !ok))
      && (ok && ops != [] ==>
            && LegalGroup(writers, queue, n) && ops == GroupOps(writers, queue, n)
            && log != [] && log[|log| - 1] == Batch(last + 1, ops) && (writers[queue[0]].sync ==> synced == |log|)
            && BatchEntries(Batch(last + 1, ops), |ops|) <= mem)
  }

  ghost predicate Inv(s: State)
  {
    && QueueInv(s.writers, s.queue, s.acked)
    && TieInv(s.writers, s.acked) && Ids(s.acked) + s.queue == s.arrived
    && SleepInv(s.queue, s.asleep, s.signalled, s.leader.Some?)
    && ReturnInv(s.queue, s.acked, s.returned, s.asleep, s.signalled)
    && SequenceInv(s.acked, s.lastSequence)
    && AckInv(s.acked, s.log, s.synced, s.mem)
    && (s.leader.Some? ==> LeaderInv(s.leader.value, s.writers, s.queue, s.log, s.synced, s.mem, s.lastSequence))
  }

  ghost predicate Init(s: State)
  {
    s == State(map[], [], {}, {}, None, 0, [], 0, iset{}, false, [], [], [])
  }

  // ------------------------------------------------------------------
  // Steps keep it.

  lemma {:induction false} SameGroup(writers: map<nat, Writer>, queue: seq<nat>, id: nat, w: Writer, n: nat)
    requires n <= |queue| && (forall i :: 0 <= i < |queue| ==> queue[i] in writers) && id !in writers
    ensures GroupOps(writers[id := w], queue + [id], n) == GroupOps(writers, queue, n)
  {
    if n > 0 {
      SameGroup(writers, queue, id, w, n - 1);
    }
  }

  lemma {:induction false} EnqueueKeepsInv(s: State, s': State, id: nat, w: Writer)
    requires Inv(s) && Enqueue(s, s', id, w)
    ensures Inv(s')
  {
    hide SequenceInv, AckInv, GroupOps, TieInv, Ids;
    if s.queue == [] {
      assert s.leader.None?;
    } else if s.leader.Some? && !s.leader.value.Entered? && !s.leader.value.Ready? {
      SameGroup(s.writers, s.queue, id, w, s.leader.value.n);
    }
    assert !Acknowledged(s.acked, id);
    assert Ids(s.acked) + (s.queue + [id]) == (Ids(s.acked) + s.queue) + [id];
    TiesStay(s.writers, s.acked, id, w);
  }

  lemma {:induction false} TiesStay(writers: map<nat, Writer>, acked: seq<Ack>, id: nat, w: Writer)
    requires TieInv(writers, acked) && !Acknowledged(acked, id)
    ensures TieInv(writers[id := w], acked)
  {
    forall i | 0 <= i < |acked|
      ensures acked[i].id != id
    {
    }
  }

  lemma {:induction false} WakeKeepsInv(s: State, s': State, id: nat)
    requires Inv(s) && Wake(s, s', id)
    ensures Inv(s')
  {
    hide SequenceInv, AckInv, GroupOps, TieInv, Ids;
    if Acknowledged(s.acked, id) {
      assert id !in s.queue;
      assert id !in s.returned;
    }
  }

  lemma {:induction false} MakeRoomKeepsInv(s: State, s': State)
    requires Inv(s) && MakeRoom(s, s')
    ensures Inv(s')
  {
    hide SequenceInv, AckInv, QueueInv, SleepInv, ReturnInv, TieInv, Ids;
    LeaderFacts(s);
    assert GroupOps(s.writers, s.queue, 0) == [];
  }

  lemma {:induction false} GatherKeepsInv(s: State, s': State, n: nat)
    requires Inv(s) && Gather(s, s', n)
    ensures Inv(s')
  {
    hide SequenceInv, AckInv, SleepInv, ReturnInv, TieInv, Ids;
  }

  /** More log, more syncs and more entries keep what is acknowledged. */
  lemma {:induction false} AcksStay(acked: seq<Ack>, log: seq<Batch>, synced: nat, mem: iset<Entry>, log': seq<Batch>,
                                    synced': nat, mem': iset<Entry>)
    requires AckInv(acked, log, synced, mem) && log <= log' && synced <= synced' <= |log'| && mem <= mem'
    ensures AckInv(acked, log', synced', mem')
  {
    forall i | 0 <= i < |acked| && acked[i].ok && acked[i].ops != []
      ensures Kept(log', if acked[i].sync then synced' else |log'|, mem', acked[i].first, acked[i].ops)
    {
      var limit := if acked[i].sync then synced else |log|;
      assert Kept(log, limit, mem, acked[i].first, acked[i].ops);
      var j, k :| 0 <= j < |log| && j < limit && InRecord(log[j], k, acked[i].first, acked[i].ops);
      assert log'[j] == log[j];
    }
  }

  lemma {:induction false} LogGroupKeepsInv(s: State, s': State, ok: bool)
    requires Inv(s) && LogGroup(s, s', ok)
    ensures Inv(s')
  {
    hide SequenceInv, AckInv, SleepInv, ReturnInv, GroupOps, TieInv, Ids;
    AckBounds(s.acked, s.log, s.synced, s.mem);
    AcksStay(s.acked, s.log, s.synced, s.mem, s'.log, s'.synced, s'.mem);
  }

  lemma {:induction false} AckBounds(acked: seq<Ack>, log: seq<Batch>, synced: nat, mem: iset<Entry>)
    requires AckInv(acked, log, synced, mem)
    ensures synced <= |log|
  {
  }

  lemma {:induction false} SyncLogKeepsInv(s: State, s': State, ok: bool)
    requires Inv(s) && SyncLog(s, s', ok)
    ensures Inv(s')
  {
    hide SequenceInv, AckInv, SleepInv, ReturnInv, GroupOps, TieInv, Ids;
    AckBounds(s.acked, s.log, s.synced, s.mem);
    AcksStay(s.acked, s.log, s.synced, s.mem, s'.log, s'.synced, s'.mem);
  }

  lemma {:induction false} InsertGroupKeepsInv(s: State, s': State)
    requires Inv(s) && InsertGroup(s, s')
    ensures Inv(s')
  {
    hide SequenceInv, AckInv, SleepInv, ReturnInv, GroupOps, TieInv, Ids;
    AckBounds(s.acked, s.log, s.synced, s.mem);
    AcksStay(s.acked, s.log, s.synced, s.mem, s'.log, s'.synced, s'.mem);
  }

  // ------------------------------------------------------------------
  // Acknowledging a group.

  lemma {:induction false} AcksAt(writers: map<nat, Writer>, queue: seq<nat>, n: nat, first: nat, ok: bool, apply: bool)
    requires n <= |queue| && forall i :: 0 <= i < |queue| ==> queue[i] in writers
    ensures |Acks(writers, queue, n, first, ok, apply)| == n
    ensures forall i :: 0 <= i < n ==>
      Acks(writers, queue, n, first, ok, apply)[i]
        == Ack(queue[i], if apply then OpsOf(writers[queue[i]]) else [],
               first + if apply then |GroupOps(writers, queue, i)| else 0, writers[queue[i]].sync, ok)
  {
    hide GroupOps, OpsOf;
    if n > 0 {
      AcksAt(writers, queue, n - 1, first, ok, apply);
      var acks, init := Acks(writers, queue, n, first, ok, apply), Acks(writers, queue, n - 1, first, ok, apply);
      assert forall i :: 0 <= i < n - 1 ==> acks[i] == init[i];
    }
  }

  /** Each member's operations keep their place in the group. */
  lemma {:induction false} GroupSlice(writers: map<nat, Writer>, queue: seq<nat>, n: nat, i: nat)
    requires i < n <= |queue| && forall i :: 0 <= i < |queue| ==> queue[i] in writers
    ensures var k, ops := |GroupOps(writers, queue, i)|, OpsOf(writers[queue[i]]);
      k + |ops| <= |GroupOps(writers, queue, n)| && GroupOps(writers, queue, n)[k..k + |ops|] == ops
  {
    hide OpsOf;
    var k, ops := |GroupOps(writers, queue, i)|, OpsOf(writers[queue[i]]);
    var init, last := GroupOps(writers, queue, n - 1), OpsOf(writers[queue[n - 1]]);
    assert GroupOps(writers, queue, n) == init + last;
    if i < n - 1 {
      GroupSlice(writers, queue, n - 1, i);
      assert (init + last)[k..k + |ops|] == init[k..k + |ops|];
    }
  }

  lemma {:induction false} TotalPrefix(acked: seq<Ack>, more: seq<Ack>, n: nat)
    requires n <= |acked|
    ensures Total(acked + more, n) == Total(acked, n)
  {
    if n > 0 {
      TotalPrefix(acked, more, n - 1);
    }
  }

  /** The new acknowledgements go on counting where the old ones stopped. */
  lemma {:induction false} TotalOfAcks(acked: seq<Ack>, writers: map<nat, Writer>, queue: seq<nat>, n: nat, i: nat,
                                       first: nat, ok: bool, apply: bool)
    requires i <= n <= |queue| && forall i :: 0 <= i < |queue| ==> queue[i] in writers
    ensures |Acks(writers, queue, n, first, ok, apply)| == n
    ensures Total(acked + Acks(writers, queue, n, first, ok, apply), |acked| + i)
         == Total(acked, |acked|) + if apply then |GroupOps(writers, queue, i)| else 0
  {
    AcksAt(writers, queue, n, first, ok, apply);
    if i == 0 {
      TotalPrefix(acked, Acks(writers, queue, n, first, ok, apply), |acked|);
    } else {
      TotalOfAcks(acked, writers, queue, n, i - 1, first, ok, apply);
    }
  }

  lemma {:induction false} SequencesAfter(s: State, n: nat, ops: seq<Op>, ok: bool)
    requires SequenceInv(s.acked, s.lastSequence) && 0 < n <= |s.queue|
    requires forall i :: 0 <= i < |s.queue| ==> s.queue[i] in s.writers
    requires ops == GroupOps(s.writers, s.queue, n) || ops == []
    ensures SequenceInv(s.acked + Acks(s.writers, s.queue, n, s.lastSequence + 1, ok, ops != []), s.lastSequence + |ops|)
  {
    hide GroupOps, Total, Acks;
    var acks := Acks(s.writers, s.queue, n, s.lastSequence + 1, ok, ops != []);
    AcksAt(s.writers, s.queue, n, s.lastSequence + 1, ok, ops != []);
    TotalOfAcks(s.acked, s.writers, s.queue, n, n, s.lastSequence + 1, ok, ops != []);
    forall i | 0 <= i < |s.acked + acks|
      ensures (s.acked + acks)[i].first == 1 + Total(s.acked + acks, i)
    {
      if i < |s.acked| {
        TotalPrefix(s.acked, acks, i);
      } else {
        TotalOfAcks(s.acked, s.writers, s.queue, n, i - |s.acked|, s.lastSequence + 1, ok, ops != []);
      }
    }
  }

  /** A member of a group that was logged and inserted is itself in the log and in the memtable. */
  lemma {:induction false} MemberKept(s: State, n: nat, ops: seq<Op>, i: nat)
    requires Inv(s) && s.leader == Some(Over(n, ops, true)) && ops != [] && i < n && s.queue != []
    ensures n <= |s.queue| && s.queue[i] in s.writers
    ensures Kept(s.log, if s.writers[s.queue[i]].sync then s.synced else |s.log|, s.mem,
                 s.lastSequence + 1 + |GroupOps(s.writers, s.queue, i)|, OpsOf(s.writers[s.queue[i]]))
  {
    hide QueueInv, SleepInv, ReturnInv, SequenceInv, AckInv, GroupOps;
    LeaderFacts(s);
    var k, part := |GroupOps(s.writers, s.queue, i)|, OpsOf(s.writers[s.queue[i]]);
    GroupSlice(s.writers, s.queue, n, i);
    var b, first := s.log[|s.log| - 1], s.lastSequence + 1;
    assert InRecord(b, k, first + k, part);
    forall e | InBatch(Batch(first + k, part), |part|, e)
      ensures e in s.mem
    {
      var m :| 0 <= m < |part| && e == EntryOf(Batch(first + k, part), m);
      assert part[m] == ops[k..k + |part|][m] == ops[k + m];
      assert e == EntryOf(Batch(first, ops), k + m);
      assert InBatch(Batch(first, ops), |ops|, e);
    }
  }

  lemma {:induction false} LeaderFacts(s: State)
    requires Inv(s) && s.leader.Some?
    ensures s.queue != [] && forall i :: 0 <= i < |s.queue| ==> s.queue[i] in s.writers
    ensures LeaderInv(s.leader.value, s.writers, s.queue, s.log, s.synced, s.mem, s.lastSequence)
  {
    hide ReturnInv, SequenceInv, AckInv, LeaderInv;
  }

  lemma {:induction false} OverFacts(s: State)
    requires Inv(s) && s.leader.Some? && s.leader.value.Over?
    ensures s.queue != [] && forall i :: 0 <= i < |s.queue| ==> s.queue[i] in s.writers
    ensures var g := s.leader.value;
      0 < g.n <= |s.queue| && (g.ops == GroupOps(s.writers, s.queue, g.n) || (g.ops == [] && !g.ok))
  {
    hide QueueInv, SleepInv, ReturnInv, SequenceInv, AckInv, GroupOps, TieInv, Ids;
    LeaderFacts(s);
  }

  lemma {:induction false} AcksAfter(s: State, n: nat, ops: seq<Op>, ok: bool)
    requires Inv(s) && s.leader == Some(Over(n, ops, ok)) && s.queue != [] && n <= |s.queue|
    requires forall i :: 0 <= i < |s.queue| ==> s.queue[i] in s.writers
    ensures AckInv(s.acked + Acks(s.writers, s.queue, n, s.lastSequence + 1, ok, ops != []), s.log, s.synced, s.mem)
  {
    hide QueueInv, SleepInv, ReturnInv, SequenceInv, LeaderInv, GroupOps, Kept, Acks;
    var acks := Acks(s.writers, s.queue, n, s.lastSequence + 1, ok, ops != []);
    AcksAt(s.writers, s.queue, n, s.lastSequence + 1, ok, ops != []);
    forall i | 0 <= i < |acks| && acks[i].ok && acks[i].ops != []
      ensures Kept(s.log, if acks[i].sync then s.synced else |s.log|, s.mem, acks[i].first, acks[i].ops)
    {
      MemberKept(s, n, ops, i);
    }
  }

  lemma {:induction false} QueueAfter(writers: map<nat, Writer>, queue: seq<nat>, acked: seq<Ack>, acks: seq<Ack>)
    requires QueueInv(writers, queue, acked) && |acks| <= |queue|
    requires forall i :: 0 <= i < |acks| ==> acks[i].id == queue[i]
    ensures QueueInv(writers, queue[|acks|..], acked + acks)
    ensures forall id :: Acknowledged(acked + acks, id) <==> Acknowledged(acked, id) || id in queue[..|acks|]
  {
    var n, all := |acks|, acked + acks;
    forall id
      ensures Acknowledged(all, id) <==> Acknowledged(acked, id) || id in queue[..n]
    {
      if Acknowledged(all, id) {
        var i :| 0 <= i < |all| && all[i].id == id;
        assert i >= |acked| ==> queue[..n][i - |acked|] == id;
      }
      if Acknowledged(acked, id) {
        var i :| 0 <= i < |acked| && acked[i].id == id;
        assert all[i].id == id;
      }
      if id in queue[..n] {
        var i :| 0 <= i < n && queue[i] == id;
        assert all[|acked| + i].id == id;
      }
    }
    forall i, j | 0 <= i < j < |all|
      ensures all[i].id != all[j].id
    {
      if i < |acked| <= j {
        assert Acknowledged(acked, all[i].id);
      }
    }
    forall id | id in writers
      ensures id in queue[n..] || Acknowledged(all, id)
    {
      assert id in queue ==> id in queue[..n] || id in queue[n..];
    }
  }

  lemma {:induction false} SleepersAfter(s: State, n: nat, acks: seq<Ack>, signalled: set<nat>)
    requires QueueInv(s.writers, s.queue, s.acked) && SleepInv(s.queue, s.asleep, s.signalled, true)
    requires ReturnInv(s.queue, s.acked, s.returned, s.asleep, s.signalled)
    requires 0 < n == |acks| <= |s.queue| && forall i :: 0 <= i < n ==> acks[i].id == s.queue[i]
    requires s.signalled <= signalled && forall i :: 0 < i <= n && i < |s.queue| ==> s.queue[i] in signalled
    ensures SleepInv(s.queue[n..], s.asleep, signalled, false)
    ensures ReturnInv(s.queue[n..], s.acked + acks, s.returned + [s.queue[0]], s.asleep, signalled)
  {
    QueueAfter(s.writers, s.queue, s.acked, acks);
    hide QueueInv;
    var rest, all, returned := s.queue[n..], s.acked + acks, s.returned + [s.queue[0]];
    NotYet(s.writers, s.queue, s.acked, s.returned);
    assert s.queue[0] in s.queue[..n];
    forall id | id in s.asleep
      ensures id in rest || Acknowledged(all, id)
    {
      assert id in s.queue ==> id in s.queue[..n] || id in rest;
    }
    forall i | 0 <= i < |all|
      ensures all[i].id in returned || (all[i].id in s.asleep && all[i].id in signalled)
    {
      if i < |s.acked| {
        assert s.acked[i].id in s.returned || (s.acked[i].id in s.asleep && s.acked[i].id in s.signalled);
      } else if i == |s.acked| {
        assert returned[|s.returned|] == s.queue[0];
      }
    }
  }

  lemma {:induction false} NotYet(writers: map<nat, Writer>, queue: seq<nat>, acked: seq<Ack>, returned: seq<nat>)
    requires QueueInv(writers, queue, acked) && queue != []
    requires forall i :: 0 <= i < |returned| ==> Acknowledged(acked, returned[i])
    ensures queue[0] !in returned
  {
  }

  lemma {:induction false} AcknowledgeQueues(s: State, s': State)
    requires Inv(s) && Acknowledge(s, s')
    ensures QueueInv(s'.writers, s'.queue, s'.acked) && SleepInv(s'.queue, s'.asleep, s'.signalled, false)
    ensures ReturnInv(s'.queue, s'.acked, s'.returned, s'.asleep, s'.signalled)
    ensures Ids(s'.acked) + s'.queue == s'.arrived
  {
    hide QueueInv, SleepInv, ReturnInv, SequenceInv, AckInv, GroupOps, Acks, LeaderInv, Told, Acknowledged, TieInv, Ids;
    OverFacts(s);
    var g := s.leader.value;
    var acks := Acks(s.writers, s.queue, g.n, s.lastSequence + 1, g.ok, g.ops != []);
    AckIds(s.writers, s.queue, g.n, s.lastSequence + 1, g.ok, g.ops != []);
    QueueAfter(s.writers, s.queue, s.acked, acks);
    AllTold(s.queue, g.n);
    SleepersAfter(s, g.n, acks, s'.signalled);
    IdsAfter(s.acked, acks, s.queue);
  }

  lemma {:induction false} IdsAfter(acked: seq<Ack>, acks: seq<Ack>, queue: seq<nat>)
    requires |acks| <= |queue| && forall i :: 0 <= i < |acks| ==> acks[i].id == queue[i]
    ensures Ids(acked + acks) + queue[|acks|..] == Ids(acked) + queue
  {
    assert Ids(acked + acks) == Ids(acked) + queue[..|acks|];
  }

  /** The new acknowledgements speak of their writers. */
  lemma {:induction false} TiesAfter(s: State, n: nat, ops: seq<Op>, ok: bool)
    requires TieInv(s.writers, s.acked) && n <= |s.queue|
    requires forall i :: 0 <= i < |s.queue| ==> s.queue[i] in s.writers
    requires ops == GroupOps(s.writers, s.queue, n) || (ops == [] && !ok)
    ensures TieInv(s.writers, s.acked + Acks(s.writers, s.queue, n, s.lastSequence + 1, ok, ops != []))
  {
    hide GroupOps, Acks;
    var acks := Acks(s.writers, s.queue, n, s.lastSequence + 1, ok, ops != []);
    AcksAt(s.writers, s.queue, n, s.lastSequence + 1, ok, ops != []);
    forall i | 0 <= i < n
      ensures acks[i].ops == OpsOf(s.writers[s.queue[i]]) || (acks[i].ops == [] && !ok)
    {
      GroupSlice(s.writers, s.queue, n, i);
    }
  }

  lemma {:induction false} AllTold(queue: seq<nat>, n: nat)
    requires n <= |queue|
    ensures forall i :: 0 < i <= n && i < |queue| ==> queue[i] in Told(queue, n)
  {
  }

  lemma {:induction false} AckIds(writers: map<nat, Writer>, queue: seq<nat>, n: nat, first: nat, ok: bool, apply: bool)
    requires n <= |queue| && forall i :: 0 <= i < |queue| ==> queue[i] in writers
    ensures var acks := Acks(writers, queue, n, first, ok, apply);
      |acks| == n && forall i :: 0 <= i < n ==> acks[i].id == queue[i]
  {
    hide Acks;
    AcksAt(writers, queue, n, first, ok, apply);
  }

  lemma {:induction false} AcknowledgeNumbers(s: State, s': State)
    requires Inv(s) && Acknowledge(s, s')
    ensures SequenceInv(s'.acked, s'.lastSequence) && AckInv(s'.acked, s'.log, s'.synced, s'.mem)
    ensures TieInv(s'.writers, s'.acked)
  {
    hide QueueInv, SleepInv, ReturnInv, SequenceInv, AckInv, GroupOps, Acks, LeaderInv, TieInv, Ids;
    OverFacts(s);
    var g := s.leader.value;
    SequencesAfter(s, g.n, g.ops, g.ok);
    AcksAfter(s, g.n, g.ops, g.ok);
    TiesAfter(s, g.n, g.ops, g.ok);
  }

  lemma {:induction false} AcknowledgeKeepsInv(s: State, s': State)
    requires Inv(s) && Acknowledge(s, s')
    ensures Inv(s')
  {
    hide QueueInv, SleepInv, ReturnInv, SequenceInv, AckInv, LeaderInv, TieInv, Ids;
    AcknowledgeQueues(s, s');
    AcknowledgeNumbers(s, s');
  }

  // ------------------------------------------------------------------
  // Runs.

  datatype Step =
    | Arrive(id: nat, w: Writer)
    | WakeUp(id: nat)
    | Room
    | Group(n: nat)
    | Append(ok: bool)
    | Sync(ok: bool)
    | Apply
    | Finish

  ghost predicate Does(s: State, step: Step, s': State)
  {
    match step
    case Arrive(id, w) => Enqueue(s, s', id, w)
    case WakeUp(id) => Wake(s, s', id)
    case Room => MakeRoom(s, s')
    case Group(n) => Gather(s, s', n)
    case Append(ok) => LogGroup(s, s', ok)
    case Sync(ok) => SyncLog(s, s', ok)
    case Apply => InsertGroup(s, s')
    case Finish => Acknowledge(s, s')
  }

  lemma {:induction false} StepKeepsInv(s: State, step: Step, s': State)
    requires Inv(s) && Does(s, step, s')
    ensures Inv(s')
  {
    hide Inv;
    match step
    case Arrive(id, w) => EnqueueKeepsInv(s, s', id, w);
    case WakeUp(id) => WakeKeepsInv(s, s', id);
    case Room => MakeRoomKeepsInv(s, s');
    case Group(n) => GatherKeepsInv(s, s', n);
    case Append(ok) => LogGroupKeepsInv(s, s', ok);
    case Sync(ok) => SyncLogKeepsInv(s, s', ok);
    case Apply => InsertGroupKeepsInv(s, s');
    case Finish => AcknowledgeKeepsInv(s, s');
  }

  ghost predicate Run(states: seq<State>, steps: seq<Step>)
  {
    && |states| == |steps| + 1 && Init(states[0])
    && forall i :: 0 <= i < |steps| ==> Does(states[i], steps[i], states[i + 1])
  }

  /**
   In every state of every run: writers are acknowledged in the order of arrival, none twice,
   and none returns twice; the acknowledged batches take up the sequence numbers from 1 on
   without gap or overlap, in that order; each acknowledgement carries its writer's sync flag
   and, with success, its writer's batch, which is in the log and in the memtable under those
   numbers, and below the synced part of the log if the writer asked for that; and whoever
   heads the queue leads or has a signal coming.
   */
  lemma {:induction false} GroupCommitIsSound(states: seq<State>, steps: seq<Step>, n: nat)
    requires Run(states, steps) && n <= |steps|
    ensures Inv(states[n])
  {
    hide Inv, Does;
    if n == 0 {
      InitIsGood(states[0]);
    } else {
      GroupCommitIsSound(states, steps, n - 1);
      StepKeepsInv(states[n - 1], steps[n - 1], states[n]);
    }
  }

  lemma {:induction false} InitIsGood(s: State)
    requires Init(s)
    ensures Inv(s)
  {
  }

  /** The first to arrive are the first acknowledged, with smaller sequence numbers and none shared. */
  lemma {:induction false} IntervalsInOrder(states: seq<State>, steps: seq<Step>, n: nat, i: nat, j: nat)
    requires Run(states, steps) && n <= |steps| && i < j < |states[n].acked|
    ensures j < |states[n].arrived|
    ensures states[n].acked[i].id == states[n].arrived[i] && states[n].acked[j].id == states[n].arrived[j]
    ensures var a, b := states[n].acked[i], states[n].acked[j];
      a.first + |a.ops| <= b.first && b.first + |b.ops| <= states[n].lastSequence + 1
      && (j == i + 1 ==> b.first == a.first + |a.ops|)
  {
    hide Does, Init, SequenceInv, QueueInv, SleepInv, ReturnInv, AckInv, LeaderInv, TieInv;
    GroupCommitIsSound(states, steps, n);
    IntervalsOf(states[n].acked, states[n].lastSequence, i, j);
    var s := states[n];
    assert s.arrived[i] == Ids(s.acked)[i] && s.arrived[j] == Ids(s.acked)[j];
  }

  /**
   Sequence numbers of failed groups are used up: of two successful batches with none in
   between, the second goes on where the first stops exactly if nothing failed in between
   that had reached the log with operations.
   */
  lemma {:induction false} ContiguousUnlessFailed(states: seq<State>, steps: seq<Step>, n: nat, i: nat, j: nat)
    requires Run(states, steps) && n <= |steps| && i < j < |states[n].acked|
    requires states[n].acked[i].ok && states[n].acked[j].ok
    requires forall k :: i < k < j ==> !states[n].acked[k].ok
    ensures var acked := states[n].acked;
      acked[j].first == acked[i].first + |acked[i].ops| <==> forall k :: i < k < j ==> acked[k].ops == []
  {
    hide Does, Init, QueueInv, SleepInv, ReturnInv, AckInv, LeaderInv, TieInv, Ids, Total;
    GroupCommitIsSound(states, steps, n);
    TotalStep(states[n].acked, i);
    TotalsEqual(states[n].acked, i + 1, j);
  }

  lemma {:induction false} TotalsEqual(acked: seq<Ack>, i: nat, j: nat)
    requires i <= j <= |acked|
    ensures Total(acked, i) == Total(acked, j) <==> forall k :: i <= k < j ==> acked[k].ops == []
  {
    if i < j {
      TotalsEqual(acked, i, j - 1);
      TotalsGrow(acked, i, j - 1);
      assert |acked[j - 1].ops| == 0 <==> acked[j - 1].ops == [];
    }
  }

  lemma {:induction false} RunOn(states: seq<State>, steps: seq<Step>, step: Step, s': State)
    requires Run(states, steps) && Does(states[|steps|], step, s')
    ensures Run(states + [s'], steps + [step])
  {
    hide Does, Init;
  }

  /** The first successful batch need not have sequence number 1: a group the log refused came before it. */
  lemma {:induction false} FailedGroupUsesNumbers(op: Op) returns (states: seq<State>, steps: seq<Step>)
    ensures Run(states, steps)
    ensures states[|steps|].acked == [Ack(1, [op], 1, false, false), Ack(2, [op], 2, false, true)]
  {
    hide Run;
    var s := State(map[], [], {}, {}, None, 0, [], 0, iset{}, false, [], [], []);
    states, steps := [s], [];
    StartRun(s);
    states, steps, s := OneWriter(states, steps, s, 1, op);
    states, steps, s := Refused(states, steps, s, 1, op);
    states, steps, s := OneWriter(states, steps, s, 2, op);
    states, steps, s := Committed(states, steps, s, 2, op);
  }

  lemma {:induction false} StartRun(s: State)
    requires Init(s)
    ensures Run([s], [])
  {
  }

  /** A writer comes to an empty queue and gathers itself. */
  lemma {:induction false} OneWriter(states: seq<State>, steps: seq<Step>, s: State, id: nat, op: Op)
    returns (states': seq<State>, steps': seq<Step>, s': State)
    requires Run(states, steps) && s == states[|steps|]
    requires s.queue == [] && s.leader.None? && id !in s.writers && !s.broken
    ensures Run(states', steps') && s' == states'[|steps'|]
    ensures s' == s.(writers := s.writers[id := Writer(Some([op]), false)], queue := [id], arrived := s.arrived + [id],
                     leader := Some(Grouped(1, [op])))
  {
    hide Run;
    RunEnds(states, steps);
    var w := Writer(Some([op]), false);
    var a := s.(writers := s.writers[id := w], queue := [id], arrived := s.arrived + [id], leader := Some(Entered));
    var b := a.(leader := Some(Ready));
    s' := a.(leader := Some(Grouped(1, [op])));
    assert GroupOps(a.writers, a.queue, 0) == [] && GroupOps(a.writers, a.queue, 1) == [op];
    states', steps' := states + [a] + [b] + [s'], steps + [Arrive(id, w)] + [Room] + [Group(1)];
    RunOn(states, steps, Arrive(id, w), a);
    RunOn(states + [a], steps + [Arrive(id, w)], Room, b);
    RunOn(states + [a] + [b], steps + [Arrive(id, w)] + [Room], Group(1), s');
  }

  lemma {:induction false} RunEnds(states: seq<State>, steps: seq<Step>)
    requires Run(states, steps)
    ensures |states| == |steps| + 1
  {
  }

  /** The acknowledgement of a lone writer. */
  lemma {:induction false} LoneAck(s: State, id: nat, op: Op, ok: bool)
    requires s.queue == [id] && id in s.writers && s.writers[id] == Writer(Some([op]), false)
    ensures Acks(s.writers, s.queue, 1, s.lastSequence + 1, ok, true) == [Ack(id, [op], s.lastSequence + 1, false, ok)]
    ensures Told(s.queue, 1) == {}
  {
    assert GroupOps(s.writers, s.queue, 0) == [] && Acks(s.writers, s.queue, 0, s.lastSequence + 1, ok, true) == [];
  }

  lemma {:induction false} Refused(states: seq<State>, steps: seq<Step>, s: State, id: nat, op: Op)
    returns (states': seq<State>, steps': seq<Step>, s': State)
    requires Run(states, steps) && s == states[|steps|]
    requires s.queue == [id] && s.leader == Some(Grouped(1, [op]))
    requires id in s.writers && s.writers[id] == Writer(Some([op]), false)
    ensures Run(states', steps') && s' == states'[|steps'|]
    ensures s' == s.(queue := [], leader := None, lastSequence := s.lastSequence + 1, returned := s.returned + [id],
                     acked := s.acked + [Ack(id, [op], s.lastSequence + 1, false, false)])
  {
    hide Run, Acks, Told;
    RunEnds(states, steps);
    var a := s.(leader := Some(Over(1, [op], false)));
    LoneAck(a, id, op, false);
    s' := s.(queue := [], leader := None, lastSequence := s.lastSequence + 1, returned := s.returned + [id],
             acked := s.acked + [Ack(id, [op], s.lastSequence + 1, false, false)]);
    states', steps' := states + [a] + [s'], steps + [Append(false)] + [Finish];
    RunOn(states, steps, Append(false), a);
    assert a.signalled + {} == a.signalled && a.queue[1..] == [];
    RunOn(states + [a], steps + [Append(false)], Finish, s');
  }

  lemma {:induction false} Committed(states: seq<State>, steps: seq<Step>, s: State, id: nat, op: Op)
    returns (states': seq<State>, steps': seq<Step>, s': State)
    requires Run(states, steps) && s == states[|steps|]
    requires s.queue == [id] && s.leader == Some(Grouped(1, [op]))
    requires id in s.writers && s.writers[id] == Writer(Some([op]), false)
    ensures Run(states', steps') && s' == states'[|steps'|]
    ensures s'.acked == s.acked + [Ack(id, [op], s.lastSequence + 1, false, true)]
  {
    hide Run, Acks, Told;
    RunEnds(states, steps);
    var batch := Batch(s.lastSequence + 1, [op]);
    var a := s.(log := s.log + [batch], leader := Some(Logged(1, [op])));
    var b := a.(leader := Some(Synced(1, [op])));
    var c := b.(mem := b.mem + BatchEntries(batch, 1), leader := Some(Over(1, [op], true)));
    LoneAck(c, id, op, true);
    s' := c.(queue := [], leader := None, lastSequence := c.lastSequence + 1, returned := c.returned + [id],
             acked := c.acked + [Ack(id, [op], c.lastSequence + 1, false, true)]);
    states', steps' := states + [a] + [b] + [c] + [s'], steps + [Append(true)] + [Sync(true)] + [Apply] + [Finish];
    RunOn(states, steps, Append(true), a);
    RunOn(states + [a], steps + [Append(true)], Sync(true), b);
    RunOn(states + [a] + [b], steps + [Append(true)] + [Sync(true)], Apply, c);
    assert c.signalled + {} == c.signalled && c.queue[1..] == [];
    RunOn(states + [a] + [b] + [c], steps + [Append(true)] + [Sync(true)] + [Apply], Finish, s');
  }

  lemma {:induction false} IntervalsOf(acked: seq<Ack>, last: nat, i: nat, j: nat)
    requires SequenceInv(acked, last) && i < j < |acked|
    ensures acked[i].first + |acked[i].ops| <= acked[j].first && acked[j].first + |acked[j].ops| <= last + 1
    ensures j == i + 1 ==> acked[j].first == acked[i].first + |acked[i].ops|
  {
    hide Total;
    TotalStep(acked, i);
    TotalStep(acked, j);
    TotalsGrow(acked, i + 1, j);
    TotalsGrow(acked, j + 1, |acked|);
  }

  lemma {:induction false} TotalStep(acked: seq<Ack>, n: nat)
    requires n < |acked|
    ensures Total(acked, n + 1) == Total(acked, n) + |acked[n].ops|
  {
  }

  lemma {:induction false} TotalsGrow(acked: seq<Ack>, i: nat, j: nat)
    requires i <= j <= |acked|
    ensures Total(acked, i) <= Total(acked, j)
  {
    if i < j {
      TotalsGrow(acked, i, j - 1);
    }
  }

  /** What a writer is told with success is true of its own batch: it is logged and inserted under its numbers. */
  lemma {:induction false} SuccessMeansKept(states: seq<State>, steps: seq<Step>, n: nat, i: nat)
    requires Run(states, steps) && n <= |steps| && i < |states[n].acked| && states[n].acked[i].ok
    ensures var s := states[n]; var a := s.acked[i];
      && a.id in s.writers && a.ops == OpsOf(s.writers[a.id])
      && (a.ops != [] ==>
            && BatchEntries(Batch(a.first, a.ops), |a.ops|) <= s.mem
            && exists j, k :: 0 <= j < |s.log| && InRecord(s.log[j], k, a.first, a.ops))
  {
    hide Does, Init, SleepInv, ReturnInv, SequenceInv, LeaderInv, Ids, OpsOf;
    GroupCommitIsSound(states, steps, n);
    var s := states[n];
    var a := s.acked[i];
    if a.ops != [] {
      assert Kept(s.log, if a.sync then s.synced else |s.log|, s.mem, a.first, a.ops);
    }
  }

  /** Step `i` is a sync that the leader asked for and that succeeds. */
  ghost predicate Syncs(states: seq<State>, steps: seq<Step>, i: nat)
    requires i < |steps| && i < |states|
  {
    && steps[i] == Sync(true)
    && states[i].queue != [] && states[i].queue[0] in states[i].writers && states[i].writers[states[i].queue[0]].sync
  }

  /** How much of the log the last successful sync before step `n` covered. */
  ghost function SyncedBy(states: seq<State>, steps: seq<Step>, n: nat): nat
    requires |states| == |steps| + 1 && n <= |steps|
  {
    if n == 0 then 0
    else if Syncs(states, steps, n - 1) then |states[n - 1].log|
    else SyncedBy(states, steps, n - 1)
  }

  lemma {:induction false} StepOnSynced(s: State, step: Step, s': State)
    requires Does(s, step, s')
    ensures s'.synced ==
      if step == Sync(true) && s.queue != [] && s.queue[0] in s.writers && s.writers[s.queue[0]].sync then |s.log| else s.synced
    ensures s.log <= s'.log
  {
    hide Acks, Told, GroupOps, LegalGroup;
  }

  /** The log counts as synced up to where a successful sync has covered it, no further. */
  lemma {:induction false} SyncedFollowsSteps(states: seq<State>, steps: seq<Step>, n: nat)
    requires Run(states, steps) && n <= |steps|
    ensures states[n].synced == SyncedBy(states, steps, n)
  {
    hide Does;
    if n > 0 {
      SyncedFollowsSteps(states, steps, n - 1);
      assert Does(states[n - 1], steps[n - 1], states[n]);
      StepOnSynced(states[n - 1], steps[n - 1], states[n]);
    }
  }

  lemma {:induction false} LogOnlyGrows(states: seq<State>, steps: seq<Step>, i: nat, n: nat)
    requires Run(states, steps) && i <= n <= |steps|
    ensures states[i].log <= states[n].log
  {
    hide Does, Init;
    if i < n {
      LogOnlyGrows(states, steps, i, n - 1);
      assert Does(states[n - 1], steps[n - 1], states[n]);
      StepOnSynced(states[n - 1], steps[n - 1], states[n]);
    }
  }

  lemma {:induction false} SomeSyncCovers(states: seq<State>, steps: seq<Step>, n: nat, j: nat) returns (i: nat)
    requires |states| == |steps| + 1 && n <= |steps| && j < SyncedBy(states, steps, n)
    ensures i < n && Syncs(states, steps, i) && j < |states[i].log|
  {
    if Syncs(states, steps, n - 1) {
      i := n - 1;
    } else {
      i := SomeSyncCovers(states, steps, n - 1, j);
    }
  }

  /**
   A writer that asked for a sync and is told of success: a sync succeeded at a time when its
   own batch was in the log, under its own numbers.
   */
  lemma {:induction false} SyncWritesAreSynced(states: seq<State>, steps: seq<Step>, n: nat, k: nat)
    returns (i: nat, j: nat, place: nat)
    requires Run(states, steps) && n <= |steps| && k < |states[n].acked| && states[n].acked[k].ok
    requires var s := states[n]; var a := s.acked[k];
      a.id in s.writers && s.writers[a.id].sync && OpsOf(s.writers[a.id]) != []
    ensures i < n && Syncs(states, steps, i) && j < |states[i].log|
    ensures var a := states[n].acked[k];
      InRecord(states[i].log[j], place, a.first, OpsOf(states[n].writers[a.id]))
  {
    hide Does, Init, SleepInv, ReturnInv, SequenceInv, LeaderInv, Ids, OpsOf;
    GroupCommitIsSound(states, steps, n);
    SyncedFollowsSteps(states, steps, n);
    var s := states[n];
    var a := s.acked[k];
    assert Kept(s.log, s.synced, s.mem, a.first, a.ops);
    var r: nat, p: nat :| r < |s.log| && r < s.synced && InRecord(s.log[r], p, a.first, a.ops);
    i := SomeSyncCovers(states, steps, n, r);
    LogOnlyGrows(states, steps, i, n);
    j, place := r, p;
  }

  // ------------------------------------------------------------------
  // What a writer is told.

  /** Step `i` is a sync that the leader asked for and that fails. */
  ghost predicate FailsSync(states: seq<State>, steps: seq<Step>, i: nat)
    requires i < |steps| && i < |states|
  {
    && steps[i] == Sync(false)
    && states[i].queue != [] && states[i].queue[0] in states[i].writers && states[i].writers[states[i].queue[0]].sync
  }

  ghost predicate SyncHasFailed(states: seq<State>, steps: seq<Step>, n: nat)
    requires |states| == |steps| + 1 && n <= |steps|
  {
    exists i :: 0 <= i < n && FailsSync(states, steps, i)
  }

  /** The log refused a group that has not been acknowledged by step `n`. */
  predicate AppendHasFailed(steps: seq<Step>, n: nat)
    requires n <= |steps|
  {
    n > 0 && !steps[n - 1].Finish? && (steps[n - 1] == Append(false) || AppendHasFailed(steps, n - 1))
  }

  /** How far the leader can be, and with which outcome, given what has failed. */
  ghost predicate OutcomeInv(s: State, syncFailed: bool, appendFailed: bool)
  {
    && s.broken == syncFailed
    && (s.leader.None? || s.leader.value.Entered? ==> !appendFailed)
    && (s.leader.Some? && !s.leader.value.Entered? && !s.leader.value.Over? ==> !appendFailed && !syncFailed)
    && (s.leader.Some? && s.leader.value.Over? ==> s.leader.value.ok == (!appendFailed && !syncFailed))
  }

  lemma {:induction false} StepOnOutcome(states: seq<State>, steps: seq<Step>, n: nat)
    requires |states| == |steps| + 1 && n < |steps| && Does(states[n], steps[n], states[n + 1]) && Inv(states[n])
    requires OutcomeInv(states[n], SyncHasFailed(states, steps, n), AppendHasFailed(steps, n))
    ensures OutcomeInv(states[n + 1], SyncHasFailed(states, steps, n + 1), AppendHasFailed(steps, n + 1))
  {
    hide QueueInv, ReturnInv, SequenceInv, AckInv, LeaderInv, TieInv, Ids, Acks, Told, GroupOps, LegalGroup;
    assert SyncHasFailed(states, steps, n + 1) <==> SyncHasFailed(states, steps, n) || FailsSync(states, steps, n) by {
      if SyncHasFailed(states, steps, n) {
        var i :| 0 <= i < n && FailsSync(states, steps, i);
        assert 0 <= i < n + 1;
      }
    }
    hide SyncHasFailed;
  }

  lemma {:induction false} OutcomesFollowSteps(states: seq<State>, steps: seq<Step>, n: nat)
    requires Run(states, steps) && n <= |steps|
    ensures OutcomeInv(states[n], SyncHasFailed(states, steps, n), AppendHasFailed(steps, n))
  {
    hide Does, Inv;
    if n > 0 {
      OutcomesFollowSteps(states, steps, n - 1);
      GroupCommitIsSound(states, steps, n - 1);
      assert Does(states[n - 1], steps[n - 1], states[n]);
      StepOnOutcome(states, steps, n - 1);
    }
  }

  lemma {:induction false} FinishAcks(s: State, step: Step, s': State)
    requires Inv(s) && Does(s, step, s')
    ensures s.acked <= s'.acked && (!step.Finish? ==> s'.acked == s.acked)
    ensures step.Finish? ==>
      && s.leader.Some? && s.leader.value.Over? && |s.acked| < |s'.acked|
      && forall k :: |s.acked| <= k < |s'.acked| ==> s'.acked[k].ok == s.leader.value.ok
  {
    hide QueueInv, SleepInv, ReturnInv, SequenceInv, AckInv, LeaderInv, TieInv, Ids, Acks, Told, GroupOps, LegalGroup;
    if step.Finish? {
      OverFacts(s);
      var g := s.leader.value;
      AcksAt(s.writers, s.queue, g.n, s.lastSequence + 1, g.ok, g.ops != []);
    }
  }

  /**
   Which writers are told of success: those of a group acknowledged by step `n` exactly if the
   log did not refuse that group, which is the one gathered since the last acknowledgement,
   and no sync has failed since the beginning.
   */
  lemma {:induction false} OutcomeIsExact(states: seq<State>, steps: seq<Step>, n: nat, k: nat)
    requires Run(states, steps) && n < |steps| && steps[n].Finish?
    requires |states[n].acked| <= k < |states[n + 1].acked|
    ensures states[n + 1].acked[k].ok <==> !AppendHasFailed(steps, n) && !SyncHasFailed(states, steps, n)
  {
    hide Does, Inv, AppendHasFailed, SyncHasFailed;
    GroupCommitIsSound(states, steps, n);
    OutcomesFollowSteps(states, steps, n);
    assert Does(states[n], steps[n], states[n + 1]);
    FinishAcks(states[n], steps[n], states[n + 1]);
  }

  /** After a sync that was asked for fails, every writer acknowledged from then on is told of failure. */
  lemma {:induction false} FailedSyncFailsAll(states: seq<State>, steps: seq<Step>, i: nat, n: nat, k: nat)
    requires Run(states, steps) && i < n <= |steps| && FailsSync(states, steps, i)
    requires |states[i].acked| <= k < |states[n].acked|
    ensures !states[n].acked[k].ok
    decreases n
  {
    hide Does, Inv, AppendHasFailed, SyncHasFailed;
    GroupCommitIsSound(states, steps, n - 1);
    assert Does(states[n - 1], steps[n - 1], states[n]);
    FinishAcks(states[n - 1], steps[n - 1], states[n]);
    assert i < n - 1;
    if k < |states[n - 1].acked| {
      FailedSyncFailsAll(states, steps, i, n - 1, k);
    } else {
      assert SyncHasFailed(states, steps, n - 1) by {
        SyncStaysFailed(states, steps, i, n - 1);
      }
      OutcomeIsExact(states, steps, n - 1, k);
    }
  }

  lemma {:induction false} SyncStaysFailed(states: seq<State>, steps: seq<Step>, i: nat, n: nat)
    requires |states| == |steps| + 1 && i < n <= |steps| && FailsSync(states, steps, i)
    ensures SyncHasFailed(states, steps, n)
  {
  }

  /** The queue never stalls: if it is not empty, its head leads or can be woken to lead. */
  lemma {:induction false} QueueNeverStalls(states: seq<State>, steps: seq<Step>, n: nat)
    requires Run(states, steps) && n <= |steps| && states[n].queue != []
    ensures var s := states[n];
      || s.leader.Some?
      || (s.queue[0] in s.signalled && s.queue[0] in s.asleep && !Acknowledged(s.acked, s.queue[0])
          && exists s' :: Wake(s, s', s.queue[0]) && s'.leader == Some(Entered))
  {
    hide Does, Init;
    GroupCommitIsSound(states, steps, n);
    var s := states[n];
    if s.leader.None? {
      var s' := s.(asleep := s.asleep - {s.queue[0]}, signalled := s.signalled - {s.queue[0]}, leader := Some(Entered));
      assert Wake(s, s', s.queue[0]);
    }
  }
}

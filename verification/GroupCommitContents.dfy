/**
 What group commit leaves behind, exactly: every record of the log is the batches of a
 stretch of acknowledged writers under their numbers, no number is logged twice, and the
 memtable holds the entries of the successful batches and no others.
 */
module GroupCommitContents {
  import opened InternalKeys
  import opened Batches
  import opened GroupCommit

  /** The operations acknowledged from the `a`-th writer to before the `c`-th. */
  function AckOps(acked: seq<Ack>, a: nat, c: nat): seq<Op>
    requires a <= c <= |acked|
  {
    if a == c then [] else AckOps(acked, a, c - 1) + acked[c - 1].ops
  }

  ghost predicate OfAcks(acked: seq<Ack>, b: Batch)
  {
    exists a, c :: 0 <= a <= c <= |acked| && IsStretch(acked, a, c, b)
  }

  ghost predicate IsStretch(acked: seq<Ack>, a: nat, c: nat, b: Batch)
    requires a <= c <= |acked|
  {
    b == Batch(1 + Total(acked, a), AckOps(acked, a, c))
  }

  /** The record the leader has put at the end of the log for its group. */
  ghost predicate IsCurrent(s: State, b: Batch)
  {
    && s.leader.Some? && (s.leader.value.Logged? || s.leader.value.Synced? || s.leader.value.Over?)
    && b == Batch(s.lastSequence + 1, s.leader.value.ops)
  }

  ghost predicate Ordered(log: seq<Batch>)
  {
    forall i, j :: 0 <= i < j < |log| ==> log[i].first + |log[i].ops| <= log[j].first
  }

  ghost predicate LogInv(s: State)
  {
    && Ordered(s.log)
    && forall j :: 0 <= j < |s.log| ==> OfAcks(s.acked, s.log[j]) || (j == |s.log| - 1 && IsCurrent(s, s.log[j]))
  }

  ghost predicate FromAcks(acked: seq<Ack>, e: Entry)
  {
    exists i :: 0 <= i < |acked| && acked[i].ok && InBatch(Batch(acked[i].first, acked[i].ops), |acked[i].ops|, e)
  }

  /** The entries the leader has inserted for its group. */
  ghost predicate FromLeader(s: State, e: Entry)
  {
    && s.leader.Some? && s.leader.value.Over? && s.leader.value.ok
    && InBatch(Batch(s.lastSequence + 1, s.leader.value.ops), |s.leader.value.ops|, e)
  }

  ghost predicate MemInv(s: State)
  {
    forall e :: e in s.mem <==> FromAcks(s.acked, e) || FromLeader(s, e)
  }

  // ------------------------------------------------------------------
  // Numbers.

  lemma {:induction false} StretchLength(acked: seq<Ack>, a: nat, c: nat)
    requires a <= c <= |acked|
    ensures |AckOps(acked, a, c)| == Total(acked, c) - Total(acked, a)
  {
    if a < c {
      StretchLength(acked, a, c - 1);
    }
  }

  /** Acknowledged records end by the last sequence number. */
  lemma {:induction false} StretchEnds(acked: seq<Ack>, last: nat, b: Batch)
    requires SequenceInv(acked, last) && OfAcks(acked, b)
    ensures b.first + |b.ops| <= last + 1
  {
    hide Total, AckOps;
    var a, c :| 0 <= a <= c <= |acked| && IsStretch(acked, a, c, b);
    StretchLength(acked, a, c);
    TotalsGrow(acked, c, |acked|);
  }

  lemma {:induction false} StretchStays(acked: seq<Ack>, more: seq<Ack>, b: Batch)
    requires OfAcks(acked, b)
    ensures OfAcks(acked + more, b)
  {
    var a, c :| 0 <= a <= c <= |acked| && IsStretch(acked, a, c, b);
    TotalPrefix(acked, more, a);
    OpsStay(acked, more, a, c);
    assert IsStretch(acked + more, a, c, b);
  }

  lemma {:induction false} OpsStay(acked: seq<Ack>, more: seq<Ack>, a: nat, c: nat)
    requires a <= c <= |acked|
    ensures AckOps(acked + more, a, c) == AckOps(acked, a, c)
  {
    if a < c {
      OpsStay(acked, more, a, c - 1);
    }
  }

  /** The acknowledgements of a group that was applied spell out the group. */
  lemma {:induction false} GroupIsStretch(acked: seq<Ack>, acks: seq<Ack>, writers: map<nat, Writer>, queue: seq<nat>,
                                          i: nat)
    requires i <= |acks| <= |queue| && forall i :: 0 <= i < |queue| ==> queue[i] in writers
    requires forall j :: 0 <= j < |acks| ==> acks[j].ops == OpsOf(writers[queue[j]])
    ensures AckOps(acked + acks, |acked|, |acked| + i) == GroupOps(writers, queue, i)
  {
    hide OpsOf;
    if i > 0 {
      GroupIsStretch(acked, acks, writers, queue, i - 1);
      assert (acked + acks)[|acked| + i - 1] == acks[i - 1];
    }
  }

  // ------------------------------------------------------------------
  // Entries.

  lemma {:induction false} EntriesOfTwo(first: nat, a: seq<Op>, b: seq<Op>, e: Entry)
    ensures InBatch(Batch(first, a + b), |a + b|, e) <==> InBatch(Batch(first, a), |a|, e) || InBatch(Batch(first + |a|, b), |b|, e)
  {
    if InBatch(Batch(first, a), |a|, e) {
      var i :| 0 <= i < |a| && e == EntryOf(Batch(first, a), i);
      assert e == EntryOf(Batch(first, a + b), i);
    }
    if InBatch(Batch(first + |a|, b), |b|, e) {
      var i :| 0 <= i < |b| && e == EntryOf(Batch(first + |a|, b), i);
      assert e == EntryOf(Batch(first, a + b), |a| + i);
    }
    if InBatch(Batch(first, a + b), |a + b|, e) {
      var i :| 0 <= i < |a + b| && e == EntryOf(Batch(first, a + b), i);
      if i < |a| {
        assert e == EntryOf(Batch(first, a), i);
      } else {
        assert e == EntryOf(Batch(first + |a|, b), i - |a|);
      }
    }
  }

  /** `e` is of the operations of the `i`-th queued writer in a group that starts at `first`. */
  ghost predicate FromMember(writers: map<nat, Writer>, queue: seq<nat>, first: nat, i: nat, e: Entry)
    requires i < |queue| && forall i :: 0 <= i < |queue| ==> queue[i] in writers
  {
    var ops := OpsOf(writers[queue[i]]);
    InBatch(Batch(first + |GroupOps(writers, queue, i)|, ops), |ops|, e)
  }

  /** A group's entries are those of its members. */
  lemma {:induction false} EntriesOfGroup(writers: map<nat, Writer>, queue: seq<nat>, first: nat, n: nat, e: Entry)
    requires n <= |queue| && forall i :: 0 <= i < |queue| ==> queue[i] in writers
    ensures InBatch(Batch(first, GroupOps(writers, queue, n)), |GroupOps(writers, queue, n)|, e) <==>
      exists i :: 0 <= i < n && FromMember(writers, queue, first, i, e)
  {
    hide OpsOf, InBatch, FromMember;
    if n == 0 {
      assert !InBatch(Batch(first, []), 0, e) by {
        NoEntries(first, e);
      }
    } else {
      var init, last := GroupOps(writers, queue, n - 1), OpsOf(writers[queue[n - 1]]);
      EntriesOfGroup(writers, queue, first, n - 1, e);
      EntriesOfTwo(first, init, last, e);
      MemberIs(writers, queue, first, n - 1, e);
    }
  }

  lemma {:induction false} NoEntries(first: nat, e: Entry)
    ensures !InBatch(Batch(first, []), 0, e)
  {
  }

  lemma {:induction false} MemberIs(writers: map<nat, Writer>, queue: seq<nat>, first: nat, i: nat, e: Entry)
    requires i < |queue| && forall i :: 0 <= i < |queue| ==> queue[i] in writers
    ensures FromMember(writers, queue, first, i, e) <==>
      InBatch(Batch(first + |GroupOps(writers, queue, i)|, OpsOf(writers[queue[i]])), |OpsOf(writers[queue[i]])|, e)
  {
  }

  lemma {:induction false} MoreAcks(acked: seq<Ack>, acks: seq<Ack>, e: Entry)
    ensures FromAcks(acked + acks, e) <==> FromAcks(acked, e) || FromAcks(acks, e)
  {
    var all := acked + acks;
    if FromAcks(all, e) {
      var i :| 0 <= i < |all| && all[i].ok && InBatch(Batch(all[i].first, all[i].ops), |all[i].ops|, e);
      if i >= |acked| {
        assert acks[i - |acked|] == all[i];
      } else {
        assert acked[i] == all[i];
      }
    }
    if FromAcks(acked, e) {
      var i :| 0 <= i < |acked| && acked[i].ok && InBatch(Batch(acked[i].first, acked[i].ops), |acked[i].ops|, e);
      assert all[i] == acked[i];
    }
    if FromAcks(acks, e) {
      var i :| 0 <= i < |acks| && acks[i].ok && InBatch(Batch(acks[i].first, acks[i].ops), |acks[i].ops|, e);
      assert all[|acked| + i] == acks[i];
    }
  }

  /** The entries of the acknowledgements of a group are those of the group, if it succeeded. */
  lemma {:induction false} EntriesOfAcks(writers: map<nat, Writer>, queue: seq<nat>, first: nat, n: nat, ops: seq<Op>,
                                         ok: bool, e: Entry)
    requires n <= |queue| && (forall i :: 0 <= i < |queue| ==> queue[i] in writers)
    requires ops == GroupOps(writers, queue, n) || (ops == [] && !ok)
    ensures FromAcks(Acks(writers, queue, n, first, ok, ops != []), e) <==> ok && InBatch(Batch(first, ops), |ops|, e)
  {
    hide GroupOps, InBatch, Acks, FromMember, OpsOf;
    var acks := Acks(writers, queue, n, first, ok, ops != []);
    AcksAt(writers, queue, n, first, ok, ops != []);
    if ops == [] {
      NoEntries(first, e);
      forall i | 0 <= i < n
        ensures !InBatch(Batch(acks[i].first, acks[i].ops), |acks[i].ops|, e)
      {
        NoEntries(acks[i].first, e);
      }
    } else if ok {
      EntriesOfGroup(writers, queue, first, n, e);
      forall i | 0 <= i < n
        ensures FromMember(writers, queue, first, i, e) <==> InBatch(Batch(acks[i].first, acks[i].ops), |acks[i].ops|, e)
      {
        MemberIs(writers, queue, first, i, e);
      }
    }
  }

  // ------------------------------------------------------------------
  // Steps.

  lemma {:induction false} FinishKeepsMem(s: State, s': State)
    requires Inv(s) && MemInv(s) && Acknowledge(s, s')
    ensures MemInv(s')
  {
    hide Inv, Acks, GroupOps, FromAcks, InBatch, Told;
    OverFacts(s);
    var g := s.leader.value;
    forall e
      ensures e in s'.mem <==> FromAcks(s'.acked, e) || FromLeader(s', e)
    {
      MoreAcks(s.acked, Acks(s.writers, s.queue, g.n, s.lastSequence + 1, g.ok, g.ops != []), e);
      EntriesOfAcks(s.writers, s.queue, s.lastSequence + 1, g.n, g.ops, g.ok, e);
    }
  }

  lemma {:induction false} SameMem(s: State, s': State)
    requires MemInv(s) && s'.mem == s.mem && s'.acked == s.acked && s'.lastSequence == s.lastSequence
    requires forall e :: !FromLeader(s, e)
    requires s'.leader.Some? && s'.leader.value.Over? && s'.leader.value.ok ==> s'.leader.value.ops == []
    ensures MemInv(s')
  {
    hide FromAcks;
  }

  /** Before the insertion the leader has put nothing into the memtable, and a head that wakes is not yet the leader. */
  lemma {:induction false} NoneInserted(s: State, step: Step, s': State)
    requires Inv(s) && Does(s, step, s') && !step.Finish? && s'.leader != s.leader
    ensures forall e :: !FromLeader(s, e)
  {
    hide QueueInv, TieInv, ReturnInv, SequenceInv, AckInv, LeaderInv, Ids, LegalGroup, GroupOps;
  }

  lemma {:induction false} StepKeepsMem(s: State, step: Step, s': State)
    requires Inv(s) && MemInv(s) && Does(s, step, s')
    ensures MemInv(s')
  {
    hide Inv, MemInv, LegalGroup, GroupOps, Acks, Told, FromLeader;
    if step.Finish? {
      FinishKeepsMem(s, s');
    } else if s'.leader != s.leader {
      NoneInserted(s, step, s');
      if step.Apply? {
        ApplyKeepsMem(s, s');
      } else {
        SameMem(s, s');
      }
    } else {
      assert MemInv(s') by {
        Untouched(s, s');
      }
    }
  }

  lemma {:induction false} Untouched(s: State, s': State)
    requires MemInv(s) && s'.mem == s.mem && s'.acked == s.acked && s'.lastSequence == s.lastSequence && s'.leader == s.leader
    ensures MemInv(s')
  {
    hide FromAcks;
  }

  lemma {:induction false} ApplyKeepsMem(s: State, s': State)
    requires MemInv(s) && InsertGroup(s, s')
    ensures MemInv(s')
  {
    hide FromAcks;
  }

  lemma {:induction false} AppendKeepsLog(s: State, s': State, ok: bool)
    requires Inv(s) && LogInv(s) && LogGroup(s, s', ok)
    ensures LogInv(s')
  {
    hide QueueInv, TieInv, SleepInv, ReturnInv, SequenceInv, AckInv, LeaderInv, Ids, OfAcks;
    forall j | 0 <= j < |s.log|
      ensures s.log[j].first + |s.log[j].ops| <= s.lastSequence + 1
    {
      StretchEnds(s.acked, s.lastSequence, s.log[j]);
    }
  }

  lemma {:induction false} FinishKeepsLog(s: State, s': State)
    requires Inv(s) && LogInv(s) && Acknowledge(s, s')
    ensures LogInv(s')
  {
    hide Inv, Acks, GroupOps, OfAcks, Told, Total, AckOps;
    OverFacts(s);
    var g := s.leader.value;
    var acks := Acks(s.writers, s.queue, g.n, s.lastSequence + 1, g.ok, g.ops != []);
    forall j | 0 <= j < |s.log|
      ensures OfAcks(s'.acked, s.log[j])
    {
      if OfAcks(s.acked, s.log[j]) {
        StretchStays(s.acked, acks, s.log[j]);
      } else {
        CurrentIsStretch(s);
      }
    }
  }

  lemma {:induction false} CurrentIsStretch(s: State)
    requires Inv(s) && s.leader.Some? && s.leader.value.Over?
    ensures var g := s.leader.value;
      && g.n <= |s.queue| && (forall i :: 0 <= i < |s.queue| ==> s.queue[i] in s.writers)
      && OfAcks(s.acked + Acks(s.writers, s.queue, g.n, s.lastSequence + 1, g.ok, g.ops != []), Batch(s.lastSequence + 1, g.ops))
  {
    hide QueueInv, TieInv, SleepInv, ReturnInv, AckInv, LeaderInv, Ids, Acks, GroupOps, Total, AckOps;
    OverFacts(s);
    var g := s.leader.value;
    var acks := Acks(s.writers, s.queue, g.n, s.lastSequence + 1, g.ok, g.ops != []);
    var all, a := s.acked + acks, |s.acked|;
    TotalPrefix(s.acked, acks, a);
    if g.ops == [] {
      NoOps(all, a);
      assert IsStretch(all, a, a, Batch(s.lastSequence + 1, g.ops));
    } else {
      AcksAt(s.writers, s.queue, g.n, s.lastSequence + 1, g.ok, true);
      GroupIsStretch(s.acked, acks, s.writers, s.queue, g.n);
      assert IsStretch(all, a, a + g.n, Batch(s.lastSequence + 1, g.ops));
    }
  }

  lemma {:induction false} NoOps(acked: seq<Ack>, a: nat)
    requires a <= |acked|
    ensures AckOps(acked, a, a) == []
  {
  }

  lemma {:induction false} StepKeepsLog(s: State, step: Step, s': State)
    requires Inv(s) && LogInv(s) && Does(s, step, s')
    ensures LogInv(s')
  {
    hide Inv, OfAcks, LegalGroup, GroupOps, Acks, Told;
    match step
    case Append(ok) => AppendKeepsLog(s, s', ok);
    case Finish => FinishKeepsLog(s, s');
    case Arrive(_, _) => NotYetLeading(s, step, s');
    case WakeUp(_) => NotYetLeading(s, step, s');
    case _ =>
  }

  lemma {:induction false} NotYetLeading(s: State, step: Step, s': State)
    requires Inv(s) && Does(s, step, s') && (step.Arrive? || step.WakeUp?)
    ensures s'.leader == s.leader || s.leader.None?
  {
    hide QueueInv, TieInv, ReturnInv, SequenceInv, AckInv, LeaderInv, Ids;
  }

  lemma {:induction false} ContentsFollow(states: seq<State>, steps: seq<Step>, n: nat)
    requires Run(states, steps) && n <= |steps|
    ensures LogInv(states[n]) && MemInv(states[n])
  {
    hide Does, Inv, LogInv, MemInv;
    if n == 0 {
      NothingYet(states[0]);
    } else {
      ContentsFollow(states, steps, n - 1);
      GroupCommitIsSound(states, steps, n - 1);
      assert Does(states[n - 1], steps[n - 1], states[n]);
      StepKeepsMem(states[n - 1], steps[n - 1], states[n]);
      StepKeepsLog(states[n - 1], steps[n - 1], states[n]);
    }
  }

  lemma {:induction false} NothingYet(s: State)
    requires Init(s)
    ensures LogInv(s) && MemInv(s)
  {
  }

  /**
   While no one leads: the log's records are stretches of acknowledged batches under their
   numbers, in order and without overlap, and the memtable holds exactly the entries of the
   successful batches.
   */
  lemma {:induction false} ContentsAreExact(states: seq<State>, steps: seq<Step>, n: nat)
    requires Run(states, steps) && n <= |steps| && states[n].leader.None?
    ensures var s := states[n];
      && (forall i, j :: 0 <= i < j < |s.log| ==> s.log[i].first + |s.log[i].ops| <= s.log[j].first)
      && (forall j :: 0 <= j < |s.log| ==> OfAcks(s.acked, s.log[j]))
      && (forall e :: e in s.mem <==> FromAcks(s.acked, e))
  {
    hide Run, OfAcks, FromAcks;
    RunEnds(states, steps);
    ContentsFollow(states, steps, n);
  }
}

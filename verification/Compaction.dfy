/**
 The merging compaction: the loop of `DoCompactionWork` with its two drop rules, the
 amortised base-level test, and the proof that installing its outputs changes no read at
 or above the smallest snapshot.
 */
module Compaction {
  import opened InternalKeys
  import opened Versions
  import opened LevelShape

  /** No deeper level than the output level has a file covering `k`. */
  ghost predicate IsBase(v: Version, level: nat, k: UserKey)
  {
    forall l, f :: level + 2 <= l < |v| && f in v[l] ==> !CoversKey(f, k)
  }

  /** The sequence number last seen for the user key at position `i`, if it is not the first. */
  function LastSequence(input: seq<Entry>, i: nat): nat
    requires i < |input|
  {
    if i > 0 && input[i - 1].key == input[i].key then input[i - 1].seqno else MaxSequenceNumber
  }

  /** Drop rule (A): hidden by a newer entry that every snapshot sees. */
  predicate Hidden(input: seq<Entry>, i: nat, snap: nat)
    requires i < |input|
  {
    LastSequence(input, i) <= snap
  }

  /** Drop rule (B): a deletion marker with nothing left to hide. */
  ghost predicate Obsolete(v: Version, level: nat, e: Entry, snap: nat)
  {
    e.kind.Deletion? && e.seqno <= snap && IsBase(v, level, e.key)
  }

  ghost predicate Dropped(v: Version, level: nat, input: seq<Entry>, i: nat, snap: nat)
    requires i < |input|
  {
    Hidden(input, i, snap) || Obsolete(v, level, input[i], snap)
  }

  /** The entries among the first `n` of the input that survive, in order. */
  ghost function Kept(v: Version, level: nat, input: seq<Entry>, n: nat, snap: nat): seq<Entry>
    requires n <= |input|
  {
    if n == 0 then []
    else if Dropped(v, level, input, n - 1, snap) then Kept(v, level, input, n - 1, snap)
    else Kept(v, level, input, n - 1, snap) + [input[n - 1]]
  }

  // ------------------------------------------------------------------
  // What a compaction writes, said of the entries alone.

  /** `e` is the newest version of its key in the input at or below the snapshot. */
  ghost predicate NewestAt(input: seq<Entry>, e: Entry, snap: nat)
  {
    e in input && e.seqno <= snap
    && forall d :: d in input && d.key == e.key && d.seqno <= snap ==> d == e || Before(e, d)
  }

  /** Some file two or more levels down has the key in its range. */
  ghost predicate CoveredBelow(v: Version, level: nat, k: UserKey)
  {
    exists l, f :: level + 2 <= l < |v| && f in v[l] && f.smallest.key <= k <= f.largest.key
  }

  /**
   An entry of the input is to be written if it is above the snapshot, or the newest of its key
   at or below it; but not if that is a deletion marker of a key no deeper file has in its range.
   */
  ghost predicate Survives(v: Version, level: nat, input: seq<Entry>, e: Entry, snap: nat)
  {
    && e in input
    && (e.seqno > snap || NewestAt(input, e, snap))
    && (e.kind.Value? || e.seqno > snap || CoveredBelow(v, level, e.key))
  }

  lemma {:induction false} BaseIsUncovered(v: Version, level: nat, k: UserKey)
    ensures IsBase(v, level, k) <==> !CoveredBelow(v, level, k)
  {
    if !IsBase(v, level, k) {
      var l, f :| level + 2 <= l < |v| && f in v[l] && CoversKey(f, k);
      assert f.smallest.key <= k <= f.largest.key;
    }
    if CoveredBelow(v, level, k) {
      var l, f :| level + 2 <= l < |v| && f in v[l] && f.smallest.key <= k <= f.largest.key;
      assert CoversKey(f, k);
    }
  }

  /** The two rules drop exactly what need not be written. */
  lemma {:induction false} DroppedIs(v: Version, level: nat, input: seq<Entry>, i: nat, snap: nat)
    requires i < |input| && Sorted(input) && snap < MaxSequenceNumber
    ensures Dropped(v, level, input, i, snap) <==> !Survives(v, level, input, input[i], snap)
  {
    hide CoveredBelow, IsBase;
    BaseIsUncovered(v, level, input[i].key);
    HiddenIs(input, i, snap);
  }

  /** The first rule drops exactly what is neither above the snapshot nor the newest of its key below it. */
  lemma {:induction false} HiddenIs(input: seq<Entry>, i: nat, snap: nat)
    requires i < |input| && Sorted(input) && snap < MaxSequenceNumber
    ensures Hidden(input, i, snap) <==> !(input[i].seqno > snap || NewestAt(input, input[i], snap))
  {
    var e := input[i];
    if Hidden(input, i, snap) {
      assert input[i - 1] in input && Before(input[i - 1], e);
    } else {
      forall d | d in input && d.key == e.key && d.seqno <= snap
        ensures d == e || Before(e, d)
      {
        var j :| 0 <= j < |input| && input[j] == d;
        assert j >= i by {
          if j < i {
            SameKeyBetween(input, j, i);
          }
        }
      }
    }
  }

  /** Between two versions of a key lie only versions of it, and the one right before is the oldest of these. */
  lemma {:induction false} SameKeyBetween(input: seq<Entry>, j: nat, i: nat)
    requires j < i < |input| && Sorted(input) && input[j].key == input[i].key
    ensures input[i - 1].key == input[i].key && input[i - 1].seqno <= input[j].seqno
  {
  }

  lemma {:induction false} KeptIs(v: Version, level: nat, input: seq<Entry>, n: nat, snap: nat)
    requires n <= |input| && Sorted(input) && snap < MaxSequenceNumber
    ensures Sorted(Kept(v, level, input, n, snap))
    ensures forall e :: e in Kept(v, level, input, n, snap) <==> e in input[..n] && Survives(v, level, input, e, snap)
  {
    hide Survives, Dropped;
    if n > 0 {
      KeptIs(v, level, input, n - 1, snap);
      DroppedIs(v, level, input, n - 1, snap);
      assert input[..n] == input[..n - 1] + [input[n - 1]];
      var kept := Kept(v, level, input, n - 1, snap);
      forall i | 0 <= i < |kept|
        ensures Before(kept[i], input[n - 1])
      {
        assert kept[i] in kept;
      }
    }
  }

  /** What is kept of the whole input is what is to be written. */
  lemma {:induction false} AllKeptIs(v: Version, level: nat, input: seq<Entry>, snap: nat)
    requires Sorted(input) && snap < MaxSequenceNumber
    ensures Sorted(Kept(v, level, input, |input|, snap))
    ensures forall e :: e in Kept(v, level, input, |input|, snap) <==> Survives(v, level, input, e, snap)
  {
    hide NewestAt, CoveredBelow, Kept;
    KeptIs(v, level, input, |input|, snap);
    assert input[..|input|] == input;
  }

  /** The part of `Compaction` that remembers how far each deeper level has been scanned. */
  class Scan {
    const v: Version
    const level: nat
    var ptrs: seq<nat>

    ghost predicate Valid()
      reads this
    {
      && Shaped(v) && |ptrs| == |v|
      && (forall l :: 0 <= l < |v| ==> ptrs[l] <= |v[l]|)
    }

    /** Every file already passed lies wholly before `k`. */
    ghost predicate Behind(k: UserKey)
      requires Valid()
      reads this
    {
      forall l, i :: 0 <= l < |v| && 0 <= i < ptrs[l] ==> v[l][i].largest.key < k
    }

    constructor (v: Version, level: nat)
      requires Shaped(v)
      ensures Valid() && this.v == v && this.level == level
      ensures forall k :: Behind(k)
    {
      this.v, this.level := v, level;
      ptrs := [0, 0, 0, 0, 0, 0, 0];
    }

    /** `IsBaseLevelForKey`: the resumed scan answers as a scan of all deeper files would. */
    method IsBaseLevelForKey(k: UserKey) returns (base: bool)
      requires Valid() && Behind(k)
      modifies this
      ensures Valid() && Behind(k)
      ensures base <==> IsBase(v, level, k)
    {
      var l := level + 2;
      while l < NumLevels
        invariant Valid() && Behind(k)
        invariant forall m, f :: level + 2 <= m < l && m < |v| && f in v[m] ==> !CoversKey(f, k)
      {
        while ptrs[l] < |v[l]|
          invariant Valid() && Behind(k)
          decreases |v[l]| - ptrs[l]
        {
          var f := v[l][ptrs[l]];
          if k <= f.largest.key {
            if f.smallest.key <= k {
              assert CoversKey(f, k) && f in v[l];
              return false;
            }
            break;
          }
          ptrs := ptrs[l := ptrs[l] + 1];
        }
        LevelScanned(v[l], ptrs[l], k);
        l := l + 1;
      }
      return true;
    }
  }

  lemma {:induction false} LevelScanned(files: Level, ptr: nat, k: UserKey)
    requires ValidFiles(files) && Disjoint(files) && ptr <= |files|
    requires forall i :: 0 <= i < ptr ==> files[i].largest.key < k
    requires ptr < |files| ==> k < files[ptr].smallest.key
    ensures forall f :: f in files ==> !CoversKey(f, k)
  {
    forall f | f in files
      ensures !CoversKey(f, k)
    {
      var i :| 0 <= i < |files| && files[i] == f;
      if i >= ptr {
        SmallestInOrder(files, ptr, i);
      }
    }
  }

  // ------------------------------------------------------------------
  // The compaction loop.

  function Concat(files: Level): seq<Entry>
  {
    if files == [] then [] else Concat(files[..|files| - 1]) + files[|files| - 1].entries
  }

  /** No file is empty, and its end keys are as recorded. */
  ghost predicate WellCut(files: Level)
  {
    forall i :: 0 <= i < |files| ==>
      && |files[i].entries| > 0
      && files[i].smallest == files[i].entries[0]
      && files[i].largest == files[i].entries[|files[i].entries| - 1]
  }

  ghost predicate Numbered(files: Level, number: nat -> nat)
  {
    forall i :: 0 <= i < |files| ==> files[i].number == number(i)
  }

  // ------------------------------------------------------------------
  // Where the outputs are cut.

  /** Of the entries from `lo` to before `hi`, the file holds some; no stop is asked for between two of them. */
  ghost predicate FromStretch(es: seq<Entry>, input: seq<Entry>, stop: nat -> bool, lo: nat, hi: nat)
  {
    && lo < hi <= |input| && (forall e :: e in es ==> e in input[lo..hi])
    && (forall m :: lo < m < hi ==> !stop(m))
  }

  /** No entry was added to a file that was already full. */
  ghost predicate FullAtMostOnce(es: seq<Entry>, full: seq<Entry> -> bool)
  {
    forall k :: 0 < k < |es| ==> !full(es[..k])
  }

  /**
   Each output comes from a stretch of the input of its own, up to `ends[j]`. A stretch goes
   on over no stop, and it ends only before one, where its file is full, or with the input.
   */
  ghost predicate CutForCause(outputs: Level, input: seq<Entry>, stop: nat -> bool, full: seq<Entry> -> bool,
                              ends: seq<nat>)
  {
    && |ends| == |outputs|
    && forall j :: 0 <= j < |outputs| ==> Cut(outputs, input, stop, full, ends, j)
  }

  ghost predicate Cut(outputs: Level, input: seq<Entry>, stop: nat -> bool, full: seq<Entry> -> bool, ends: seq<nat>,
                      j: nat)
    requires |ends| == |outputs| && j < |outputs|
  {
    && FullAtMostOnce(outputs[j].entries, full)
    && (full(outputs[j].entries) || ends[j] == |input| || stop(ends[j]))
    && exists lo: nat :: (j > 0 ==> ends[j - 1] <= lo) && FromStretch(outputs[j].entries, input, stop, lo, ends[j])
  }

  lemma {:induction false} OneMoreCut(outputs: Level, file: File, input: seq<Entry>, stop: nat -> bool,
                                      full: seq<Entry> -> bool, ends: seq<nat>, lo: nat, hi: nat)
    requires CutForCause(outputs, input, stop, full, ends) && FullAtMostOnce(file.entries, full)
    requires full(file.entries) || hi == |input| || stop(hi)
    requires (ends != [] ==> ends[|ends| - 1] <= lo) && FromStretch(file.entries, input, stop, lo, hi)
    ensures CutForCause(outputs + [file], input, stop, full, ends + [hi])
  {
    hide FromStretch, FullAtMostOnce;
    var outputs', ends' := outputs + [file], ends + [hi];
    forall j | 0 <= j < |outputs'|
      ensures Cut(outputs', input, stop, full, ends', j)
    {
      if j < |outputs| {
        assert Cut(outputs, input, stop, full, ends, j);
        var from: nat :| (j > 0 ==> ends[j - 1] <= from) && FromStretch(outputs[j].entries, input, stop, from, ends[j]);
        assert (j > 0 ==> ends'[j - 1] <= from) && FromStretch(outputs'[j].entries, input, stop, from, ends'[j]);
      } else {
        assert (j > 0 ==> ends'[j - 1] <= lo) && FromStretch(outputs'[j].entries, input, stop, lo, ends'[j]);
      }
    }
  }

  /** `CompactionState`: the finished outputs and the builder of the open one. */
  class CompactionState {
    const number: nat -> nat
    var outputs: Level
    var builder: seq<Entry>
    var smallest: Entry
    var largest: Entry

    ghost predicate Valid()
      reads this
    {
      && WellCut(outputs)
      && Numbered(outputs, number)
      && (builder != [] ==> smallest == builder[0] && largest == builder[|builder| - 1])
    }

    /** Everything written so far. */
    ghost function Written(): seq<Entry>
      reads this
    {
      Concat(outputs) + builder
    }

    constructor (number: nat -> nat)
      ensures Valid() && Written() == [] && this.number == number && outputs == [] && builder == []
    {
      this.number, outputs, builder := number, [], [];
      smallest, largest := SeekKey(0.0, 0), SeekKey(0.0, 0);
    }

    method Add(e: Entry)
      requires Valid()
      modifies this
      ensures Valid() && Written() == old(Written()) + [e]
      ensures outputs == old(outputs) && builder == old(builder) + [e]
    {
      if builder == [] {
        smallest := e;
      }
      largest := e;
      builder := builder + [e];
    }

    /** `FinishCompactionOutputFile`, when an output is open. */
    method Finish(size: seq<Entry> -> nat)
      requires Valid()
      modifies this
      ensures Valid() && Written() == old(Written()) && builder == []
      ensures if old(builder) == [] then outputs == old(outputs)
              else |outputs| == |old(outputs)| + 1 && outputs[..|old(outputs)|] == old(outputs)
                   && outputs[|old(outputs)|].entries == old(builder)
    {
      if builder != [] {
        var file := File(number(|outputs|), size(builder), smallest, largest, builder);
        assert (outputs + [file])[..|outputs|] == outputs;
        outputs := outputs + [file];
        builder := [];
      }
    }
  }

  /** What the loop has in hand before entry `i`: finished outputs, and an open one that is not full. */
  ghost predicate InHand(outputs: Level, builder: seq<Entry>, input: seq<Entry>, stop: nat -> bool,
                         full: seq<Entry> -> bool, ends: seq<nat>, lo: nat, i: nat)
  {
    && CutForCause(outputs, input, stop, full, ends) && (ends != [] ==> ends[|ends| - 1] <= i)
    && (builder != [] ==>
          && FromStretch(builder, input, stop, lo, i) && FullAtMostOnce(builder, full) && !full(builder)
          && (ends != [] ==> ends[|ends| - 1] <= lo))
  }

  /** Closing the open output before entry `i`, for a cause. */
  lemma {:induction false} Closes(outputs: Level, builder: seq<Entry>, outputs': Level, input: seq<Entry>,
                                  stop: nat -> bool, full: seq<Entry> -> bool, ends: seq<nat>, lo: nat, i: nat)
    returns (ends': seq<nat>)
    requires InHand(outputs, builder, input, stop, full, ends, lo, i) && (stop(i) || i == |input|)
    requires if builder == [] then outputs' == outputs
      else |outputs'| == |outputs| + 1 && outputs'[..|outputs|] == outputs && outputs'[|outputs|].entries == builder
    ensures InHand(outputs', [], input, stop, full, ends', lo, i)
  {
    hide FromStretch, FullAtMostOnce, CutForCause;
    ends' := ends;
    if builder != [] {
      var file := outputs'[|outputs|];
      OneMoreCut(outputs, file, input, stop, full, ends, lo, i);
      ends' := ends + [i];
      assert outputs' == outputs + [file];
    }
  }

  /** Entry `i` joins the open output; if that makes it full, it is closed. */
  lemma {:induction false} Joins(outputs: Level, builder: seq<Entry>, outputs': Level, builder': seq<Entry>,
                                 input: seq<Entry>, stop: nat -> bool, full: seq<Entry> -> bool, ends: seq<nat>, lo: nat,
                                 i: nat) returns (ends': seq<nat>, lo': nat)
    requires i < |input| && InHand(outputs, builder, input, stop, full, ends, lo, i) && (builder != [] ==> !stop(i))
    requires var es := builder + [input[i]];
      if full(es) then builder' == [] && |outputs'| == |outputs| + 1 && outputs'[..|outputs|] == outputs
                       && outputs'[|outputs|].entries == es
      else builder' == es && outputs' == outputs
    ensures InHand(outputs', builder', input, stop, full, ends', lo', i + 1)
  {
    hide CutForCause;
    var es := builder + [input[i]];
    lo' := if builder == [] then i else lo;
    ends' := ends;
    JoinsStretch(builder, input, stop, full, lo, lo', i);
    if full(es) {
      hide FromStretch, FullAtMostOnce;
      var file := outputs'[|outputs|];
      OneMoreCut(outputs, file, input, stop, full, ends, lo', i + 1);
      ends' := ends + [i + 1];
      assert outputs' == outputs + [file];
    }
  }

  lemma {:induction false} JoinsStretch(builder: seq<Entry>, input: seq<Entry>, stop: nat -> bool,
                                        full: seq<Entry> -> bool, lo: nat, lo': nat, i: nat)
    requires i < |input| && lo' == (if builder == [] then i else lo)
    requires builder != [] ==>
      FromStretch(builder, input, stop, lo, i) && FullAtMostOnce(builder, full) && !full(builder) && !stop(i)
    ensures FromStretch(builder + [input[i]], input, stop, lo', i + 1) && FullAtMostOnce(builder + [input[i]], full)
  {
    var es := builder + [input[i]];
    assert input[lo'..i + 1] == input[lo'..i] + [input[i]];
    forall k | 0 < k < |es|
      ensures !full(es[..k])
    {
      assert es[..k] == builder[..k];
      assert k == |builder| ==> builder[..k] == builder;
    }
  }

  /** A dropped entry joins nothing. */
  lemma {:induction false} PassedOver(outputs: Level, builder: seq<Entry>, input: seq<Entry>, stop: nat -> bool,
                                      full: seq<Entry> -> bool, ends: seq<nat>, lo: nat, i: nat)
    requires i < |input| && InHand(outputs, builder, input, stop, full, ends, lo, i) && (builder != [] ==> !stop(i))
    ensures InHand(outputs, builder, input, stop, full, ends, lo, i + 1)
  {
    hide CutForCause;
    if builder != [] {
      assert input[lo..i + 1] == input[lo..i] + [input[i]];
    }
  }

  lemma {:induction false} NothingInHand(input: seq<Entry>, stop: nat -> bool, full: seq<Entry> -> bool)
    ensures InHand([], [], input, stop, full, [], 0, 0)
  {
  }

  /** Writes entry `i`, and closes the output if that makes it full. */
  method Put(state: CompactionState, input: seq<Entry>, i: nat, full: seq<Entry> -> bool, size: seq<Entry> -> nat,
             ghost stop: nat -> bool, ghost ends: seq<nat>, ghost lo: nat) returns (ghost ends': seq<nat>, ghost lo': nat)
    requires state.Valid() && i < |input| && (state.builder != [] ==> !stop(i))
    requires InHand(state.outputs, state.builder, input, stop, full, ends, lo, i)
    modifies state
    ensures state.Valid() && state.Written() == old(state.Written()) + [input[i]]
    ensures InHand(state.outputs, state.builder, input, stop, full, ends', lo', i + 1)
  {
    hide Concat, WellCut, Numbered, InHand;
    ghost var outputs, builder := state.outputs, state.builder;
    state.Add(input[i]);
    if full(state.builder) {
      state.Finish(size);
    }
    ends', lo' := Joins(outputs, builder, state.outputs, state.builder, input, stop, full, ends, lo, i);
  }

  /** Closes the open output, if there is one, before entry `i`. */
  method Close(state: CompactionState, input: seq<Entry>, i: nat, ghost full: seq<Entry> -> bool, size: seq<Entry> -> nat,
               ghost stop: nat -> bool, ghost ends: seq<nat>, ghost lo: nat) returns (ghost ends': seq<nat>)
    requires state.Valid() && (stop(i) || i == |input|)
    requires InHand(state.outputs, state.builder, input, stop, full, ends, lo, i)
    modifies state
    ensures state.Valid() && state.Written() == old(state.Written()) && state.builder == []
    ensures InHand(state.outputs, [], input, stop, full, ends', lo, i)
  {
    hide Concat, WellCut, Numbered, InHand;
    ghost var outputs, builder := state.outputs, state.builder;
    state.Finish(size);
    ends' := Closes(outputs, builder, state.outputs, input, stop, full, ends, lo, i);
  }

  /**
   `DoCompactionWork`. The merged input is given as the sorted run its iterator yields; where
   an output file is closed is any policy: before the entries `stop` names, or when `full`.
   `number(i)` is the i-th file number it is handed.
   */
  method DoCompactionWork(scan: Scan, input: seq<Entry>, snap: nat, number: nat -> nat,
                          stop: nat -> bool, full: seq<Entry> -> bool, size: seq<Entry> -> nat)
    returns (outputs: Level, ghost ends: seq<nat>)
    requires scan.Valid() && (forall k :: scan.Behind(k))
    requires Sorted(input) && snap < MaxSequenceNumber
    modifies scan
    ensures WellCut(outputs) && Numbered(outputs, number)
    ensures Concat(outputs) == Kept(scan.v, scan.level, input, |input|, snap)
    ensures Sorted(Concat(outputs))
    ensures forall e :: e in Concat(outputs) <==> Survives(scan.v, scan.level, input, e, snap)
    ensures CutForCause(outputs, input, stop, full, ends)
  {
    hide Survives, IsBase, Shaped, Concat, InHand, CutForCause, Sorted, WellCut, Numbered, Dropped;
    var state := new CompactionState(number);
    var currentKey: Option<UserKey> := None;
    var lastSequence := MaxSequenceNumber;
    ghost var lo := 0;
    ends := [];
    NothingInHand(input, stop, full);
    for i := 0 to |input|
      invariant scan.Valid() && (i < |input| ==> scan.Behind(input[i].key))
      invariant currentKey == if i == 0 then None else Some(input[i - 1].key)
      invariant i > 0 ==> lastSequence == input[i - 1].seqno
      invariant fresh(state) && state.Valid() && state.number == number
      invariant state.Written() == Kept(scan.v, scan.level, input, i, snap)
      invariant InHand(state.outputs, state.builder, input, stop, full, ends, lo, i)
    {
      var e := input[i];
      if stop(i) {
        ends := Close(state, input, i, full, size, stop, ends, lo);
      }
      if currentKey != Some(e.key) {
        currentKey, lastSequence := Some(e.key), MaxSequenceNumber;
      }
      var drop := ShouldDrop(scan, input, i, lastSequence, snap);
      lastSequence := e.seqno;
      KeysGoUp(input, i);
      if !drop {
        ends, lo := Put(state, input, i, full, size, stop, ends, lo);
      } else {
        PassedOver(state.outputs, state.builder, input, stop, full, ends, lo, i);
      }
    }
    ends := Close(state, input, |input|, full, size, stop, ends, lo);
    assert CutForCause(state.outputs, input, stop, full, ends) by {
      IsCut(state.outputs, [], input, stop, full, ends, lo, |input|);
    }
    outputs := state.outputs;
    AllKeptIs(scan.v, scan.level, input, snap);
  }

  lemma {:induction false} KeysGoUp(input: seq<Entry>, i: nat)
    requires Sorted(input) && i < |input|
    ensures i + 1 < |input| ==> input[i].key <= input[i + 1].key
  {
    assert i + 1 < |input| ==> Before(input[i], input[i + 1]);
  }

  lemma {:induction false} IsCut(outputs: Level, builder: seq<Entry>, input: seq<Entry>, stop: nat -> bool,
                                 full: seq<Entry> -> bool, ends: seq<nat>, lo: nat, i: nat)
    requires InHand(outputs, builder, input, stop, full, ends, lo, i)
    ensures CutForCause(outputs, input, stop, full, ends)
  {
  }

  /** The two drop rules, with the base-level test run only when the second needs it. */
  method ShouldDrop(scan: Scan, input: seq<Entry>, i: nat, lastSequence: nat, snap: nat)
    returns (drop: bool)
    requires i < |input| && lastSequence == LastSequence(input, i) && Sorted(input) && snap < MaxSequenceNumber
    requires scan.Valid() && scan.Behind(input[i].key)
    modifies scan
    ensures scan.Valid() && scan.Behind(input[i].key)
    ensures drop <==> Dropped(scan.v, scan.level, input, i, snap)
    ensures drop <==> !Survives(scan.v, scan.level, input, input[i], snap)
  {
    DroppedIs(scan.v, scan.level, input, i, snap);
    drop := false;
    if lastSequence <= snap {
      drop := true;
    } else if input[i].kind.Deletion? && input[i].seqno <= snap {
      drop := scan.IsBaseLevelForKey(input[i].key);
    }
  }
}

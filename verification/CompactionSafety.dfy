/**
 Exactly when a compaction is safe. Output files may be cut between two versions of one
 user key, and picking a file does not pull in its neighbour, so the inputs of a later
 compaction can leave an older version of one of their keys behind.
 */
module CompactionSafety {
  import opened InternalKeys
  import opened Versions
  import opened LevelShape
  import opened Compaction
  import opened CompactionMeaning
  import opened VersionBuilder
  import opened VersionSteps

  /** The outputs that compacting `c` writes when `snap` is the smallest snapshot. */
  ghost predicate Outcome(v: Version, c: Inputs, input: seq<Entry>, snap: nat, outputs: Level)
  {
    && snap < MaxSequenceNumber && NewNumbers(v, outputs) && WellCut(outputs)
    && Concat(outputs) == Kept(v, c.level, input, |input|, snap)
  }

  ghost function After(v: Version, c: Inputs, outputs: Level): (r: Version)
    requires |v| == NumLevels && c.level + 1 < NumLevels
    ensures |r| == NumLevels
  {
    if ValidEdit(CompactionEdit(c, outputs)) then ApplyOne(v, CompactionEdit(c, outputs)) else v
  }

  /** Installed, they change no answer a snapshot may see and hide nothing from the search. */
  ghost predicate Harmless(v: Version, c: Inputs, snap: nat, outputs: Level)
    requires |v| == NumLevels && c.level + 1 < NumLevels
  {
    && NeverStale(After(v, c, outputs))
    && forall k, s :: snap <= s ==> Agree(Contents(v), Contents(After(v, c, outputs)), k, s)
  }

  ghost predicate Safe(v: Version, c: Inputs, input: seq<Entry>)
    requires |v| == NumLevels && c.level + 1 < NumLevels
  {
    forall snap, outputs :: Outcome(v, c, input, snap, outputs) ==> Harmless(v, c, snap, outputs)
  }

  ghost predicate Sequenced(input: seq<Entry>)
  {
    forall e :: e in input ==> 0 < e.seqno < MaxSequenceNumber
  }

  /**
   A compaction of these inputs is safe whatever the smallest snapshot is, exactly if the
   level it takes files from keeps no older version of a key it takes, and what stays has no
   value right under a marker it may drop. Inputs that are closed under user keys are safe.
   */
  lemma {:induction false} CompactionIsSafe(v: Version, c: Inputs, input: seq<Entry>, next: nat)
    requires WellFormed(v) && LegalInputs(v, c) && MergedInput(c, input) && Unique(Contents(v))
    requires NumbersBelow(v, next) && Sequenced(input)
    ensures Safe(v, c, input) <==> OlderClosed(v[c.level], c.upper) && NoValueUnderMarker(v, c, input)
    ensures KeyClosed(v, c) ==> Safe(v, c, input)
  {
    hide WellFormed, LegalInputs, MergedInput, OlderClosed, NoValueUnderMarker, Harmless, Outcome, KeyClosed;
    Levels(v, c);
    if !OlderClosed(v[c.level], c.upper) {
      var outputs := LeavesOlder(v, c, input, next);
      assert !Safe(v, c, input);
    } else if !NoValueUnderMarker(v, c, input) {
      var snap, outputs := UncoversValue(v, c, input, next);
      assert !Safe(v, c, input);
    } else {
      forall snap, outputs | Outcome(v, c, input, snap, outputs)
        ensures Harmless(v, c, snap, outputs)
      {
        ClosedIsHarmless(v, c, input, snap, outputs);
      }
    }
    if KeyClosed(v, c) {
      ClosedMeansNoValue(v, c, input);
    }
  }

  lemma {:induction false} Levels(v: Version, c: Inputs)
    requires WellFormed(v) && LegalInputs(v, c)
    ensures Taken(v, c)
  {
  }

  lemma {:induction false} ClosedMeansNoValue(v: Version, c: Inputs, input: seq<Entry>)
    requires WellFormed(v) && LegalInputs(v, c) && MergedInput(c, input) && KeyClosed(v, c)
    ensures OlderClosed(v[c.level], c.upper) && NoValueUnderMarker(v, c, input)
  {
    hide WellFormed, LegalInputs, MergedInput;
    forall d, e | e in input && IsBase(v, c.level, e.key) && d in Rest(v, c) && d.key == e.key
      ensures d.seqno > e.seqno
    {
      LeftOverMarker(v, c, input, d, e);
    }
  }

  lemma {:induction false} ClosedIsHarmless(v: Version, c: Inputs, input: seq<Entry>, snap: nat, outputs: Level)
    requires WellFormed(v) && LegalInputs(v, c) && MergedInput(c, input) && Unique(Contents(v))
    requires OlderClosed(v[c.level], c.upper) && NoValueUnderMarker(v, c, input)
    requires Outcome(v, c, input, snap, outputs)
    ensures Harmless(v, c, snap, outputs)
  {
    hide WellFormed, LegalInputs, MergedInput, OlderClosed, NoValueUnderMarker, NeverStale, Agree;
    Levels(v, c);
    InstallResult(v, c, outputs);
    LayeringAfter(v, v, c, input, snap, outputs, After(v, c, outputs));
    LayeredIsNeverStale(After(v, c, outputs));
    UncoversNone(v, c, input, snap);
    Splits(v, c, input, snap, outputs);
    forall k, s | snap <= s
      ensures Agree(Contents(v), Contents(After(v, c, outputs)), k, s)
    {
      DropsAreUnseen(v, c.level, input, snap, Rest(v, c), k, s);
    }
  }

  lemma {:induction false} UncoversNone(v: Version, c: Inputs, input: seq<Entry>, snap: nat)
    requires NoValueUnderMarker(v, c, input)
    ensures MarkersCoverNoValue(v, c.level, input, snap, Rest(v, c))
  {
  }

  /** The contents before and after, as what stays and what is read or written. */
  lemma {:induction false} Splits(v: Version, c: Inputs, input: seq<Entry>, snap: nat, outputs: Level)
    requires WellFormed(v) && LegalInputs(v, c) && MergedInput(c, input) && NewNumbers(v, outputs)
    requires Concat(outputs) == Kept(v, c.level, input, |input|, snap)
    ensures ValidEdit(CompactionEdit(c, outputs)) && Sorted(input)
    ensures Contents(v) == Rest(v, c) + InputSet(input)
    ensures Contents(After(v, c, outputs)) == Rest(v, c) + KeptSet(v, c.level, input, snap)
  {
    InstallResult(v, c, outputs);
    ContentsBefore(v, c, input);
    ContentsAfter(v, c, outputs, After(v, c, outputs));
    KeptIsOutput(v, c, input, snap, outputs);
  }

  /** Unsafe inputs exist: a manual compaction may take one of two files that share a user key. */
  lemma {:induction false} CompactionCanGoStale() returns (v: Version, c: Inputs, input: seq<Entry>)
    ensures WellFormed(v) && LegalInputs(v, c) && MergedInput(c, input) && !Safe(v, c, input)
  {
    hide WellFormed, LegalInputs, MergedInput, Safe, OlderClosed, Unique, NumbersBelow, NoValueUnderMarker;
    var f: File;
    v, f := KeyCutInTwo();
    c, input := Inputs(1, [f], []), f.entries;
    OneEntry(c, f);
    CompactionIsSafe(v, c, input, 10);
  }

  lemma {:induction false} OneEntry(c: Inputs, f: File)
    requires c.upper == [f] && c.lower == [] && |f.entries| == 1
    ensures MergedInput(c, f.entries)
  {
    assert f in c.upper;
  }

  /**
   A deleted key can come back: a file of level one, the file under it, which ends with the
   marker of a key, and the next file of that level, which starts with the key's older value.
   The upper inputs leave nothing behind.
   */
  lemma {:induction false} DeletedKeyCanComeBack() returns (v: Version, c: Inputs, input: seq<Entry>)
    ensures WellFormed(v) && LegalInputs(v, c) && MergedInput(c, input) && Unique(Contents(v))
    ensures OlderClosed(v[c.level], c.upper) && !NoValueUnderMarker(v, c, input) && !Safe(v, c, input)
  {
    hide WellFormed, LegalInputs, MergedInput, Safe, OlderClosed, Unique, NumbersBelow, NoValueUnderMarker, Contents;
    var a, b := Entry(0.0, 20, Value, [20]), Entry(0.0, 8, Value, [8]);
    var marker, value := Entry(1.0, 9, Deletion, []), Entry(1.0, 5, Value, [5]);
    var f, g, h := File(8, 100, a, a, [a]), File(6, 100, b, marker, [b, marker]), File(7, 100, value, value, [value]);
    v := [[], [f], [g, h], [], [], [], []];
    c, input := Inputs(1, [f], [g]), [a, b, marker];
    MarkerVersion(v, f, g, h);
    MarkerContents(v, f, g, h);
    MarkerInputs(v, f, g, h);
    MarkerUncovers(v, f, g, h);
    CompactionIsSafe(v, c, input, 10);
  }

  ghost predicate MarkerFiles(f: File, g: File, h: File)
  {
    && ValidFile(f) && ValidFile(g) && ValidFile(h) && |f.entries| == 1 && |g.entries| == 2 && |h.entries| == 1
    && f.number == 8 && g.number == 6 && h.number == 7
    && f.entries[0] == Entry(0.0, 20, Value, [20]) && g.entries[0] == Entry(0.0, 8, Value, [8])
    && g.entries[1] == Entry(1.0, 9, Deletion, []) && h.entries[0] == Entry(1.0, 5, Value, [5])
  }

  lemma {:induction false} MarkerVersion(v: Version, f: File, g: File, h: File)
    requires v == [[], [f], [g, h], [], [], [], []] && MarkerFiles(f, g, h)
    ensures WellFormed(v) && NumbersBelow(v, 10)
  {
    hide Shaped, Layered, Ordered;
    MarkerShape(v, f, g, h);
    MarkerLayers(v, f, g, h);
    MarkerOrder(v, f, g, h);
  }

  lemma {:induction false} MarkerShape(v: Version, f: File, g: File, h: File)
    requires v == [[], [f], [g, h], [], [], [], []] && MarkerFiles(f, g, h)
    ensures Shaped(v)
  {
    hide Sorted;
  }

  lemma {:induction false} MarkerLayers(v: Version, f: File, g: File, h: File)
    requires v == [[], [f], [g, h], [], [], [], []] && MarkerFiles(f, g, h)
    ensures Layered(v)
  {
    hide Sorted;
    assert Newer(f, g) && Newer(f, h);
    assert LevelNewer(v[1], v[2]);
    forall x, y | 0 <= x < y < |v|
      ensures LevelNewer(v[x], v[y])
    {
    }
  }

  lemma {:induction false} MarkerOrder(v: Version, f: File, g: File, h: File)
    requires v == [[], [f], [g, h], [], [], [], []] && MarkerFiles(f, g, h)
    ensures Ordered(v)
  {
    hide Sorted;
  }

  lemma {:induction false} MarkerContents(v: Version, f: File, g: File, h: File)
    requires v == [[], [f], [g, h], [], [], [], []] && MarkerFiles(f, g, h)
    ensures Unique(Contents(v))
  {
    forall x | x in Contents(v)
      ensures x in f.entries || x in g.entries || x in h.entries
    {
      var l :| 0 <= l < |v| && Holds(v[l], x);
      var file :| file in v[l] && x in file.entries;
    }
  }

  lemma {:induction false} MarkerInputs(v: Version, f: File, g: File, h: File)
    requires v == [[], [f], [g, h], [], [], [], []] && MarkerFiles(f, g, h)
    ensures var c := Inputs(1, [f], [g]);
      LegalInputs(v, c) && OlderClosed(v[1], c.upper) && MergedInput(c, [f.entries[0], g.entries[0], g.entries[1]])
  {
    hide Sorted, MergedInput, Overlapping;
    var c := Inputs(1, [f], [g]);
    OnlyFirstOverlaps(g, h);
    assert SpansRange(v, c, 0.0, 0.0);
    MarkerMerge(f, g, h);
  }

  lemma {:induction false} OnlyFirstOverlaps(g: File, h: File)
    requires Overlaps(g, Some(0.0), Some(0.0)) && !Overlaps(h, Some(0.0), Some(0.0))
    ensures Overlapping([g, h], Some(0.0), Some(0.0)) == [g]
  {
    assert [g, h][..1] == [g] && [g][..0] == [];
    assert Overlapping([g], Some(0.0), Some(0.0)) == [g];
  }

  lemma {:induction false} MarkerMerge(f: File, g: File, h: File)
    requires MarkerFiles(f, g, h)
    ensures MergedInput(Inputs(1, [f], [g]), [f.entries[0], g.entries[0], g.entries[1]])
  {
    assert f in [f] && g in [g];
    assert Holds([f], f.entries[0]) && Holds([g], g.entries[0]) && Holds([g], g.entries[1]);
  }

  lemma {:induction false} MarkerUncovers(v: Version, f: File, g: File, h: File)
    requires v == [[], [f], [g, h], [], [], [], []] && MarkerFiles(f, g, h)
    ensures !NoValueUnderMarker(v, Inputs(1, [f], [g]), [f.entries[0], g.entries[0], g.entries[1]])
  {
    var c, marker, value := Inputs(1, [f], [g]), g.entries[1], h.entries[0];
    forall x | x in Rest(v, c)
      ensures x == value
    {
      var l: nat, file: File :| InLevel(v, l, file) && !IsInput(c, l, file) && x in file.entries;
    }
    assert InLevel(v, 2, h) && !IsInput(c, 2, h) && value in h.entries;
    assert IsBase(v, 1, marker.key);
    assert IsNewest(Rest(v, c), marker.key, marker.seqno, value);
  }

  // ------------------------------------------------------------------
  // One output file, or none.

  function OneFile(es: seq<Entry>, number: nat): Level
  {
    if es == [] then [] else [File(number, 0, es[0], es[|es| - 1], es)]
  }

  lemma {:induction false} OneFileIsOutcome(v: Version, c: Inputs, input: seq<Entry>, snap: nat, next: nat)
    requires NumbersBelow(v, next) && snap < MaxSequenceNumber
    ensures Outcome(v, c, input, snap, OneFile(Kept(v, c.level, input, |input|, snap), next))
  {
    hide Kept;
    var es := Kept(v, c.level, input, |input|, snap);
    var outputs := OneFile(es, next);
    assert es != [] ==> outputs[..0] == [] && Concat(outputs) == Concat([]) + es;
    forall i, l, f | 0 <= i < |outputs| && InLevel(v, l, f)
      ensures f.number != outputs[i].number
    {
    }
  }

  // ------------------------------------------------------------------
  // What goes wrong.

  /** An older version stays at the level, where the search finds it first. */
  lemma {:induction false} LeavesOlder(v: Version, c: Inputs, input: seq<Entry>, next: nat) returns (outputs: Level)
    requires WellFormed(v) && LegalInputs(v, c) && MergedInput(c, input)
    requires NumbersBelow(v, next) && Sequenced(input) && !OlderClosed(v[c.level], c.upper)
    ensures Outcome(v, c, input, 0, outputs) && !Harmless(v, c, 0, outputs)
  {
    hide WellFormed, LegalInputs, MergedInput, Kept, Outcome, NumbersBelow;
    Levels(v, c);
    outputs := OneFile(Kept(v, c.level, input, |input|, 0), next);
    OneFileIsOutcome(v, c, input, 0, next);
    NothingDropped(v, c.level, input, |input|);
    var f, g, d, e := OlderStays(v[c.level], c.upper);
    SearchStops(v, c, input, outputs, f, g, d, e);
    assert StaleRead(After(v, c, outputs), e.key, e.seqno);
  }

  lemma {:induction false} OlderStays(level: Level, inputs: Level) returns (f: File, g: File, d: Entry, e: Entry)
    requires !OlderClosed(level, inputs)
    ensures f in inputs && g in level && g !in inputs && d in g.entries && e in f.entries
    ensures d.key == e.key && d.seqno <= e.seqno
  {
    f, g :| f in inputs && g in level && g !in inputs && !Newer(g, f);
    d, e :| d in g.entries && e in f.entries && d.key == e.key && d.seqno <= e.seqno;
  }

  /** No snapshot, no drops: sequence numbers start at one. */
  lemma {:induction false} NothingDropped(v: Version, level: nat, input: seq<Entry>, n: nat)
    requires n <= |input| && Sequenced(input)
    ensures Kept(v, level, input, n, 0) == input[..n]
  {
    if n > 0 {
      NothingDropped(v, level, input, n - 1);
      assert n > 1 ==> input[n - 2] in input;
      assert input[n - 1] in input;
    }
  }

  lemma {:induction false} SearchStops(v: Version, c: Inputs, input: seq<Entry>, outputs: Level, f: File, g: File,
                                       d: Entry, e: Entry)
    requires WellFormed(v) && LegalInputs(v, c) && MergedInput(c, input) && Outcome(v, c, input, 0, outputs)
    requires Kept(v, c.level, input, |input|, 0) == input[..|input|]
    requires f in c.upper && g in v[c.level] && g !in c.upper && d in g.entries && e in f.entries
    requires d.key == e.key && d.seqno <= e.seqno
    ensures StopsShort(After(v, c, outputs), e.key, e.seqno, c.level, d, e)
  {
    hide Kept, MergedInput, StrictOrder, Overlapping;
    var v' := After(v, c, outputs);
    InstallResult(v, c, outputs);
    AboveZero(v, c, f, g, d, e);
    assert LevelResult(v, c, outputs, c.level, v'[c.level]);
    assert Holds(v'[c.level], d);
    NotLeftBehind(v[c.level], f, v'[c.level], e);
    StillHere(v, c, input, outputs, f, e);
    NothingAbove(v, c, outputs, f, e);
  }

  lemma {:induction false} AboveZero(v: Version, c: Inputs, f: File, g: File, d: Entry, e: Entry)
    requires Shaped(v) && LegalInputs(v, c) && f in c.upper && g in v[c.level] && g !in c.upper
    requires d in g.entries && e in f.entries && d.key == e.key && d.seqno <= e.seqno
    ensures c.level > 0
  {
    if c.level == 0 {
      LevelZeroClosed(v, c);
    }
  }

  lemma {:induction false} StillHere(v: Version, c: Inputs, input: seq<Entry>, outputs: Level, f: File, e: Entry)
    requires WellFormed(v) && LegalInputs(v, c) && MergedInput(c, input) && Outcome(v, c, input, 0, outputs)
    requires Kept(v, c.level, input, |input|, 0) == input[..|input|] && f in c.upper && e in f.entries
    ensures e in Contents(After(v, c, outputs))
  {
    hide Kept, WellFormed, LegalInputs;
    Levels(v, c);
    InstallResult(v, c, outputs);
    ContentsAfter(v, c, outputs, After(v, c, outputs));
    assert Holds(c.upper, e);
    ConcatMembers(outputs, e);
  }

  lemma {:induction false} NothingAbove(v: Version, c: Inputs, outputs: Level, f: File, e: Entry)
    requires Layered(v) && LegalInputs(v, c) && f in c.upper && e in f.entries
    requires Result(v, c, outputs, After(v, c, outputs))
    ensures NoneAbove(After(v, c, outputs), c.level, e.key, e.seqno)
  {
    var v' := After(v, c, outputs);
    forall l: nat, x: Entry | l < c.level && Holds(v'[l], x)
      ensures !Matches(x, e.key, e.seqno)
    {
      assert LevelResult(v, c, outputs, l, v'[l]);
      var h: File :| h in v'[l] && x in h.entries;
      assert LevelNewer(v[l], v[c.level]) && f in v[c.level];
      assert Newer(h, f);
    }
  }

  /** A dropped marker lets the value under it show again. */
  lemma {:induction false} UncoversValue(v: Version, c: Inputs, input: seq<Entry>, next: nat)
    returns (snap: nat, outputs: Level)
    requires WellFormed(v) && LegalInputs(v, c) && MergedInput(c, input) && Unique(Contents(v))
    requires NumbersBelow(v, next) && Sequenced(input) && !NoValueUnderMarker(v, c, input)
    ensures Outcome(v, c, input, snap, outputs) && !Harmless(v, c, snap, outputs)
  {
    hide WellFormed, LegalInputs, MergedInput, Kept, Outcome, NumbersBelow, NeverStale;
    Levels(v, c);
    var d, e :| e in input && e.kind.Deletion? && IsBase(v, c.level, e.key)
      && IsNewest(Rest(v, c), e.key, e.seqno, d) && d.kind.Value?;
    snap := e.seqno;
    outputs := OneFile(Kept(v, c.level, input, |input|, snap), next);
    OneFileIsOutcome(v, c, input, snap, next);
    OutcomeParts(v, c, input, snap, outputs);
    Splits(v, c, input, snap, outputs);
    ValueShows(v, c.level, input, Rest(v, c), d, e);
  }

  lemma {:induction false} OutcomeParts(v: Version, c: Inputs, input: seq<Entry>, snap: nat, outputs: Level)
    requires Outcome(v, c, input, snap, outputs)
    ensures NewNumbers(v, outputs) && Concat(outputs) == Kept(v, c.level, input, |input|, snap)
  {
  }

  lemma {:induction false} ValueShows(v: Version, level: nat, input: seq<Entry>, rest: iset<Entry>, d: Entry, e: Entry)
    requires Sorted(input) && Unique(rest + InputSet(input)) && e in input
    requires e.kind.Deletion? && IsBase(v, level, e.key) && IsNewest(rest, e.key, e.seqno, d) && d.kind.Value?
    ensures !Agree(rest + InputSet(input), rest + KeptSet(v, level, input, e.seqno), e.key, e.seqno)
  {
    var before, after := rest + InputSet(input), rest + KeptSet(v, level, input, e.seqno);
    var i :| 0 <= i < |input| && input[i] == e;
    assert IsNewest(before, e.key, e.seqno, e);
    assert forall x :: x in after ==> x in before;
    forall x | x in after && Matches(x, e.key, e.seqno)
      ensures x in rest
    {
      OnlyRestUnderMarker(v, level, input, e.seqno, rest, e.key, e.seqno, i, x);
    }
    assert IsNewest(after, e.key, e.seqno, d);
    forall a, b | IsLookup(before, e.key, e.seqno, a) && IsLookup(after, e.key, e.seqno, b)
      ensures !SameAnswer(a, b)
    {
      LookupUnique(before, e.key, e.seqno, a, Some(e));
      LookupUnique(after, e.key, e.seqno, b, Some(d));
    }
  }
}

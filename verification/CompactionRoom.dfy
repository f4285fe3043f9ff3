/**
 Room at the output level. A flush may be installed while a compaction runs, on any level
 that nothing above overlaps. If the ranges of the compaction's inputs leave a gap, which
 those of a manual compaction may, the flushed file can land in the gap, at the level the
 outputs go to; an output that spans the gap then overlaps it.
 */
module CompactionRoom {
  import opened InternalKeys
  import opened Versions
  import opened LevelShape
  import opened Compaction
  import opened CompactionMeaning
  import opened CompactionSafety
  import opened VersionBuilder
  import opened VersionSteps

  /** One way of cutting the kept entries into output files. */
  ghost predicate CutOf(v: Version, kept: seq<Entry>, outputs: Level)
  {
    NewNumbers(v, outputs) && WellCut(outputs) && Concat(outputs) == kept
  }

  /** However the outputs are cut, their level stays sorted and disjoint. */
  ghost predicate AlwaysDisjoint(v: Version, c: Inputs, kept: seq<Entry>)
    requires Taken(v, c)
  {
    forall outputs :: CutOf(v, kept, outputs) ==> Disjoint(After(v, c, outputs)[c.level + 1])
  }

  /** The outputs fit, however they are cut, exactly if no file that stays meets their range. */
  lemma {:induction false} RoomIsExact(b: Version, v: Version, c: Inputs, input: seq<Entry>, snap: nat, next: nat)
    requires WellFormed(v) && Taken(v, c) && MergedInput(c, input) && NumbersBelow(v, next)
    ensures var kept := Kept(b, c.level, input, |input|, snap);
      AlwaysDisjoint(v, c, kept) <==> RoomFor(v, c, kept)
  {
    hide WellFormed, Kept, NumbersBelow, Concat, WellCut, NewNumbers;
    var kept := Kept(b, c.level, input, |input|, snap);
    if RoomFor(v, c, kept) {
      forall outputs | CutOf(v, kept, outputs)
        ensures Disjoint(After(v, c, outputs)[c.level + 1])
      {
        InstallResult(v, c, outputs);
        ShapeAfter(b, v, c, input, snap, outputs, After(v, c, outputs));
      }
    } else {
      var outputs := Collides(b, v, c, input, snap, next);
    }
  }

  lemma {:induction false} Collides(b: Version, v: Version, c: Inputs, input: seq<Entry>, snap: nat, next: nat)
    returns (outputs: Level)
    requires WellFormed(v) && Taken(v, c) && MergedInput(c, input) && NumbersBelow(v, next)
    requires !RoomFor(v, c, Kept(b, c.level, input, |input|, snap))
    ensures CutOf(v, Kept(b, c.level, input, |input|, snap), outputs)
    ensures !Disjoint(After(v, c, outputs)[c.level + 1])
  {
    hide WellFormed, Kept, StrictOrder, Disjoint, NewNumbers, Concat, WellCut, NumbersBelow, CompactionEdit, ApplyOne;
    var kept := Kept(b, c.level, input, |input|, snap);
    KeptSorted(b, c.level, input, |input|, snap);
    outputs := OneFile(kept, next);
    OneCut(v, kept, next);
    InstallResult(v, c, outputs);
    var files := After(v, c, outputs)[c.level + 1];
    assert LevelResult(v, c, outputs, c.level + 1, files);
    var g :| g in v[c.level + 1] && g !in c.lower && !Clear(g, kept);
    assert kept != [] && outputs[0] in outputs;
    NotNew(v, c.level + 1, g, next);
    Meets(files, outputs[0], g, kept);
  }

  lemma {:induction false} NotNew(v: Version, l: nat, g: File, next: nat)
    requires NumbersBelow(v, next) && InLevel(v, l, g)
    ensures g.number < next
  {
  }

  lemma {:induction false} Meets(files: Level, f: File, g: File, kept: seq<Entry>)
    requires Sorted(kept) && kept != [] && f.smallest == kept[0] && f.largest == kept[|kept| - 1]
    requires f in files && g in files && f != g && !Clear(g, kept)
    ensures !Disjoint(files)
  {
    EndsBound(kept);
    if Disjoint(files) {
      RangesOfDisjoint(files, f, g);
    }
  }

  lemma {:induction false} OneCut(v: Version, kept: seq<Entry>, next: nat)
    requires NumbersBelow(v, next)
    ensures CutOf(v, kept, OneFile(kept, next))
  {
    var outputs := OneFile(kept, next);
    assert kept != [] ==> outputs[..0] == [] && Concat(outputs) == Concat([]) + kept;
    forall i, l, f | 0 <= i < |outputs| && InLevel(v, l, f)
      ensures f.number != outputs[i].number
    {
    }
  }

  lemma {:induction false} EndsBound(kept: seq<Entry>)
    requires Sorted(kept) && kept != []
    ensures forall e :: e in kept ==> !Before(e, kept[0]) && !Before(kept[|kept| - 1], e)
  {
    forall e | e in kept
      ensures !Before(e, kept[0]) && !Before(kept[|kept| - 1], e)
    {
      var i :| 0 <= i < |kept| && kept[i] == e;
      assert i > 0 ==> Before(kept[0], kept[i]);
      assert i < |kept| - 1 ==> Before(kept[i], kept[|kept| - 1]);
    }
  }

  // ------------------------------------------------------------------
  // A flush into the gap.

  /** Two files of level one with a gap, the compaction of both, and a memtable in the gap. */
  lemma {:induction false} GapVersion() returns (v: Version, c: Inputs, input: seq<Entry>, flushed: File)
    ensures WellFormed(v) && LegalInputs(v, c) && KeyClosed(v, c) && MergedInput(c, input) && v[2] == []
    ensures ValidFile(flushed) && LegalFlushLevel(v, 2, flushed) && flushed.number == 10
    ensures NumbersBelow(v, 10) && NewerThan(Entries(flushed), v)
    ensures c.level == 1 && c.lower == [] && input == [Entry(1.0, 1, Value, [1]), Entry(3.0, 3, Value, [3])]
    ensures flushed.entries == [Entry(2.0, 5, Value, [2])]
  {
    hide WellFormed, KeyClosed, LegalInputs, MergedInput, LegalFlushLevel, NewerThan, NumbersBelow;
    var one, two, three := Entry(1.0, 1, Value, [1]), Entry(2.0, 5, Value, [2]), Entry(3.0, 3, Value, [3]);
    var f, g := File(8, 100, one, one, [one]), File(9, 100, three, three, [three]);
    v := [[], [f, g], [], [], [], [], []];
    c, input := Inputs(1, [f, g], []), [one, three];
    flushed := File(10, 100, two, two, [two]);
    SmallVersion(v, f, g);
    GapInputs(v, f, g, one, three);
    GapNumbers(v, f, g, flushed);
  }

  /**
   The flush and the compaction, both legal, installed one after the other: level two
   overlaps, and the search for the flushed key looks into the wrong file.
   */
  lemma {:induction false} FlushCanCollide()
    returns (v: Version, c: Inputs, input: seq<Entry>, flushed: File, between: Version, out: File, after: Version)
    ensures WellFormed(v) && LegalInputs(v, c) && KeyClosed(v, c) && MergedInput(c, input)
    ensures ValidFile(flushed) && LegalFlushLevel(v, 2, flushed) && ValidEdit(FlushEdit(2, flushed))
    ensures between == ApplyOne(v, FlushEdit(2, flushed)) && WellFormed(between) && Taken(between, c)
    ensures CutOf(between, Kept(v, 1, input, |input|, 0), [out])
    ensures after == After(between, c, [out]) && after[2] == [out, flushed] && !Disjoint(after[2])
    // The first file that does not end before key 2 is the output, which lacks it.
    ensures CoversKey(out, 2.0) && TableGet(out, 2.0, 5) == None && flushed.smallest in Contents(after)
    ensures flushed.smallest.key == 2.0
  {
    hide WellFormed, StrictOrder, KeyClosed, LegalInputs, NewNumbers, Contents, MergedInput, LegalFlushLevel, ApplyOne,
      NewerThan, NumbersBelow, FlushEdit, CompactionEdit, After, CutOf, Kept, Disjoint;
    v, c, input, flushed := GapVersion();
    Levels(v, c);
    FlushKeepsWellFormed(v, 2, flushed);
    FlushApplied(v, 2, flushed);
    between := ApplyOne(v, FlushEdit(2, flushed));
    FlushedGap(v, between, c, flushed);
    GapKept(v, input);
    OneCut(between, input, 11);
    out := File(11, 0, input[0], input[1], input);
    after := After(between, c, [out]);
    GapAfter(between, c, input, out, flushed);
    GapSearch(out);
  }

  lemma {:induction false} GapSearch(out: File)
    requires out.entries == [Entry(1.0, 1, Value, [1]), Entry(3.0, 3, Value, [3])]
    ensures TableGet(out, 2.0, 5) == None
  {
  }

  lemma {:induction false} GapAfter(v: Version, c: Inputs, kept: seq<Entry>, out: File, file: File)
    requires WellFormed(v) && Taken(v, c) && c.level == 1 && c.lower == [] && CutOf(v, kept, [out])
    requires forall f :: f in v[2] <==> f == file
    requires out.smallest.key < file.smallest.key < out.largest.key && file.largest == file.smallest
    requires file.entries == [file.smallest]
    ensures After(v, c, [out])[2] == [out, file] && !Disjoint(After(v, c, [out])[2])
    ensures file.smallest in Contents(After(v, c, [out]))
  {
    hide WellFormed, StrictOrder, NewNumbers, Concat, WellCut, CompactionEdit, ApplyOne;
    InstallResult(v, c, [out]);
    var after := After(v, c, [out]);
    assert LevelResult(v, c, [out], 2, after[2]);
    TwoInOrder(after[2], out, file);
    assert !Before(after[2][0].largest, after[2][1].smallest);
    GapContents(v, c, [out], after, file, out);
  }

  lemma {:induction false} GapInputs(v: Version, f: File, g: File, d: Entry, e: Entry)
    requires v == [[], [f, g], [], [], [], [], []] && f.entries == [d] && g.entries == [e] && d.key < e.key
    requires f.smallest == f.largest == d && g.smallest == g.largest == e
    ensures LegalInputs(v, Inputs(1, [f, g], [])) && KeyClosed(v, Inputs(1, [f, g], []))
    ensures MergedInput(Inputs(1, [f, g], []), [d, e])
  {
    var c := Inputs(1, [f, g], []);
    assert SpansRange(v, c, d.key, e.key);
    assert v[2] == [];
    assert f in c.upper && g in c.upper;
    assert Holds(c.upper, d) && Holds(c.upper, e);
  }

  lemma {:induction false} GapNumbers(v: Version, f: File, g: File, file: File)
    requires v == [[], [f, g], [], [], [], [], []] && f.number < file.number && g.number < file.number
    requires f.largest.key < file.smallest.key && file.largest.key < g.smallest.key
    requires forall e :: e in file.entries ==> f.largest.key < e.key < g.smallest.key
    requires ValidFile(f) && ValidFile(g)
    ensures NumbersBelow(v, file.number) && LegalFlushLevel(v, 2, file) && NewerThan(Entries(file), v)
  {
    assert v[0] == [] && v[2] == [];
    forall d, e | d in Entries(file) && InVersion(v, e)
      ensures d.key != e.key
    {
      var l :| 0 <= l < |v| && Holds(v[l], e);
      var h :| h in v[l] && e in h.entries;
      EntryInRange(h, e);
    }
  }

  lemma {:induction false} FlushedGap(v: Version, v': Version, c: Inputs, file: File)
    requires Taken(v, c) && FlushResult(v, 2, file, v') && c.level == 1 && c.lower == [] && v[2] == []
    ensures Taken(v', c) && forall f :: f in v'[2] <==> f == file
  {
    assert FlushedLevel(v[1], v'[1], false, file) && FlushedLevel(v[2], v'[2], true, file);
  }

  lemma {:induction false} GapKept(v: Version, input: seq<Entry>)
    requires |input| == 2 && input[0].key != input[1].key && input[0].kind.Value? && input[1].kind.Value?
    ensures Kept(v, 1, input, 2, 0) == input
  {
    assert Kept(v, 1, input, 0, 0) == [];
    assert Kept(v, 1, input, 1, 0) == [input[0]];
  }

  lemma {:induction false} TwoInOrder(files: Level, f: File, g: File)
    requires StrictOrder(files) && Less(f, g) && forall h :: h in files <==> h == f || h == g
    ensures files == [f, g]
  {
    OrderedByMembers(files, [f, g]);
  }

  lemma {:induction false} GapContents(v: Version, c: Inputs, outputs: Level, v': Version, file: File, out: File)
    requires Taken(v, c) && Result(v, c, outputs, v') && c.level == 1 && outputs == [out]
    requires file in v'[2] && file.entries == [file.smallest]
    ensures file.smallest in Contents(v')
  {
    assert Holds(v'[2], file.smallest);
  }
}

/**
 Choosing the files of a compaction: overlap tests, the overlap-closed set of level-zero
 files, the expansion of the inputs, and the level a flushed memtable is put on.
 */
module LevelShape {
  import opened InternalKeys
  import opened Versions

  const TargetFileSize: nat := 2 * 1048576
  const MaxGrandParentOverlapBytes: nat := 10 * TargetFileSize
  const ExpandedCompactionByteSizeLimit: nat := 25 * TargetFileSize
  const MaxMemCompactLevel: nat := 2
  const MaxSequenceNumber: nat := 0xff_ffff_ffff_ffff

  /** A user-key bound; `None` is unbounded. */
  type Bound = Option<UserKey>

  predicate Overlaps(f: File, begin: Bound, end: Bound)
  {
    && (begin.Some? ==> begin.value <= f.largest.key)
    && (end.Some? ==> f.smallest.key <= end.value)
  }

  predicate Within(f: File, begin: Bound, end: Bound)
  {
    && (begin.Some? ==> begin.value <= f.smallest.key)
    && (end.Some? ==> f.largest.key <= end.value)
  }

  /** The range [x, y] contains the range [begin, end]. */
  predicate Contains(x: Bound, y: Bound, begin: Bound, end: Bound)
  {
    && (x.Some? ==> begin.Some? && x.value <= begin.value)
    && (y.Some? ==> end.Some? && end.value <= y.value)
  }

  /** No file sticks out of the range it overlaps. */
  ghost predicate ClosedRange(files: Level, x: Bound, y: Bound)
  {
    forall f :: f in files && Overlaps(f, x, y) ==> Within(f, x, y)
  }

  /** Every closed range around [begin, end] contains [low, high]. */
  ghost predicate InEveryClosedRange(files: Level, begin: Bound, end: Bound, low: Bound, high: Bound)
  {
    forall x, y {:trigger ClosedRange(files, x, y)} ::
      ClosedRange(files, x, y) && Contains(x, y, begin, end) ==> Contains(x, y, low, high)
  }

  /** The files overlapping a range, in level order. */
  function Overlapping(files: Level, begin: Bound, end: Bound): (r: Level)
    ensures forall f :: f in r <==> f in files && Overlaps(f, begin, end)
  {
    if files == [] then [] else
      var n := |files| - 1;
      assert files == files[..n] + [files[n]];
      var init := Overlapping(files[..n], begin, end);
      if Overlaps(files[n], begin, end) then init + [files[n]] else init
  }

  predicate Between(x: Bound, y: Bound, k: UserKey)
  {
    (x.Some? ==> x.value <= k) && (y.Some? ==> k <= y.value)
  }

  /** Some file's range contains the key. */
  ghost predicate Reached(files: Level, k: UserKey)
  {
    exists f :: f in files && CoversKey(f, k)
  }

  ghost predicate GrownByFiles(files: Level, begin: Bound, end: Bound, low: Bound, high: Bound)
  {
    forall k :: Between(low, high, k) && !Between(begin, end, k) ==> Reached(Overlapping(files, low, high), k)
  }

  lemma {:induction false} OneMoreFile(files: Level, f: File, begin: Bound, end: Bound, low: Bound, high: Bound,
                                       low': Bound, high': Bound)
    requires GrownByFiles(files, begin, end, low, high) && f in files && Overlaps(f, low, high)
    requires f.smallest.key <= f.largest.key && Contains(low', high', low, high)
    requires low' == low || low' == Some(f.smallest.key)
    requires high' == high || high' == Some(f.largest.key)
    ensures GrownByFiles(files, begin, end, low', high')
  {
    forall k | Between(low', high', k) && !Between(begin, end, k)
      ensures Reached(Overlapping(files, low', high'), k)
    {
      if Between(low, high, k) {
        var g :| g in Overlapping(files, low, high) && CoversKey(g, k);
        assert g in Overlapping(files, low', high');
      } else {
        assert f in Overlapping(files, low', high') && CoversKey(f, k);
      }
    }
  }

  /** Between any two ends of the files there is no key that no file's range contains. */
  ghost predicate Gapless(files: Level)
  {
    forall f, g, k {:trigger f in files, g in files, Reached(files, k)} ::
      f in files && g in files && f.smallest.key <= k <= g.largest.key ==> Reached(files, k)
  }

  /** Files that overlap the range of gapless files leave no gap beside them. */
  lemma {:induction false} GaplessGrows(core: Level, more: Level, smallest: Entry, largest: Entry)
    requires Gapless(core) && IsRange(core, smallest, largest)
    requires forall f :: f in more ==> Overlaps(f, Some(smallest.key), Some(largest.key))
    ensures Gapless(core + more)
  {
    forall f, g, k | f in core + more && g in core + more && f.smallest.key <= k <= g.largest.key
      ensures Reached(core + more, k)
    {
      if smallest.key <= k <= largest.key {
        assert Reached(core, k);
        var h :| h in core && CoversKey(h, k);
        assert h in core + more;
      } else if k < smallest.key {
        assert CoversKey(f, k);
      } else {
        assert CoversKey(g, k);
      }
    }
  }

  ghost function Below(files: Level, low: Bound): set<File>
  {
    set f | f in files && low.Some? && f.smallest.key < low.value
  }

  ghost function Above(files: Level, high: Bound): set<File>
  {
    set f | f in files && high.Some? && f.largest.key > high.value
  }

  /** `Version::GetOverlappingInputs`; `low` and `high` are the range it ends up with. */
  method GetOverlappingInputs(files: Level, levelZero: bool, begin: Bound, end: Bound)
    returns (inputs: Level, low: Bound, high: Bound)
    ensures inputs == Overlapping(files, low, high)
    ensures !levelZero ==> low == begin && high == end
    ensures Contains(low, high, begin, end)
    ensures levelZero ==> ClosedRange(files, low, high)
    // ... and it is the least such range, so no file is picked without need:
    ensures InEveryClosedRange(files, begin, end, low, high)
    // Whatever the range grew by is covered by the files picked.
    ensures forall k :: Between(low, high, k) && !Between(begin, end, k) ==> Reached(inputs, k)
  {
    inputs, low, high := [], begin, end;
    var i := 0;
    while i < |files|
      invariant 0 <= i <= |files|
      invariant inputs == Overlapping(files[..i], low, high)
      invariant !levelZero ==> low == begin && high == end
      invariant Contains(low, high, begin, end)
      invariant levelZero ==> forall f :: f in inputs ==> Within(f, low, high)
      invariant InEveryClosedRange(files, begin, end, low, high)
      invariant GrownByFiles(files, begin, end, low, high)
      decreases Below(files, low), Above(files, high), |files| - i
    {
      var f := files[i];
      assert files[..i + 1][..i] == files[..i];
      i := i + 1;
      if Overlaps(f, low, high) {
        inputs := inputs + [f];
        if levelZero {
          if low.Some? && f.smallest.key < low.value {
            assert f in Below(files, low) && f !in Below(files, Some(f.smallest.key));
            OneMoreFile(files, f, begin, end, low, high, Some(f.smallest.key), high);
            low := Some(f.smallest.key);
            inputs, i := [], 0;
          } else if high.Some? && f.largest.key > high.value {
            assert f in Above(files, high) && f !in Above(files, Some(f.largest.key));
            OneMoreFile(files, f, begin, end, low, high, low, Some(f.largest.key));
            high := Some(f.largest.key);
            inputs, i := [], 0;
          }
        }
      }
    }
    assert files[..i] == files;
  }

  /** `SomeFileOverlapsRange`: the scan of level zero and the binary search of the others. */
  method SomeFileOverlapsRange(sorted: bool, files: Level, begin: Bound, end: Bound)
    returns (found: bool)
    requires ValidFiles(files)
    requires sorted ==> Disjoint(files)
    requires forall f :: f in files ==> f.largest.seqno <= MaxSequenceNumber
    ensures found <==> exists f :: f in files && Overlaps(f, begin, end)
  {
    if !sorted {
      for i := 0 to |files|
        invariant forall j :: 0 <= j < i ==> !Overlaps(files[j], begin, end)
      {
        if Overlaps(files[i], begin, end) {
          return true;
        }
      }
      return false;
    }
    var index := 0;
    if begin.Some? {
      index := FindFile(files, SeekKey(begin.value, MaxSequenceNumber));
    }
    assert forall i :: 0 <= i < index ==> !Overlaps(files[i], begin, end);
    assert forall i :: index <= i < |files| ==> files[i] in files && Overlaps(files[i], begin, None);
    if index >= |files| {
      return false;
    }
    found := Overlaps(files[index], None, end);
    if !found {
      forall j | index <= j < |files|
        ensures !Overlaps(files[j], begin, end)
      {
        SmallestInOrder(files, index, j);
      }
    } else {
      assert Overlaps(files[index], begin, end);
    }
  }

  lemma {:induction false} SmallestInOrder(files: Level, i: nat, j: nat)
    requires ValidFiles(files) && Disjoint(files) && i <= j < |files|
    ensures files[i].smallest.key <= files[j].smallest.key
  {
    if i < j {
      assert files[i] in files;
      EntryInRange(files[i], files[i].largest);
    }
  }

  function TotalFileSize(files: Level): nat
  {
    if files == [] then 0 else files[0].size + TotalFileSize(files[1..])
  }

  ghost predicate NoOverlap(files: Level, begin: Bound, end: Bound)
  {
    forall f :: f in files ==> !Overlaps(f, begin, end)
  }

  /** Output for this range may go below `level`: nothing overlaps it there and not too much below that. */
  ghost predicate MayDescend(v: Version, level: nat, begin: UserKey, end: UserKey)
    requires |v| == NumLevels && level < 2
  {
    && NoOverlap(v[level + 1], Some(begin), Some(end))
    && (level + 2 < NumLevels ==>
          TotalFileSize(Overlapping(v[level + 2], Some(begin), Some(end))) <= 20971520)
  }

  /**
   `PickLevelForMemTableOutput`: every level down to the chosen one is free of the range, and
   no deeper level could have been chosen.
   */
  method PickLevelForMemTableOutput(v: Version, begin: UserKey, end: UserKey) returns (level: nat)
    requires Shaped(v)
    requires forall l, f :: 0 <= l < |v| && f in v[l] ==> f.largest.seqno <= MaxSequenceNumber
    ensures level <= 2
    ensures level > 0 ==> forall l :: 0 <= l <= level ==> NoOverlap(v[l], Some(begin), Some(end))
    ensures forall l :: 0 <= l < level ==> MayDescend(v, l, begin, end)
    ensures NoOverlap(v[0], Some(begin), Some(end)) && level < 2 ==> !MayDescend(v, level, begin, end)
  {
    level := 0;
    var b, e := Some(begin), Some(end);
    var overlap := SomeFileOverlapsRange(false, v[0], b, e);
    if !overlap {
      while level < MaxMemCompactLevel
        invariant level <= MaxMemCompactLevel
        invariant forall l :: 0 <= l <= level ==> NoOverlap(v[l], b, e)
        invariant forall l :: 0 <= l < level ==> MayDescend(v, l, begin, end)
      {
        overlap := SomeFileOverlapsRange(true, v[level + 1], b, e);
        if overlap {
          break;
        }
        if level + 2 < NumLevels {
          var overlaps, _, _ := GetOverlappingInputs(v[level + 2], level + 2 == 0, b, e);
          if TotalFileSize(overlaps) > MaxGrandParentOverlapBytes {
            break;
          }
        }
        level := level + 1;
      }
    }
  }

  /** `VersionSet::GetRange`: the least smallest key and the greatest largest key. */
  method GetRange(inputs: Level) returns (smallest: Entry, largest: Entry)
    requires inputs != []
    ensures IsRange(inputs, smallest, largest)
  {
    smallest, largest := inputs[0].smallest, inputs[0].largest;
    for i := 1 to |inputs|
      invariant IsRange(inputs[..i], smallest, largest)
    {
      assert inputs[..i + 1] == inputs[..i] + [inputs[i]];
      if Before(inputs[i].smallest, smallest) {
        smallest := inputs[i].smallest;
      }
      if Before(largest, inputs[i].largest) {
        largest := inputs[i].largest;
      }
    }
    assert inputs[..|inputs|] == inputs;
  }

  ghost predicate IsRange(inputs: Level, smallest: Entry, largest: Entry)
  {
    && (exists f :: f in inputs && f.smallest == smallest)
    && (exists f :: f in inputs && f.largest == largest)
    && (forall f :: f in inputs ==> !Before(f.smallest, smallest) && !Before(largest, f.largest))
  }

  /** The inputs a compaction of `level` ends up with. */
  datatype Inputs = Inputs(level: nat, upper: Level, lower: Level)

  ghost predicate Subset(a: Level, b: Level)
  {
    forall f :: f in a ==> f in b
  }

  /** All files lie in [lo, hi] and `lower` is every file of the next level meeting it. */
  ghost predicate SpansRange(v: Version, c: Inputs, lo: UserKey, hi: UserKey)
    requires c.level + 1 < |v|
  {
    && (forall f :: f in c.upper ==> Within(f, Some(lo), Some(hi)))
    && c.lower == Overlapping(v[c.level + 1], Some(lo), Some(hi))
  }

  ghost predicate Spans(v: Version, c: Inputs)
    requires c.level + 1 < |v|
  {
    exists lo, hi :: SpansRange(v, c, lo, hi)
  }

  /** `picked` is every file meeting some range that no file sticks out of. */
  ghost predicate OverlapClosed(files: Level, picked: Level)
  {
    exists x, y :: ClosedRange(files, x, y) && picked == Overlapping(files, x, y)
  }

  /** The inputs are files of two neighbouring levels of the version. */
  ghost predicate Taken(v: Version, c: Inputs)
  {
    && |v| == NumLevels
    && c.level + 1 < NumLevels
    && c.upper != []
    && Subset(c.upper, v[c.level])
    && Subset(c.lower, v[c.level + 1])
  }

  /** What every way of picking a compaction from a version guarantees about its inputs. */
  ghost predicate LegalInputs(v: Version, c: Inputs)
  {
    && Taken(v, c)
    && Spans(v, c)
    // Level-zero inputs take every file they overlap.
    && (c.level == 0 ==> OverlapClosed(v[0], c.upper))
  }

  lemma {:induction false} OverlappingMonotone(files: Level, b: Bound, e: Bound, b': Bound, e': Bound)
    requires Contains(b', e', b, e)
    ensures |Overlapping(files, b, e)| <= |Overlapping(files, b', e')|
    ensures |Overlapping(files, b, e)| == |Overlapping(files, b', e')| ==>
              Overlapping(files, b, e) == Overlapping(files, b', e')
  {
    if files != [] {
      OverlappingMonotone(files[..|files| - 1], b, e, b', e');
    }
  }

  /** `around` is every file of the level that meets the range of all inputs, on level zero grown until it is closed. */
  ghost predicate Around(v: Version, base: Inputs, around: Level)
    requires Taken(v, base)
  {
    exists start, limit, x, y ::
      && IsRange(base.upper + base.lower, start, limit)
      && around == Overlapping(v[base.level], x, y)
      && LeastRange(v[base.level], base.level == 0, Some(start.key), Some(limit.key), x, y)
  }

  /** [x, y] is [begin, end], or on level zero the least range around it that no file sticks out of. */
  ghost predicate LeastRange(files: Level, levelZero: bool, begin: Bound, end: Bound, x: Bound, y: Bound)
  {
    if levelZero then Contains(x, y, begin, end) && ClosedRange(files, x, y) && InEveryClosedRange(files, begin, end, x, y)
    else x == begin && y == end
  }

  /** The range of `upper` meets the same files of the next level. */
  ghost predicate SameLower(v: Version, base: Inputs, upper: Level)
    requires Taken(v, base)
  {
    exists s, l :: IsRange(upper, s, l) && Overlapping(v[base.level + 1], Some(s.key), Some(l.key)) == base.lower
  }

  /** More upper files for the same lower ones, and not more than 50 MB in all. */
  ghost predicate WorthGrowing(v: Version, base: Inputs, around: Level)
    requires Taken(v, base)
  {
    && |around| > |base.upper| && TotalFileSize(base.lower) + TotalFileSize(around) < 52428800
    && SameLower(v, base, around)
  }

  /**
   The inputs for files picked at a level: all files of the next level that meet their range
   and, if there are any, all files of their own level that meet the whole range, where that
   is worth it.
   */
  ghost predicate InputsFor(v: Version, level: nat, picked: Level, c: Inputs)
    requires |v| == NumLevels && level + 1 < NumLevels
  {
    exists s, l ::
      IsRange(picked, s, l) && GrownFrom(v, Inputs(level, picked, Overlapping(v[level + 1], Some(s.key), Some(l.key))), c)
  }

  ghost predicate GrownFrom(v: Version, base: Inputs, c: Inputs)
  {
    && Taken(v, base)
    && (if base.lower == [] then c == base
        else exists around ::
          Around(v, base, around) && c == if WorthGrowing(v, base, around) then base.(upper := around) else base)
  }

  /**
   `VersionSet::SetupOtherInputs`: add the files of the next level, then grow the upper
   inputs if that does not change the lower ones.
   */
  method SetupOtherInputs(v: Version, level: nat, picked: Level) returns (c: Inputs)
    requires Shaped(v) && level + 1 < NumLevels
    requires picked != [] && Subset(picked, v[level])
    requires level == 0 ==> OverlapClosed(v[0], picked)
    ensures LegalInputs(v, c) && c.level == level && Subset(picked, c.upper)
    ensures InputsFor(v, level, picked, c)
    ensures Gapless(picked) ==> Gapless(c.upper + c.lower)
  {
    hide Gapless, Around, WorthGrowing, OverlapClosed;
    var smallest, largest := GetRange(picked);
    RangeSpans(picked, smallest, largest);
    var lower, _, _ := GetOverlappingInputs(v[level + 1], false, Some(smallest.key), Some(largest.key));
    var base := Inputs(level, picked, lower);
    assert SpansRange(v, base, smallest.key, largest.key);
    if Gapless(picked) {
      GaplessGrows(picked, lower, smallest, largest);
    }
    c := base;
    if lower != [] {
      ghost var around;
      c, around := ExpandInputs(v, base, smallest, largest);
    }
    assert IsRange(picked, smallest, largest) && GrownFrom(v, base, c);
  }

  /** The expansion half of `SetupOtherInputs`, for a non-empty set of lower inputs. */
  method ExpandInputs(v: Version, base: Inputs, smallest: Entry, largest: Entry) returns (c: Inputs, ghost around: Level)
    requires Shaped(v) && LegalInputs(v, base) && IsRange(base.upper, smallest, largest)
    requires SpansRange(v, base, smallest.key, largest.key)
    ensures LegalInputs(v, c) && c.level == base.level
    ensures Subset(base.upper, c.upper) && c.lower == base.lower
    ensures Around(v, base, around) && c == if WorthGrowing(v, base, around) then base.(upper := around) else base
    ensures Gapless(base.upper + base.lower) ==> Gapless(c.upper + c.lower)
  {
    hide Gapless, Around, LegalInputs, SameLower, IsRange, SpansRange, TotalFileSize, Taken, OverlapClosed;
    LegalIsTaken(v, base);
    c := base;
    var expanded0 := FilesAround(v, base);
    around := expanded0;
    if |expanded0| > |base.upper|
      && TotalFileSize(base.lower) + TotalFileSize(expanded0) < ExpandedCompactionByteSizeLimit {
      var newStart, newLimit := GetRange(expanded0);
      var expanded1, _, _ := GetOverlappingInputs(v[base.level + 1], false, Some(newStart.key), Some(newLimit.key));
      SameCount(v, base, smallest, largest, expanded0, newStart, newLimit);
      if |expanded1| == |base.lower| {
        c := Inputs(base.level, expanded0, expanded1);
        ExpansionIsLegal(v, base, smallest, largest, c, newStart, newLimit);
      }
    }
  }

  lemma {:induction false} LegalIsTaken(v: Version, c: Inputs)
    requires LegalInputs(v, c)
    ensures Taken(v, c) && |v| == NumLevels && c.level + 1 < NumLevels && c.upper != []
  {
  }

  /** Comparing the numbers of lower inputs is comparing the inputs. */
  lemma {:induction false} SameCount(v: Version, base: Inputs, smallest: Entry, largest: Entry, upper: Level, s: Entry,
                                     l: Entry)
    requires Shaped(v) && LegalInputs(v, base) && Subset(base.upper, upper)
    requires IsRange(base.upper, smallest, largest) && SpansRange(v, base, smallest.key, largest.key)
    requires IsRange(upper, s, l)
    ensures SameLower(v, base, upper) <==> |Overlapping(v[base.level + 1], Some(s.key), Some(l.key))| == |base.lower|
  {
    hide OverlapClosed;
    WiderRange(base.upper, smallest, largest, upper, s, l);
    OverlappingMonotone(v[base.level + 1], Some(smallest.key), Some(largest.key), Some(s.key), Some(l.key));
    if SameLower(v, base, upper) {
      var s', l' :| IsRange(upper, s', l') && Overlapping(v[base.level + 1], Some(s'.key), Some(l'.key)) == base.lower;
      SameRange(upper, s, l, s', l');
    }
  }

  lemma {:induction false} SameRange(files: Level, s: Entry, l: Entry, s': Entry, l': Entry)
    requires IsRange(files, s, l) && IsRange(files, s', l')
    ensures s.key == s'.key && l.key == l'.key
  {
  }

  /** The files of the compaction's level that meet the whole range of its inputs. */
  method FilesAround(v: Version, base: Inputs) returns (expanded: Level)
    requires Shaped(v) && LegalInputs(v, base)
    ensures Around(v, base, expanded)
    ensures Subset(base.upper, expanded) && Subset(expanded, v[base.level])
    ensures base.level == 0 ==> OverlapClosed(v[0], expanded)
    ensures Gapless(base.upper + base.lower) ==> Gapless(expanded + base.lower)
  {
    var allStart, allLimit := GetRange(base.upper + base.lower);
    var files, x, y := GetOverlappingInputs(v[base.level], base.level == 0, Some(allStart.key), Some(allLimit.key));
    expanded := files;
    ExpandedCoversPicked(v[base.level], base.upper, base.lower, allStart, allLimit, x, y);
    if Gapless(base.upper + base.lower) {
      GaplessAround(base.upper, base.lower, expanded, allStart, allLimit, x, y);
    }
  }

  /** Growing the upper inputs around a gapless set leaves no gap. */
  lemma {:induction false} GaplessAround(upper: Level, lower: Level, expanded: Level, start: Entry, limit: Entry,
                                         x: Bound, y: Bound)
    requires Gapless(upper + lower) && IsRange(upper + lower, start, limit) && Subset(upper, expanded)
    requires Contains(x, y, Some(start.key), Some(limit.key))
    requires forall f :: f in expanded ==> Overlaps(f, x, y)
    requires forall k :: Between(x, y, k) && !Between(Some(start.key), Some(limit.key), k) ==> Reached(expanded, k)
    ensures Gapless(expanded + lower)
  {
    forall f, g, k | f in expanded + lower && g in expanded + lower && f.smallest.key <= k <= g.largest.key
      ensures Reached(expanded + lower, k)
    {
      if start.key <= k <= limit.key {
        assert Reached(upper + lower, k);
        var h :| h in upper + lower && CoversKey(h, k);
        assert h in expanded + lower;
      } else if Between(x, y, k) {
        assert Reached(expanded, k);
        var h :| h in expanded && CoversKey(h, k);
        assert h in expanded + lower;
      } else {
        AtTheEnds(upper, lower, start, limit, f);
        AtTheEnds(upper, lower, start, limit, g);
        if x.Some? && k < x.value {
          assert f in expanded && CoversKey(f, k);
        } else {
          assert g in expanded && CoversKey(g, k);
        }
      }
    }
  }

  lemma {:induction false} AtTheEnds(upper: Level, lower: Level, start: Entry, limit: Entry, f: File)
    requires IsRange(upper + lower, start, limit)
    ensures f in lower ==> start.key <= f.smallest.key && f.largest.key <= limit.key
  {
    assert f in lower ==> f in upper + lower;
  }

  lemma {:induction false} ExpansionIsLegal(v: Version, base: Inputs, smallest: Entry, largest: Entry, c: Inputs,
                                            newStart: Entry, newLimit: Entry)
    requires Shaped(v) && LegalInputs(v, base) && c.level == base.level
    requires IsRange(base.upper, smallest, largest) && SpansRange(v, base, smallest.key, largest.key)
    requires Subset(base.upper, c.upper) && Subset(c.upper, v[c.level])
    requires c.level == 0 ==> OverlapClosed(v[0], c.upper)
    requires IsRange(c.upper, newStart, newLimit)
    requires c.lower == Overlapping(v[c.level + 1], Some(newStart.key), Some(newLimit.key))
    requires |c.lower| == |base.lower|
    ensures LegalInputs(v, c) && c.lower == base.lower
  {
    WiderRange(base.upper, smallest, largest, c.upper, newStart, newLimit);
    OverlappingMonotone(v[c.level + 1], Some(smallest.key), Some(largest.key),
                        Some(newStart.key), Some(newLimit.key));
    RangeSpans(c.upper, newStart, newLimit);
    assert SpansRange(v, c, newStart.key, newLimit.key);
  }

  lemma {:induction false} ExpandedCoversPicked(files: Level, picked: Level, lower: Level, start: Entry, limit: Entry,
                                                x: Bound, y: Bound)
    requires ValidFiles(files) && Subset(picked, files)
    requires IsRange(picked + lower, start, limit)
    requires Contains(x, y, Some(start.key), Some(limit.key))
    ensures Subset(picked, Overlapping(files, x, y))
  {
    forall f | f in picked
      ensures Overlaps(f, x, y)
    {
      assert f in picked + lower;
      EntryInRange(f, f.largest);
    }
  }

  lemma {:induction false} RangeSpans(files: Level, smallest: Entry, largest: Entry)
    requires IsRange(files, smallest, largest)
    ensures forall f :: f in files ==> Within(f, Some(smallest.key), Some(largest.key))
  {
  }

  lemma {:induction false} WiderRange(a: Level, s: Entry, l: Entry, b: Level, s': Entry, l': Entry)
    requires IsRange(a, s, l) && IsRange(b, s', l') && Subset(a, b)
    ensures Contains(Some(s'.key), Some(l'.key), Some(s.key), Some(l.key))
  {
  }

  /** The files a request for a range picks on a level zero: those of the least closed range around it. */
  ghost predicate ClosureOf(files: Level, begin: Bound, end: Bound, picked: Level)
  {
    exists x, y :: LeastRange(files, true, begin, end, x, y) && picked == Overlapping(files, x, y)
  }

  /** The start of a level-zero compaction: the closed set of files around the picked one. */
  method PickLevelZero(v: Version, f: File) returns (picked: Level)
    requires Shaped(v) && f in v[0]
    ensures f in picked && Subset(picked, v[0]) && ClosureOf(v[0], Some(f.smallest.key), Some(f.largest.key), picked)
    ensures OverlapClosed(v[0], picked) && Gapless(picked)
  {
    var smallest, largest := GetRange([f]);
    assert f in [f];
    EntryInRange(f, f.largest);
    var inputs, low, high := GetOverlappingInputs(v[0], true, Some(smallest.key), Some(largest.key));
    picked := inputs;
    assert Overlaps(f, low, high);
    forall g, h, k | g in picked && h in picked && g.smallest.key <= k <= h.largest.key
      ensures Reached(picked, k)
    {
      assert Within(g, low, high) && Within(h, low, high);
      assert f.smallest.key <= k <= f.largest.key ==> CoversKey(f, k);
    }
  }

  /** The rest of `PickCompaction`, for the file it settled on: the inputs are legal and leave no gap. */
  method PickCompaction(v: Version, level: nat, f: File) returns (c: Inputs)
    requires Shaped(v) && level + 1 < NumLevels && f in v[level]
    ensures LegalInputs(v, c) && c.level == level && f in c.upper && Gapless(c.upper + c.lower)
    ensures if level > 0 then InputsFor(v, level, [f], c)
            else exists picked :: ClosureOf(v[0], Some(f.smallest.key), Some(f.largest.key), picked) && InputsFor(v, 0, picked, c)
  {
    hide InputsFor, ClosureOf;
    var picked := [f];
    if level == 0 {
      picked := PickLevelZero(v, f);
    } else {
      OneIsGapless(f);
    }
    c := SetupOtherInputs(v, level, picked);
  }

  lemma {:induction false} OneIsGapless(f: File)
    ensures Gapless([f])
  {
    forall k | f.smallest.key <= k <= f.largest.key
      ensures Reached([f], k)
    {
      assert f in [f] && CoversKey(f, k);
    }
  }

  /**
   The files a manual compaction starts from: all those that overlap the range and, on level
   zero, whatever they overlap; above level zero only the first of them, up to the one that
   brings their sizes to 2 MB.
   */
  ghost predicate Requested(v: Version, level: nat, begin: Bound, end: Bound, picked: Level)
    requires level < |v|
  {
    if level == 0 then ClosureOf(v[0], begin, end, picked)
    else
      var all := Overlapping(v[level], begin, end);
      && 0 < |picked| <= |all| && picked == all[..|picked|]
      && SizeOf(picked, |picked| - 1) < 2097152
      && (|picked| < |all| ==> SizeOf(picked, |picked|) >= 2097152)
  }

  /** The total size of the first `n` files. */
  function SizeOf(files: Level, n: nat): nat
    requires n <= |files|
  {
    if n == 0 then 0 else SizeOf(files, n - 1) + files[n - 1].size
  }

  lemma {:induction false} SizePrefix(files: Level, m: nat, n: nat)
    requires n <= m <= |files|
    ensures SizeOf(files[..m], n) == SizeOf(files, n)
  {
    if n > 0 {
      SizePrefix(files, m, n - 1);
    }
  }

  /** The loop of `CompactRange` that keeps a manual compaction small. */
  method CutToSize(all: Level) returns (inputs: Level)
    requires all != []
    ensures 0 < |inputs| <= |all| && inputs == all[..|inputs|]
    ensures SizeOf(inputs, |inputs| - 1) < 2097152 && (|inputs| < |all| ==> SizeOf(inputs, |inputs|) >= 2097152)
  {
    var total := 0;
    inputs := all;
    for i := 0 to |all|
      invariant inputs == all && total == SizeOf(all, i) && (i > 0 ==> SizeOf(all, i) < 2097152)
    {
      total := total + all[i].size;
      if total >= TargetFileSize {
        inputs := all[..i + 1];
        SizePrefix(all, i + 1, i);
        SizePrefix(all, i + 1, i + 1);
        return;
      }
    }
    assert SizeOf(all, |all| - 1) <= SizeOf(all, |all|);
  }

  /**
   `VersionSet::CompactRange`: the files that overlap the range, above level zero only as many
   as make up one output file. Legal inputs, but gaps are possible.
   */
  method CompactRange(v: Version, level: nat, begin: Bound, end: Bound) returns (r: Option<Inputs>)
    requires Shaped(v) && level + 1 < NumLevels
    ensures r.Some? ==> LegalInputs(v, r.value) && r.value.level == level
    ensures r.Some? ==> exists picked :: Requested(v, level, begin, end, picked) && InputsFor(v, level, picked, r.value)
    ensures r.None? <==> forall f :: f in v[level] ==> !Overlaps(f, begin, end)
  {
    hide InputsFor, Gapless, Reached, SizeOf, LegalInputs;
    var inputs, low, high := GetOverlappingInputs(v[level], level == 0, begin, end);
    if inputs == [] {
      forall f | f in v[level]
        ensures !Overlaps(f, begin, end)
      {
        assert Overlaps(f, begin, end) ==> f in inputs;
      }
      return None;
    }
    assert inputs[0] in inputs;
    assert ClosedRange(v[level], begin, end) ==> Overlaps(inputs[0], begin, end);
    if level > 0 {
      inputs := CutToSize(inputs);
    }
    assert Requested(v, level, begin, end, inputs);
    var c := SetupOtherInputs(v, level, inputs);
    r := Some(c);
  }
}

/**
 The other two edits that change the files of a version: a flushed memtable and the
 trivial move of one file to the next level.

 A trivial move does not look at the file's neighbour. When two files of a level share a
 user key at their common boundary, moving the left one puts the newer versions below the
 older ones and reads go stale. `TrivialMoveIsSafe` says exactly when that happens.
 */
module VersionSteps {
  import opened InternalKeys
  import opened Versions
  import opened LevelShape
  import opened VersionBuilder
  import opened CompactionMeaning

  // ------------------------------------------------------------------
  // Flushing a memtable.

  function FlushEdit(level: nat, file: File): Edit
  {
    Edit({}, [(level, file)])
  }

  /** What `PickLevelForMemTableOutput` promises about the level it picks for a file. */
  ghost predicate LegalFlushLevel(v: Version, level: nat, file: File)
  {
    && |v| == NumLevels && level <= MaxMemCompactLevel
    && (level > 0 ==> forall l :: 0 <= l <= level ==> NoOverlap(v[l], Some(file.smallest.key), Some(file.largest.key)))
  }

  ghost predicate FlushResult(v: Version, level: nat, file: File, v': Version)
  {
    |v'| == |v| && forall l :: 0 <= l < |v| ==> FlushedLevel(v[l], v'[l], l == level, file)
  }

  ghost predicate FlushedLevel(before: Level, after: Level, here: bool, file: File)
  {
    forall f :: f in after <==> f in before || (here && f == file)
  }

  lemma {:induction false} FlushApplied(v: Version, level: nat, file: File)
    requires WellFormed(v) && level < NumLevels && NumbersBelow(v, file.number)
    ensures ValidEdit(FlushEdit(level, file))
    ensures FlushResult(v, level, file, ApplyOne(v, FlushEdit(level, file)))
    ensures Ordered(ApplyOne(v, FlushEdit(level, file)))
  {
    var e := FlushEdit(level, file);
    var files := AllFiles(v) + {file};
    OneMoreNumber(v, file);
    assert InLevel(v, level, file) ==> file.number < file.number;
    forall l | 0 <= l < |v|
      ensures StrictOrder(ApplyOne(v, e)[l])
      ensures FlushedLevel(v[l], ApplyOne(v, e)[l], l == level, file)
    {
      assert StrictOrder(v[l]) && forall f :: f in v[l] ==> f in files;
      StepInOrder(v, e, files, l);
      forall f {
        AppliedMembers(v, e, files, l, f);
      }
    }
  }

  lemma {:induction false} OneMoreNumber(v: Version, file: File)
    requires UniqueNumbers(v) && NumbersBelow(v, file.number)
    ensures NumbersFixFiles(AllFiles(v) + {file})
  {
    var files := AllFiles(v) + {file};
    forall f, g | f in files && g in files && f.number == g.number
      ensures f == g
    {
      if f in AllFiles(v) {
        var l :| 0 <= l < |v| && f in v[l];
        assert InLevel(v, l, f);
      }
      if g in AllFiles(v) {
        var m :| 0 <= m < |v| && g in v[m];
        assert InLevel(v, m, g);
      }
    }
  }

  /** A file no level overlaps shares no user key with that level. */
  lemma {:induction false} NoSharedKeys(level: Level, file: File, g: File)
    requires ValidFiles(level) && ValidFile(file) && g in level
    requires NoOverlap(level, Some(file.smallest.key), Some(file.largest.key))
    ensures Newer(g, file) && RangesApart(g, file)
  {
    forall d, e | d in g.entries && e in file.entries
      ensures d.key != e.key
    {
      EntryInRange(g, d);
      EntryInRange(file, e);
    }
    EntryInRange(g, g.largest);
    EntryInRange(file, file.largest);
  }

  lemma {:induction false} NewFileIsNewer(v: Version, file: File, l: nat, g: File)
    requires NewerThan(Entries(file), v) && l < |v| && g in v[l]
    ensures Newer(file, g)
  {
    forall d, e | d in file.entries && e in g.entries && d.key == e.key
      ensures d.seqno > e.seqno
    {
      assert Holds(v[l], e);
    }
  }

  lemma {:induction false} FlushLayering(v: Version, level: nat, file: File, v': Version)
    requires WellFormed(v) && ValidFile(file) && LegalFlushLevel(v, level, file)
    requires NumbersBelow(v, file.number) && NewerThan(Entries(file), v)
    requires FlushResult(v, level, file, v')
    ensures Layered(v')
  {
    FlushLevelZero(v, level, file, v');
    forall a, b | 0 <= a < b < |v'|
      ensures LevelNewer(v'[a], v'[b])
    {
      assert FlushedLevel(v[a], v'[a], a == level, file) && FlushedLevel(v[b], v'[b], b == level, file);
      forall f, g | f in v'[a] && g in v'[b]
        ensures Newer(f, g)
      {
        if f in v[a] && g in v[b] {
          assert LevelNewer(v[a], v[b]);
        } else if g in v[b] {
          NewFileIsNewer(v, file, b, g);
        } else {
          NoSharedKeys(v[a], file, f);
        }
      }
    }
  }

  lemma {:induction false} FlushLevelZero(v: Version, level: nat, file: File, v': Version)
    requires |v| == NumLevels && NewestByNumber(v[0])
    requires NumbersBelow(v, file.number) && NewerThan(Entries(file), v)
    requires FlushResult(v, level, file, v')
    ensures NewestByNumber(v'[0])
  {
    assert FlushedLevel(v[0], v'[0], 0 == level, file);
    forall f | f in v[0]
      ensures f.number < file.number && Newer(file, f)
    {
      assert InLevel(v, 0, f);
      NewFileIsNewer(v, file, 0, f);
    }
  }

  lemma {:induction false} FlushShape(v: Version, level: nat, file: File, v': Version)
    requires WellFormed(v) && ValidFile(file) && LegalFlushLevel(v, level, file)
    requires FlushResult(v, level, file, v') && Ordered(v')
    ensures Shaped(v')
  {
    forall l | 0 <= l < |v'|
      ensures ValidFiles(v'[l])
      ensures l > 0 ==> Disjoint(v'[l])
    {
      assert FlushedLevel(v[l], v'[l], l == level, file);
      if l > 0 {
        forall f, g | f in v'[l] && g in v'[l] && f != g
          ensures RangesApart(f, g)
        {
          if f in v[l] && g in v[l] {
            RangesOfDisjoint(v[l], f, g);
          } else {
            NoSharedKeys(v[l], file, if f in v[l] then f else g);
          }
        }
        DisjointByRanges(v'[l]);
      }
    }
  }

  lemma {:induction false} FlushContents(v: Version, level: nat, file: File, v': Version)
    requires level < |v| && FlushResult(v, level, file, v')
    ensures Contents(v') == Contents(v) + Entries(file)
  {
    forall e
      ensures InVersion(v', e) <==> InVersion(v, e) || e in file.entries
    {
      if InVersion(v', e) {
        var l :| 0 <= l < |v'| && Holds(v'[l], e);
        assert FlushedLevel(v[l], v'[l], l == level, file);
        var f :| f in v'[l] && e in f.entries;
        assert f in v[l] ==> Holds(v[l], e);
      }
      if InVersion(v, e) {
        var l :| 0 <= l < |v| && Holds(v[l], e);
        assert FlushedLevel(v[l], v'[l], l == level, file);
        assert Holds(v'[l], e);
      }
      if e in file.entries {
        assert FlushedLevel(v[level], v'[level], true, file);
        assert Holds(v'[level], e);
      }
    }
  }

  /** A flush keeps every invariant of the version and adds exactly the memtable's entries. */
  lemma {:induction false} FlushKeepsWellFormed(v: Version, level: nat, file: File)
    requires WellFormed(v) && ValidFile(file) && LegalFlushLevel(v, level, file)
    requires NumbersBelow(v, file.number) && NewerThan(Entries(file), v)
    ensures ValidEdit(FlushEdit(level, file))
    ensures WellFormed(ApplyOne(v, FlushEdit(level, file)))
    ensures NumbersBelow(ApplyOne(v, FlushEdit(level, file)), file.number + 1)
    ensures Contents(ApplyOne(v, FlushEdit(level, file))) == Contents(v) + Entries(file)
  {
    assert |v| == NumLevels && UniqueNumbers(v);
    FlushApplied(v, level, file);
    hide ApplyOne, Shaped, Layered, Ordered, FlushResult, NewerThan, ValidFile, Contents;
    var v' := ApplyOne(v, FlushEdit(level, file));
    FlushShape(v, level, file, v');
    FlushLayering(v, level, file, v');
    FlushContents(v, level, file, v');
    FlushNumbers(v, level, file, v');
  }

  /**
   A flush never gets between the inputs of a running compaction if their ranges leave no
   gap: it goes below level zero only where nothing of the levels above overlaps it.
   */
  lemma {:induction false} FlushKeepsBesides(v: Version, level: nat, file: File, v': Version, c: Inputs)
    requires Shaped(v) && ValidFile(file) && LegalFlushLevel(v, level, file) && FlushResult(v, level, file, v')
    requires Taken(v, c) && Besides(v, c) && Gapless(c.upper + c.lower)
    ensures Taken(v', c) && Besides(v', c)
  {
    assert FlushedLevel(v[c.level], v'[c.level], c.level == level, file);
    assert FlushedLevel(v[c.level + 1], v'[c.level + 1], c.level + 1 == level, file);
    if c.level + 1 == level {
      assert NoOverlap(v[c.level], Some(file.smallest.key), Some(file.largest.key));
      assert NoOverlap(v[c.level + 1], Some(file.smallest.key), Some(file.largest.key));
      NotBetween(file, c.upper + c.lower);
    }
  }

  lemma {:induction false} NotBetween(file: File, files: Level)
    requires ValidFile(file) && ValidFiles(files) && Gapless(files)
    requires NoOverlap(files, Some(file.smallest.key), Some(file.largest.key))
    ensures OneSide(file, files)
  {
    EntryInRange(file, file.largest);
    forall f, g | f in files && g in files && f.largest.key < file.smallest.key
      ensures g.largest.key < file.smallest.key
    {
      EntryInRange(f, f.largest);
      EntryInRange(g, g.largest);
      assert f.smallest.key <= file.smallest.key <= g.largest.key ==> Reached(files, file.smallest.key);
    }
  }

  lemma {:induction false} FlushNumbers(v: Version, level: nat, file: File, v': Version)
    requires UniqueNumbers(v) && NumbersBelow(v, file.number) && FlushResult(v, level, file, v')
    ensures UniqueNumbers(v') && NumbersBelow(v', file.number + 1)
  {
    forall l: nat, f | InLevel(v', l, f)
      ensures InLevel(v, l, f) || (l == level && f == file)
    {
      assert FlushedLevel(v[l], v'[l], l == level, file);
    }
  }

  // ------------------------------------------------------------------
  // The trivial move.

  function MoveEdit(level: nat, file: File): Edit
  {
    Edit({(level, file.number)}, [(level + 1, file)])
  }

  /** `IsTrivialMove`: one upper input, no lower input. */
  ghost predicate LegalMove(v: Version, level: nat, file: File)
  {
    LegalInputs(v, Inputs(level, [file], []))
  }

  ghost predicate MovedLevel(before: Level, after: Level, l: nat, level: nat, file: File)
  {
    forall f :: f in after <==> (f in before && !(l == level && f == file)) || (l == level + 1 && f == file)
  }

  ghost predicate MoveResult(v: Version, level: nat, file: File, v': Version)
  {
    |v'| == |v| && forall l :: 0 <= l < |v| ==> MovedLevel(v[l], v'[l], l, level, file)
  }

  /** The moved file overlaps nothing at the level it goes to. */
  lemma {:induction false} NothingBelow(v: Version, level: nat, file: File)
    requires Shaped(v) && LegalMove(v, level, file)
    ensures file in v[level] && NoOverlap(v[level + 1], Some(file.smallest.key), Some(file.largest.key))
  {
    var c := Inputs(level, [file], []);
    assert file in c.upper;
    var lo, hi :| SpansRange(v, c, lo, hi);
    assert Within(file, Some(lo), Some(hi));
    forall g | g in v[level + 1]
      ensures !Overlaps(g, Some(file.smallest.key), Some(file.largest.key))
    {
      assert g !in Overlapping(v[level + 1], Some(lo), Some(hi));
      EntryInRange(file, file.largest);
    }
  }

  lemma {:induction false} MoveApplied(v: Version, level: nat, file: File)
    requires WellFormed(v) && LegalMove(v, level, file)
    ensures ValidEdit(MoveEdit(level, file))
    ensures MoveResult(v, level, file, ApplyOne(v, MoveEdit(level, file)))
    ensures Ordered(ApplyOne(v, MoveEdit(level, file)))
  {
    var e := MoveEdit(level, file);
    var files := AllFiles(v);
    NothingBelow(v, level, file);
    NumbersFixed(v);
    assert InLevel(v, level, file);
    assert !InLevel(v, level + 1, file);
    hide ApplyOne, Shaped, Layered;
    forall l | 0 <= l < |v|
      ensures StrictOrder(ApplyOne(v, e)[l])
      ensures MovedLevel(v[l], ApplyOne(v, e)[l], l, level, file)
    {
      assert StrictOrder(v[l]) && forall f :: f in v[l] ==> f in files;
      StepInOrder(v, e, files, l);
      forall f
        ensures f in ApplyOne(v, e)[l] <==>
                (f in v[l] && !(l == level && f == file)) || (l == level + 1 && f == file)
      {
        AppliedMembers(v, e, files, l, f);
        assert f in v[l] ==> InLevel(v, l, f);
      }
    }
  }

  lemma {:induction false} NumbersFixed(v: Version)
    requires UniqueNumbers(v)
    ensures NumbersFixFiles(AllFiles(v))
  {
    forall f, g | f in AllFiles(v) && g in AllFiles(v) && f.number == g.number
      ensures f == g
    {
      var l :| 0 <= l < |v| && f in v[l];
      var m :| 0 <= m < |v| && g in v[m];
      assert InLevel(v, l, f) && InLevel(v, m, g);
    }
  }

  lemma {:induction false} MoveShape(v: Version, level: nat, file: File, v': Version)
    requires WellFormed(v) && LegalMove(v, level, file)
    requires MoveResult(v, level, file, v') && Ordered(v')
    ensures Shaped(v')
  {
    NothingBelow(v, level, file);
    forall l | 0 <= l < |v'|
      ensures ValidFiles(v'[l])
      ensures l > 0 ==> Disjoint(v'[l])
    {
      assert MovedLevel(v[l], v'[l], l, level, file);
      if l > 0 {
        forall f, g | f in v'[l] && g in v'[l] && f != g
          ensures RangesApart(f, g)
        {
          if f in v[l] && g in v[l] {
            RangesOfDisjoint(v[l], f, g);
          } else {
            NoSharedKeys(v[l], file, if f in v[l] then f else g);
          }
        }
        DisjointByRanges(v'[l]);
      }
    }
  }

  lemma {:induction false} MoveContents(v: Version, level: nat, file: File, v': Version)
    requires Shaped(v) && LegalMove(v, level, file) && MoveResult(v, level, file, v')
    ensures Contents(v') == Contents(v)
  {
    NothingBelow(v, level, file);
    forall e
      ensures InVersion(v', e) <==> InVersion(v, e)
    {
      if InVersion(v', e) {
        var l :| 0 <= l < |v'| && Holds(v'[l], e);
        assert MovedLevel(v[l], v'[l], l, level, file);
        var f :| f in v'[l] && e in f.entries;
        assert f in v[l] ==> Holds(v[l], e);
        assert f == file ==> Holds(v[level], e);
      }
      if InVersion(v, e) {
        var l :| 0 <= l < |v| && Holds(v[l], e);
        var f :| f in v[l] && e in f.entries;
        assert MovedLevel(v[l], v'[l], l, level, file);
        assert MovedLevel(v[level + 1], v'[level + 1], level + 1, level, file);
        assert f in v'[l] ==> Holds(v'[l], e);
        assert f == file ==> Holds(v'[level + 1], e);
      }
    }
  }

  /** The level-by-level search stops at level `l`, which lacks the newest version `e`. */
  ghost predicate StopsShort(v: Version, k: UserKey, s: nat, l: nat, d: Entry, e: Entry)
  {
    && l < |v|
    && IsNewest(Contents(v), k, s, e)
    && Holds(v[l], d) && Matches(d, k, s) && !Holds(v[l], e)
    && NoneAbove(v, l, k, s)
  }

  ghost predicate StaleRead(v: Version, k: UserKey, s: nat)
  {
    exists l, d, e :: StopsShort(v, k, s, l, d, e)
  }

  ghost predicate NoneAbove(v: Version, level: nat, k: UserKey, s: nat)
  {
    forall l, e :: 0 <= l < level && l < |v| && Holds(v[l], e) ==> !Matches(e, k, s)
  }

  ghost predicate NeverStale(v: Version)
  {
    forall k, s :: !StaleRead(v, k, s)
  }

  lemma {:induction false} LayeredIsNeverStale(v: Version)
    requires Layered(v)
    ensures NeverStale(v)
  {
    forall k, s
      ensures !StaleRead(v, k, s)
    {
      forall l, d, e
        ensures !StopsShort(v, k, s, l, d, e)
      {
        LayeredSearch(v, k, s, l, d, e);
      }
    }
  }

  lemma {:induction false} LayeredSearch(v: Version, k: UserKey, s: nat, l: nat, d: Entry, e: Entry)
    requires Layered(v)
    ensures !StopsShort(v, k, s, l, d, e)
  {
    if l < |v| && InVersion(v, e) && Holds(v[l], d) {
      var m :| 0 <= m < |v| && Holds(v[m], e);
      var f :| f in v[l] && d in f.entries;
      var g :| g in v[m] && e in g.entries;
      assert InVersion(v, d);
      assert l < m ==> LevelNewer(v[l], v[m]);
      assert l < m ==> Newer(f, g);
    }
  }

  lemma {:induction false} MoveLayering(v: Version, level: nat, file: File, v': Version)
    requires WellFormed(v) && LegalMove(v, level, file) && MoveResult(v, level, file, v')
    requires OlderClosed(v[level], [file])
    ensures Layered(v')
  {
    NothingBelow(v, level, file);
    assert MovedLevel(v[0], v'[0], 0, level, file);
    forall a, b | 0 <= a < b < |v'|
      ensures LevelNewer(v'[a], v'[b])
    {
      assert MovedLevel(v[a], v'[a], a, level, file) && MovedLevel(v[b], v'[b], b, level, file);
      forall f, g | f in v'[a] && g in v'[b]
        ensures Newer(f, g)
      {
        var a', b' := if f == file then level else a, if g == file then level else b;
        assert f in v[a'] && g in v[b'];
        if a' < b' {
          assert LevelNewer(v[a'], v[b']);
        } else {
          assert g == file && a' == level && g in [file];
        }
      }
    }
  }

  /** A left-behind older version at the file's level makes the moved one unreachable. */
  lemma {:induction false} MoveGoesStale(v: Version, level: nat, file: File, v': Version)
    requires WellFormed(v) && LegalMove(v, level, file) && MoveResult(v, level, file, v')
    requires level > 0 && Unique(Contents(v)) && !OlderClosed(v[level], [file])
    ensures !NeverStale(v')
  {
    NothingBelow(v, level, file);
    var g, d, e := OlderLeft(v[level], file);
    MoveContents(v, level, file, v');
    assert Holds(v[level], e) && InVersion(v, e);
    StopsAtOlder(v, level, file, v', g, d, e);
    assert StaleRead(v', e.key, e.seqno);
  }

  lemma {:induction false} OlderLeft(files: Level, file: File) returns (g: File, d: Entry, e: Entry)
    requires !OlderClosed(files, [file])
    ensures g in files && g != file && d in g.entries && e in file.entries
    ensures d.key == e.key && d.seqno <= e.seqno
  {
    g :| g in files && g !in [file] && !Newer(g, file);
    d, e :| d in g.entries && e in file.entries && d.key == e.key && d.seqno <= e.seqno;
  }

  lemma {:induction false} StopsAtOlder(v: Version, level: nat, file: File, v': Version, g: File, d: Entry, e: Entry)
    requires Shaped(v) && Layered(v) && 0 < level < |v| && file in v[level] && MoveResult(v, level, file, v')
    requires g in v[level] && g != file && d in g.entries && e in file.entries
    requires d.key == e.key && d.seqno <= e.seqno && e in Contents(v')
    ensures StopsShort(v', e.key, e.seqno, level, d, e)
  {
    assert MovedLevel(v[level], v'[level], level, level, file);
    assert Holds(v'[level], d);
    NotLeftBehind(v[level], file, v'[level], e);
    NothingShallower(v, level, file, v', e);
  }

  lemma {:induction false} NotLeftBehind(level: Level, file: File, after: Level, e: Entry)
    requires ValidFiles(level) && Disjoint(level) && file in level && e in file.entries
    requires forall f :: f in after ==> f in level && f != file
    ensures !Holds(after, e)
  {
    forall h | h in after
      ensures e !in h.entries
    {
      RangesOfDisjoint(level, file, h);
      EntryInRange(file, e);
      if e in h.entries {
        EntryInRange(h, e);
      }
    }
  }

  lemma {:induction false} NothingShallower(v: Version, level: nat, file: File, v': Version, e: Entry)
    requires Layered(v) && level < |v| && file in v[level] && e in file.entries
    requires MoveResult(v, level, file, v')
    ensures NoneAbove(v', level, e.key, e.seqno)
  {
    forall l, x | 0 <= l < level && Holds(v'[l], x)
      ensures !Matches(x, e.key, e.seqno)
    {
      assert MovedLevel(v[l], v'[l], l, level, file);
      var h :| h in v'[l] && x in h.entries;
      assert LevelNewer(v[l], v[level]);
      assert Newer(h, file);
    }
  }

  /** Exactly when a trivial move keeps reads right: nothing older is left beside the file. */
  lemma {:induction false} TrivialMoveIsSafe(v: Version, level: nat, file: File)
    requires WellFormed(v) && LegalMove(v, level, file) && Unique(Contents(v))
    ensures ValidEdit(MoveEdit(level, file))
    ensures NeverStale(ApplyOne(v, MoveEdit(level, file))) <==> OlderClosed(v[level], [file])
    ensures Contents(ApplyOne(v, MoveEdit(level, file))) == Contents(v)
    ensures OlderClosed(v[level], [file]) ==> WellFormed(ApplyOne(v, MoveEdit(level, file)))
  {
    MoveApplied(v, level, file);
    var v' := ApplyOne(v, MoveEdit(level, file));
    MoveShape(v, level, file, v');
    MoveContents(v, level, file, v');
    if level == 0 {
      LevelZeroClosed(v, Inputs(level, [file], []));
    }
    if OlderClosed(v[level], [file]) {
      MoveLayering(v, level, file, v');
      LayeredIsNeverStale(v');
      MoveNumbers(v, level, file, v');
    } else {
      MoveGoesStale(v, level, file, v');
    }
  }

  lemma {:induction false} MoveNumbers(v: Version, level: nat, file: File, v': Version)
    requires UniqueNumbers(v) && Shaped(v) && LegalMove(v, level, file) && MoveResult(v, level, file, v')
    ensures UniqueNumbers(v')
  {
    NothingBelow(v, level, file);
    assert InLevel(v, level, file);
    forall l: nat, f | InLevel(v', l, f)
      ensures InLevel(v, if f == file then level else l, f) && (f == file ==> l == level + 1)
    {
      assert MovedLevel(v[l], v'[l], l, level, file);
      assert f in v[l] ==> InLevel(v, l, f);
    }
  }

  /**
   The test a caller could make: the next file must not start with the user key the
   inputs end with.
   */
  lemma {:induction false} BoundaryTest(files: Level, i: nat, j: nat)
    requires ValidFiles(files) && Disjoint(files) && Unique(LevelContents(files))
    requires i < j <= |files|
    ensures OlderClosed(files, files[i..j]) <==>
            (j == |files| || files[j].smallest.key != files[j - 1].largest.key)
  {
    if j < |files| && files[j].smallest.key == files[j - 1].largest.key {
      SharedBoundary(files, i, j);
    } else {
      forall f, g | f in files[i..j] && g in files && g !in files[i..j]
        ensures Newer(g, f)
      {
        var x, y := Positions(files, i, j, f, g);
        NeighbourIsNewer(files, i, j, x, y);
      }
    }
  }

  lemma {:induction false} Positions(files: Level, i: nat, j: nat, f: File, g: File) returns (x: nat, y: nat)
    requires i <= j <= |files| && f in files[i..j] && g in files && g !in files[i..j]
    ensures i <= x < j && files[x] == f && y < |files| && files[y] == g && !(i <= y < j)
  {
    var z :| 0 <= z < |files[i..j]| && files[i..j][z] == f;
    x := i + z;
    forall w | i <= w < j
      ensures files[w] in files[i..j]
    {
      assert files[i..j][w - i] == files[w];
    }
    y :| 0 <= y < |files| && files[y] == g;
  }

  lemma {:induction false} SharedBoundary(files: Level, i: nat, j: nat)
    requires ValidFiles(files) && Disjoint(files)
    requires i < j < |files| && files[j].smallest.key == files[j - 1].largest.key
    ensures !OlderClosed(files, files[i..j])
  {
    var f, g := files[j - 1], files[j];
    assert f == files[i..j][j - 1 - i] && f in files && g in files;
    assert Before(f.largest, g.smallest);
    assert g !in files[i..j] by {
      forall x | 0 <= x < |files[i..j]|
        ensures files[i..j][x] != g
      {
        assert Before(files[i + x].largest, g.smallest);
        EntryInRange(g, g.largest);
      }
    }
    assert g.smallest in g.entries && f.largest in f.entries;
    assert !Newer(g, f);
  }

  lemma {:induction false} NeighbourIsNewer(files: Level, i: nat, j: nat, x: nat, y: nat)
    requires ValidFiles(files) && Disjoint(files) && Unique(LevelContents(files))
    requires i <= x < j <= |files| && y < |files| && !(i <= y < j)
    requires j == |files| || files[j].smallest.key != files[j - 1].largest.key
    ensures Newer(files[y], files[x])
  {
    forall d, e | d in files[y].entries && e in files[x].entries && d.key == e.key
      ensures d.seqno > e.seqno
    {
      PairIsNewer(files, i, j, x, y, d, e);
    }
  }

  lemma {:induction false} PairIsNewer(files: Level, i: nat, j: nat, x: nat, y: nat, d: Entry, e: Entry)
    requires ValidFiles(files) && Disjoint(files) && Unique(LevelContents(files))
    requires i <= x < j <= |files| && y < |files| && !(i <= y < j)
    requires j == |files| || files[j].smallest.key != files[j - 1].largest.key
    requires d in files[y].entries && e in files[x].entries && d.key == e.key
    ensures d.seqno > e.seqno
  {
    var f, g := files[x], files[y];
    assert f in files && g in files && files[j - 1] in files;
    EntryInRange(f, e);
    EntryInRange(g, d);
    assert j < |files| ==> Before(files[j - 1].largest, files[j].smallest);
    if y < i {
      assert Before(g.largest, f.smallest);
      assert Holds(files, d) && Holds(files, e);
    } else {
      LargestInOrder(files, x, j - 1);
      SmallestInOrder(files, j, y);
    }
  }

  /** The boundary case happens: reading 9 back gives 5 after the move. */
  lemma {:induction false} MoveCanGoStale() returns (v: Version, f: File)
    ensures WellFormed(v) && LegalMove(v, 1, f) && Unique(Contents(v))
    ensures ValidEdit(MoveEdit(1, f)) && !NeverStale(ApplyOne(v, MoveEdit(1, f)))
  {
    v, f := KeyCutInTwo();
    TrivialMoveIsSafe(v, 1, f);
  }

  /** Two versions of one user key in neighbouring files of level one. */
  lemma {:induction false} KeyCutInTwo() returns (v: Version, f: File)
    ensures WellFormed(v) && LegalMove(v, 1, f) && Unique(Contents(v)) && NumbersBelow(v, 10)
    ensures f.entries == [Entry(1.0, 9, Value, [9])] && !OlderClosed(v[1], [f])
  {
    hide WellFormed, LegalMove, OlderClosed, Unique, Contents, Layered, Shaped;
    var nine, five := Entry(1.0, 9, Value, [9]), Entry(1.0, 5, Value, [5]);
    f := File(8, 100, nine, nine, [nine]);
    var g := File(9, 100, five, five, [five]);
    v := [[], [f, g], [], [], [], [], []];
    SmallVersion(v, f, g);
    SmallMove(v, f, g);
    SmallContents(v, f, g, nine, five);
    SmallGap(f, g, nine, five);
  }

  lemma {:induction false} SmallMove(v: Version, f: File, g: File)
    requires v == [[], [f, g], [], [], [], [], []] && f.smallest.key == f.largest.key
    ensures LegalMove(v, 1, f)
  {
    assert SpansRange(v, Inputs(1, [f], []), f.smallest.key, f.smallest.key);
  }

  lemma {:induction false} SmallGap(f: File, g: File, d: Entry, e: Entry)
    requires f.entries == [d] && g.entries == [e] && d.key == e.key && e.seqno < d.seqno
    ensures !OlderClosed([f, g], [f])
  {
    assert f in [f] && g in [f, g] && g !in [f];
    assert e in g.entries && d in f.entries;
  }

  lemma {:induction false} SmallContents(v: Version, f: File, g: File, d: Entry, e: Entry)
    requires v == [[], [f, g], [], [], [], [], []] && f.entries == [d] && g.entries == [e]
    requires d.seqno != e.seqno
    ensures Unique(Contents(v))
  {
    forall x | x in Contents(v)
      ensures x == d || x == e
    {
      var l :| 0 <= l < |v| && Holds(v[l], x);
      var h :| h in v[l] && x in h.entries;
    }
  }

  lemma {:induction false} SmallVersion(v: Version, f: File, g: File)
    requires v == [[], [f, g], [], [], [], [], []]
    requires ValidFile(f) && ValidFile(g) && Before(f.largest, g.smallest) && f.number != g.number
    ensures WellFormed(v)
  {
    assert Before(f.smallest, g.smallest) by {
      EntryInRange(f, f.largest);
    }
    assert Shaped(v);
    assert forall a :: 0 <= a < |v| && a != 1 ==> v[a] == [];
    assert Layered(v);
  }
}

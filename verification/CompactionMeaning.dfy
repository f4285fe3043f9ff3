/**
 What a compaction preserves. Inputs are replaced by the kept entries at the next level;
 no read at or above the smallest snapshot changes, shallower levels stay newer, and the
 levels above zero stay sorted and disjoint.
 */
module CompactionMeaning {
  import opened InternalKeys
  import opened Versions
  import opened LevelShape
  import opened Compaction
  import opened VersionBuilder

  ghost function InputSet(input: seq<Entry>): iset<Entry>
  {
    iset e | e in input
  }

  /** Some occurrence of `e` in the input is not dropped. */
  ghost predicate Survives(v: Version, level: nat, input: seq<Entry>, snap: nat, e: Entry)
  {
    exists i :: 0 <= i < |input| && input[i] == e && !Dropped(v, level, input, i, snap)
  }

  ghost function KeptSet(v: Version, level: nat, input: seq<Entry>, snap: nat): iset<Entry>
  {
    iset e | Survives(v, level, input, snap, e)
  }

  lemma {:induction false} KeptMembers(v: Version, level: nat, input: seq<Entry>, n: nat, snap: nat, e: Entry)
    requires n <= |input|
    ensures e in Kept(v, level, input, n, snap) <==>
            exists i :: 0 <= i < n && input[i] == e && !Dropped(v, level, input, i, snap)
  {
    if n > 0 {
      KeptMembers(v, level, input, n - 1, snap, e);
    }
  }

  lemma {:induction false} KeptSorted(v: Version, level: nat, input: seq<Entry>, n: nat, snap: nat)
    requires n <= |input| && Sorted(input)
    ensures Sorted(Kept(v, level, input, n, snap))
  {
    if n > 0 {
      KeptSorted(v, level, input, n - 1, snap);
      var init := Kept(v, level, input, n - 1, snap);
      forall i | 0 <= i < |init|
        ensures Before(init[i], input[n - 1])
      {
        KeptMembers(v, level, input, n - 1, snap, init[i]);
      }
    }
  }

  /** Under an obsolete deletion marker of the input, `rest` has nothing or first another marker. */
  ghost predicate MarkersCoverNoValue(v: Version, level: nat, input: seq<Entry>, snap: nat, rest: iset<Entry>)
  {
    forall d, e :: e in input && Obsolete(v, level, e, snap) && IsNewest(rest, e.key, e.seqno, d) ==> d.kind.Deletion?
  }

  lemma {:induction false} LookupExists(es: iset<Entry>, k: UserKey, s: nat) returns (r: Option<Entry>)
    ensures IsLookup(es, k, s, r)
    decreases s
  {
    if e :| e in es && e.key == k && e.seqno == s {
      r := Some(e);
    } else if s == 0 {
      r := None;
    } else {
      r := LookupExists(es, k, s - 1);
    }
  }

  /** Entries of one user key are consecutive in a sorted run. */
  lemma {:induction false} SameKeyBetween(input: seq<Entry>, i: nat, j: nat)
    requires Sorted(input) && i < j < |input| && input[i].key == input[j].key
    ensures input[j - 1].key == input[j].key && input[j - 1].seqno <= input[i].seqno
  {
    assert Before(input[j - 1], input[j]);
    if i < j - 1 {
      assert Before(input[i], input[j - 1]);
    }
  }

  /** Dropping what the two rules drop changes no answer at or above the snapshot. */
  lemma {:induction false} DropsAreUnseen(v: Version, level: nat, input: seq<Entry>, snap: nat, rest: iset<Entry>,
                                          k: UserKey, s: nat)
    requires Sorted(input) && snap <= s && snap < MaxSequenceNumber
    requires Unique(rest + InputSet(input))
    requires MarkersCoverNoValue(v, level, input, snap, rest)
    ensures Agree(rest + InputSet(input), rest + KeptSet(v, level, input, snap), k, s)
  {
    var before, after := rest + InputSet(input), rest + KeptSet(v, level, input, snap);
    assert forall e :: e in after ==> e in before;
    var r := LookupExists(before, k, s);
    if r.None? {
      assert IsLookup(after, k, s, r);
    } else if r.value in after {
      assert IsLookup(after, k, s, r);
    } else {
      var i :| 0 <= i < |input| && input[i] == r.value;
      NewestIsNotHidden(input, i, snap, rest, k, s);
      assert Obsolete(v, level, input[i], snap);
      var r' := LookupExists(after, k, s);
      if r'.Some? {
        OnlyRestUnderMarker(v, level, input, snap, rest, k, s, i, r'.value);
        assert IsNewest(rest, k, input[i].seqno, r'.value);
      }
      assert SameAnswer(r, r');
    }
  }

  lemma {:induction false} NewestIsNotHidden(input: seq<Entry>, i: nat, snap: nat, rest: iset<Entry>, k: UserKey,
                                             s: nat)
    requires Sorted(input) && i < |input| && snap <= s && snap < MaxSequenceNumber
    requires Unique(rest + InputSet(input)) && IsNewest(rest + InputSet(input), k, s, input[i])
    ensures !Hidden(input, i, snap)
  {
    if i > 0 {
      var p := input[i - 1];
      assert Before(p, input[i]) && p in rest + InputSet(input);
    }
  }

  /** Under a marker every snapshot sees, only newer entries of its key escape rule (A). */
  lemma {:induction false} OnlyNewerSurvive(input: seq<Entry>, snap: nat, i: nat, j: nat)
    requires Sorted(input) && i < |input| && j < |input|
    requires input[i].key == input[j].key && input[i].seqno <= snap && !Hidden(input, j, snap)
    ensures j <= i
  {
    if i < j {
      SameKeyBetween(input, i, j);
    }
  }

  /** Once an obsolete marker is dropped, what a reader may find under it is not of the input. */
  lemma {:induction false} OnlyRestUnderMarker(v: Version, level: nat, input: seq<Entry>, snap: nat,
                                               rest: iset<Entry>, k: UserKey, s: nat, i: nat, d: Entry)
    requires Sorted(input) && i < |input| && Unique(rest + InputSet(input))
    requires IsNewest(rest + InputSet(input), k, s, input[i]) && Obsolete(v, level, input[i], snap)
    requires d in rest + KeptSet(v, level, input, snap) && Matches(d, k, s)
    ensures d in rest
  {
    forall j | 0 <= j < |input| && input[j].key == k && !Dropped(v, level, input, j, snap)
      ensures input[j].seqno > input[i].seqno
    {
      OnlyNewerSurvive(input, snap, i, j);
      assert Before(input[j], input[i]) && input[j] in rest + InputSet(input);
    }
  }

  // ------------------------------------------------------------------
  // Installing the outputs.

  ghost predicate Ordered(v: Version)
  {
    forall l :: 0 <= l < |v| ==> StrictOrder(v[l])
  }

  ghost predicate InLevel(v: Version, l: nat, f: File)
  {
    l < |v| && f in v[l]
  }

  /** A file number is used for one file, at one level. */
  ghost predicate UniqueNumbers(v: Version)
  {
    forall l, m, f, g :: InLevel(v, l, f) && InLevel(v, m, g) && f.number == g.number ==> f == g && l == m
  }

  /** The invariant of every installed version. */
  ghost predicate WellFormed(v: Version)
  {
    Shaped(v) && Layered(v) && Ordered(v) && UniqueNumbers(v)
  }

  ghost predicate NumbersBelow(v: Version, n: nat)
  {
    forall l, f :: InLevel(v, l, f) ==> f.number < n
  }

  /** No file left behind holds an older version of a user key the inputs hold. */
  ghost predicate OlderClosed(level: Level, inputs: Level)
  {
    forall f, g :: f in inputs && g in level && g !in inputs ==> Newer(g, f)
  }

  ghost predicate KeyClosed(v: Version, c: Inputs)
    requires Taken(v, c)
  {
    OlderClosed(v[c.level], c.upper) && OlderClosed(v[c.level + 1], c.lower)
  }

  predicate IsInput(c: Inputs, l: nat, f: File)
  {
    (l == c.level && f in c.upper) || (l == c.level + 1 && f in c.lower)
  }

  /** The merged input: the entries of all input files, in order. */
  ghost predicate MergedInput(c: Inputs, input: seq<Entry>)
  {
    Sorted(input) && forall e :: e in input <==> Holds(c.upper, e) || Holds(c.lower, e)
  }

  function NumbersAt(level: nat, files: Level): set<(nat, nat)>
  {
    set f | f in files :: (level, f.number)
  }

  /** `InstallCompactionResults`: the edit that replaces the inputs by the outputs. */
  function CompactionEdit(c: Inputs, outputs: Level): Edit
  {
    Edit(NumbersAt(c.level, c.upper) + NumbersAt(c.level + 1, c.lower),
         seq(|outputs|, i requires 0 <= i < |outputs| => (c.level + 1, outputs[i])))
  }

  ghost function AllFiles(v: Version): set<File>
  {
    set l, f | 0 <= l < |v| && f in v[l] :: f
  }

  /** What level `l` holds once the inputs are replaced by the outputs. */
  ghost predicate LevelResult(v: Version, c: Inputs, outputs: Level, l: nat, files: Level)
    requires l < |v|
  {
    forall f :: f in files <==> (f in v[l] && !IsInput(c, l, f)) || (l == c.level + 1 && f in outputs)
  }

  ghost predicate Result(v: Version, c: Inputs, outputs: Level, v': Version)
  {
    |v'| == |v| && forall l :: 0 <= l < |v| ==> LevelResult(v, c, outputs, l, v'[l])
  }

  /** The outputs have distinct numbers that no file of `v` has. */
  ghost predicate NewNumbers(v: Version, outputs: Level)
  {
    && (forall i, j :: 0 <= i < j < |outputs| ==> outputs[i].number != outputs[j].number)
    && (forall i, l, f :: 0 <= i < |outputs| && InLevel(v, l, f) ==> f.number != outputs[i].number)
  }

  lemma {:induction false} NumbersStayFixed(v: Version, outputs: Level)
    requires UniqueNumbers(v) && NewNumbers(v, outputs)
    ensures NumbersFixFiles(AllFiles(v) + set f | f in outputs)
  {
    var files := AllFiles(v) + set f | f in outputs;
    forall f, g | f in files && g in files && f.number == g.number
      ensures f == g
    {
      if f in AllFiles(v) {
        var l :| 0 <= l < |v| && f in v[l];
        assert InLevel(v, l, f);
      }
      if g in AllFiles(v) {
        var m :| 0 <= m < |v| && g in v[m];
        assert InLevel(v, m, g);
      }
    }
  }

  lemma {:induction false} InstallResult(v: Version, c: Inputs, outputs: Level)
    requires WellFormed(v) && Taken(v, c)
    requires NewNumbers(v, outputs)
    ensures ValidEdit(CompactionEdit(c, outputs))
    ensures Result(v, c, outputs, ApplyOne(v, CompactionEdit(c, outputs)))
    ensures Ordered(ApplyOne(v, CompactionEdit(c, outputs)))
  {
    var e := CompactionEdit(c, outputs);
    var files := AllFiles(v) + set f | f in outputs;
    NumbersStayFixed(v, outputs);
    assert AddsFrom(e, files);
    OutputsAreNew(v, c, outputs);
    forall l | 0 <= l < |v|
      ensures StrictOrder(ApplyOne(v, e)[l])
      ensures LevelResult(v, c, outputs, l, ApplyOne(v, e)[l])
    {
      assert StrictOrder(v[l]) && forall f :: f in v[l] ==> f in files;
      StepInOrder(v, e, files, l);
      LevelInstall(v, c, outputs, files, l);
    }
  }

  lemma {:induction false} OutputsAreNew(v: Version, c: Inputs, outputs: Level)
    requires Taken(v, c) && NewNumbers(v, outputs)
    requires ValidEdit(CompactionEdit(c, outputs))
    ensures AddsOnlyNew(v, CompactionEdit(c, outputs))
  {
    var e := CompactionEdit(c, outputs);
    forall i | 0 <= i < |e.added|
      ensures e.added[i].1 !in v[e.added[i].0]
    {
      assert e.added[i].1 == outputs[i];
      var f := outputs[i];
      assert InLevel(v, c.level + 1, f) ==> f.number != f.number;
    }
  }

  lemma {:induction false} LevelInstall(v: Version, c: Inputs, outputs: Level, files: set<File>, l: nat)
    requires WellFormed(v) && Taken(v, c) && l < |v|
    requires ValidEdit(CompactionEdit(c, outputs)) && AddsFrom(CompactionEdit(c, outputs), files)
    requires NumbersFixFiles(files) && forall f :: f in v[l] ==> f in files
    ensures LevelResult(v, c, outputs, l, ApplyOne(v, CompactionEdit(c, outputs))[l])
  {
    forall f
      ensures f in ApplyOne(v, CompactionEdit(c, outputs))[l] <==>
              (f in v[l] && !IsInput(c, l, f)) || (l == c.level + 1 && f in outputs)
    {
      AppliedMembers(v, CompactionEdit(c, outputs), files, l, f);
      EditAt(v, c, outputs, l, f);
    }
  }

  /** The edit deletes exactly the inputs and adds exactly the outputs. */
  lemma {:induction false} EditAt(v: Version, c: Inputs, outputs: Level, l: nat, f: File)
    requires WellFormed(v) && Taken(v, c) && l < |v|
    ensures (l, f) in CompactionEdit(c, outputs).added <==> l == c.level + 1 && f in outputs
    ensures f in v[l] ==> ((l, f.number) in CompactionEdit(c, outputs).deleted <==> IsInput(c, l, f))
  {
    var e := CompactionEdit(c, outputs);
    if l == c.level + 1 && f in outputs {
      var i :| 0 <= i < |outputs| && outputs[i] == f;
      assert e.added[i] == (l, f);
    }
    if f in v[l] && (l, f.number) in e.deleted {
      var g: File :| g.number == f.number && IsInput(c, l, g);
      assert IsInput(c, l, g);
      assert InLevel(v, l, g);
      assert InLevel(v, l, f);
    }
  }

  // ------------------------------------------------------------------
  // What the new version holds.

  lemma {:induction false} ConcatMembers(files: Level, e: Entry)
    ensures e in Concat(files) <==> Holds(files, e)
  {
    if files != [] {
      var n := |files| - 1;
      assert files == files[..n] + [files[n]];
      ConcatMembers(files[..n], e);
      if Holds(files[..n], e) {
        var f :| f in files[..n] && e in f.entries;
        assert f in files;
      }
    }
  }

  /** The entries outside the inputs. */
  ghost predicate LeftBehind(v: Version, c: Inputs, e: Entry)
  {
    exists l, f :: InLevel(v, l, f) && !IsInput(c, l, f) && e in f.entries
  }

  ghost function Rest(v: Version, c: Inputs): iset<Entry>
  {
    iset e | LeftBehind(v, c, e)
  }

  /** No marker that a compaction may drop has a value of its key right under it among what stays. */
  ghost predicate NoValueUnderMarker(v: Version, c: Inputs, input: seq<Entry>)
  {
    forall d, e ::
      e in input && e.kind.Deletion? && IsBase(v, c.level, e.key) && IsNewest(Rest(v, c), e.key, e.seqno, d) ==>
      d.kind.Deletion?
  }

  lemma {:induction false} ContentsBefore(v: Version, c: Inputs, input: seq<Entry>)
    requires Taken(v, c) && MergedInput(c, input)
    ensures Contents(v) == Rest(v, c) + InputSet(input)
  {
    forall e
      ensures InVersion(v, e) <==> LeftBehind(v, c, e) || e in input
    {
      if InVersion(v, e) {
        var l :| 0 <= l < |v| && Holds(v[l], e);
        var f :| f in v[l] && e in f.entries;
        assert InLevel(v, l, f);
        assert IsInput(c, l, f) ==> Holds(c.upper, e) || Holds(c.lower, e);
      }
      if LeftBehind(v, c, e) {
        var l: nat, f: File :| InLevel(v, l, f) && !IsInput(c, l, f) && e in f.entries;
        assert InLevel(v, l, f);
        assert Holds(v[l], e);
      }
      if Holds(c.upper, e) {
        assert Holds(v[c.level], e);
      }
      if Holds(c.lower, e) {
        assert Holds(v[c.level + 1], e);
      }
    }
  }

  lemma {:induction false} ContentsAfter(v: Version, c: Inputs, outputs: Level, v': Version)
    requires Taken(v, c) && Result(v, c, outputs, v')
    ensures Contents(v') == Rest(v, c) + LevelContents(outputs)
  {
    forall e
      ensures InVersion(v', e) <==> LeftBehind(v, c, e) || Holds(outputs, e)
    {
      if InVersion(v', e) {
        var l :| 0 <= l < |v'| && Holds(v'[l], e);
        var f :| f in v'[l] && e in f.entries;
        assert LevelResult(v, c, outputs, l, v'[l]);
        assert f in v[l] ==> InLevel(v, l, f);
      }
      if LeftBehind(v, c, e) {
        var l: nat, f: File :| InLevel(v, l, f) && !IsInput(c, l, f) && e in f.entries;
        assert InLevel(v, l, f);
        assert LevelResult(v, c, outputs, l, v'[l]);
        assert Holds(v'[l], e);
      }
      if Holds(outputs, e) {
        assert LevelResult(v, c, outputs, c.level + 1, v'[c.level + 1]);
        assert Holds(v'[c.level + 1], e);
      }
    }
  }

  /** A file of the next level that is not an input shares no user key with the upper inputs. */
  lemma {:induction false} LowerTakesSharedKeys(v: Version, c: Inputs, f: File, g: File, d: Entry, e: Entry)
    requires Shaped(v) && LegalInputs(v, c)
    requires f in c.upper && g in v[c.level + 1] && g !in c.lower
    requires e in f.entries && d in g.entries
    ensures d.key != e.key
  {
    var lo, hi :| SpansRange(v, c, lo, hi);
    EntryInRange(f, e);
    EntryInRange(g, d);
  }

  /** Level-zero inputs leave no file with a user key of theirs behind. */
  lemma {:induction false} LevelZeroClosed(v: Version, c: Inputs)
    requires Shaped(v) && LegalInputs(v, c) && c.level == 0
    ensures OlderClosed(v[0], c.upper)
  {
    var x, y :| ClosedRange(v[0], x, y) && c.upper == Overlapping(v[0], x, y);
    forall f, g | f in c.upper && g in v[0] && g !in c.upper
      ensures Newer(g, f)
    {
      forall d, e | d in g.entries && e in f.entries
        ensures d.key != e.key
      {
        EntryInRange(f, e);
        EntryInRange(g, d);
      }
    }
  }

  /** What is left behind at or above the level of the upper inputs is newer than what is taken. */
  lemma {:induction false} LeftAboveIsNewer(v: Version, c: Inputs, l: nat, f: File, m: nat, g: File)
    requires Layered(v) && Taken(v, c) && OlderClosed(v[c.level], c.upper)
    requires InLevel(v, l, f) && IsInput(c, l, f)
    requires InLevel(v, m, g) && !IsInput(c, m, g) && m <= c.level
    ensures Newer(g, f)
  {
    if m < l {
      assert LevelNewer(v[m], v[l]);
    }
  }

  /** With inputs closed under user keys, the same holds of the level the outputs go to. */
  lemma {:induction false} LeftBesideIsNewer(v: Version, c: Inputs, l: nat, f: File, g: File)
    requires Shaped(v) && LegalInputs(v, c) && OlderClosed(v[c.level + 1], c.lower)
    requires InLevel(v, l, f) && IsInput(c, l, f) && g in v[c.level + 1] && g !in c.lower
    ensures Newer(g, f)
  {
    if l == c.level {
      forall d, e | d in g.entries && e in f.entries
        ensures d.key != e.key
      {
        LowerTakesSharedKeys(v, c, f, g, d, e);
      }
    }
  }

  /** Every entry of `mem` is newer than every version of its key in `v`. */
  ghost predicate NewerThan(mem: iset<Entry>, v: Version)
  {
    forall d, e :: d in mem && InVersion(v, e) && d.key == e.key ==> d.seqno > e.seqno
  }

  /**
   `v` is `b`, the version a compaction read, or what flushes made of it since: it has the
   files of `b`, and a file that `b` lacks holds only newer versions of whatever user key it
   shares with a file of `b`.
   */
  ghost predicate Grown(b: Version, v: Version)
  {
    && (forall l, f :: InLevel(b, l, f) ==> InLevel(v, l, f))
    && (forall l, m, f, g :: InLevel(b, l, f) && InLevel(v, m, g) && !InLevel(b, m, g) ==> Newer(g, f))
  }

  /** The inputs of a compaction are still there when it ends, whatever was flushed meanwhile. */
  lemma {:induction false} StillTaken(b: Version, v: Version, c: Inputs)
    requires Taken(b, c) && Grown(b, v) && |v| == NumLevels
    ensures Taken(v, c)
  {
    forall f | f in c.upper
      ensures f in v[c.level]
    {
      assert InLevel(b, c.level, f);
    }
    forall f | f in c.lower
      ensures f in v[c.level + 1]
    {
      assert InLevel(b, c.level + 1, f);
    }
  }

  /** Flushes leave nothing older beside the inputs. */
  lemma {:induction false} StillClosed(b: Version, v: Version, c: Inputs)
    requires Taken(b, c) && Grown(b, v) && |v| == NumLevels && OlderClosed(b[c.level], c.upper)
    ensures OlderClosed(v[c.level], c.upper)
  {
    forall f, g | f in c.upper && g in v[c.level] && g !in c.upper
      ensures Newer(g, f)
    {
      assert InLevel(b, c.level, f) && InLevel(v, c.level, g);
    }
  }

  /** Flushes put nothing older under the markers. */
  lemma {:induction false} StillNoValue(b: Version, v: Version, c: Inputs, input: seq<Entry>, snap: nat,
                                        mem: iset<Entry>)
    requires Taken(b, c) && MergedInput(c, input) && NoValueUnderMarker(b, c, input)
    requires NewerThan(mem, v) && Grown(b, v)
    ensures MarkersCoverNoValue(b, c.level, input, snap, mem + Rest(v, c))
  {
    forall d, e | e in input && Obsolete(b, c.level, e, snap) && IsNewest(mem + Rest(v, c), e.key, e.seqno, d)
      ensures d.kind.Deletion?
    {
      var l, f := InputFile(b, c, input, e);
      assert InLevel(v, l, f) && Holds(v[l], e);
      OlderIsFromBase(b, v, c, l, f, d, e);
      forall x | x in Rest(b, c) && Matches(x, e.key, e.seqno)
        ensures x.seqno <= d.seqno
      {
        BaseStays(b, v, c, x);
      }
      assert IsNewest(Rest(b, c), e.key, e.seqno, d);
    }
  }

  lemma {:induction false} OlderIsFromBase(b: Version, v: Version, c: Inputs, l: nat, f: File, d: Entry, e: Entry)
    requires Grown(b, v) && InLevel(b, l, f) && e in f.entries
    requires d in Rest(v, c) && d.key == e.key && d.seqno <= e.seqno
    ensures d in Rest(b, c)
  {
    var m: nat, g: File :| InLevel(v, m, g) && !IsInput(c, m, g) && d in g.entries;
    assert InLevel(v, m, g);
    assert !InLevel(b, m, g) ==> Newer(g, f);
  }

  lemma {:induction false} BaseStays(b: Version, v: Version, c: Inputs, x: Entry)
    requires Grown(b, v) && x in Rest(b, c)
    ensures x in Rest(v, c)
  {
    var m: nat, g: File :| InLevel(b, m, g) && !IsInput(c, m, g) && x in g.entries;
    assert InLevel(b, m, g) && InLevel(v, m, g);
  }

  /** With inputs closed under user keys, what is left of the key of a base-level entry is newer than it. */
  lemma {:induction false} LeftOverMarker(v: Version, c: Inputs, input: seq<Entry>, d: Entry, e: Entry)
    requires WellFormed(v) && LegalInputs(v, c) && KeyClosed(v, c) && MergedInput(c, input)
    requires IsBase(v, c.level, e.key) && e in input && d in Rest(v, c) && d.key == e.key
    ensures d.seqno > e.seqno
  {
    var l, f := InputFile(v, c, input, e);
    var m: nat, g: File :| InLevel(v, m, g) && !IsInput(c, m, g) && d in g.entries;
    assert InLevel(v, m, g);
    EntryInRange(g, d);
    if m <= c.level {
      LeftAboveIsNewer(v, c, l, f, m, g);
    } else if m == c.level + 1 {
      LeftBesideIsNewer(v, c, l, f, g);
    }
  }

  lemma {:induction false} InputFile(v: Version, c: Inputs, input: seq<Entry>, e: Entry) returns (l: nat, f: File)
    requires Taken(v, c) && MergedInput(c, input) && e in input
    ensures IsInput(c, l, f) && InLevel(v, l, f) && e in f.entries
  {
    if Holds(c.upper, e) {
      l := c.level;
      f :| f in c.upper && e in f.entries;
    } else {
      l := c.level + 1;
      f :| f in c.lower && e in f.entries;
    }
  }

  /**
   Compaction preserves meaning. `b` is the version the inputs were picked from, `v` the one
   the outputs are installed against, after any flushes in between, and `mem` stands for the
   memtables above it. For every user key and every snapshot at or above the smallest one,
   the user gets the same answer before and after the inputs are replaced by the outputs.
   */
  lemma {:induction false} CompactionPreservesReads(b: Version, v: Version, c: Inputs, input: seq<Entry>, snap: nat,
                                                    outputs: Level, mem: iset<Entry>, k: UserKey, s: nat)
    requires LegalInputs(b, c) && MergedInput(c, input) && NoValueUnderMarker(b, c, input)
    requires WellFormed(v) && Grown(b, v) && Unique(mem + Contents(v)) && NewerThan(mem, v)
    requires NewNumbers(v, outputs)
    requires Concat(outputs) == Kept(b, c.level, input, |input|, snap)
    requires snap <= s && snap < MaxSequenceNumber
    ensures ValidEdit(CompactionEdit(c, outputs))
    ensures Agree(mem + Contents(v), mem + Contents(ApplyOne(v, CompactionEdit(c, outputs))), k, s)
  {
    hide MergedInput, NoValueUnderMarker, Unique, Grown, NewNumbers;
    StillTaken(b, v, c);
    InstallResult(v, c, outputs);
    StillNoValue(b, v, c, input, snap, mem);
    InputIsSorted(c, input);
    var rest := mem + Rest(v, c);
    BeforeAndAfter(b, v, c, input, snap, outputs, mem);
    DropsAreUnseen(b, c.level, input, snap, rest, k, s);
  }

  lemma {:induction false} InputIsSorted(c: Inputs, input: seq<Entry>)
    requires MergedInput(c, input)
    ensures Sorted(input)
  {
  }

  lemma {:induction false} BeforeAndAfter(b: Version, v: Version, c: Inputs, input: seq<Entry>, snap: nat,
                                          outputs: Level, mem: iset<Entry>)
    requires WellFormed(v) && Taken(v, c) && MergedInput(c, input) && NewNumbers(v, outputs)
    requires Concat(outputs) == Kept(b, c.level, input, |input|, snap)
    ensures ValidEdit(CompactionEdit(c, outputs))
    ensures mem + Contents(v) == mem + Rest(v, c) + InputSet(input)
    ensures mem + Contents(ApplyOne(v, CompactionEdit(c, outputs))) == mem + Rest(v, c) + KeptSet(b, c.level, input, snap)
  {
    InstallResult(v, c, outputs);
    ContentsBefore(v, c, input);
    ContentsAfter(v, c, outputs, ApplyOne(v, CompactionEdit(c, outputs)));
    KeptIsOutput(b, c, input, snap, outputs);
  }

  lemma {:induction false} KeptIsOutput(b: Version, c: Inputs, input: seq<Entry>, snap: nat, outputs: Level)
    requires Concat(outputs) == Kept(b, c.level, input, |input|, snap)
    ensures LevelContents(outputs) == KeptSet(b, c.level, input, snap)
  {
    forall e
      ensures Holds(outputs, e) <==> Survives(b, c.level, input, snap, e)
    {
      ConcatMembers(outputs, e);
      KeptMembers(b, c.level, input, |input|, snap, e);
    }
  }

  // ------------------------------------------------------------------
  // The shape and the layering of the new version.

  predicate RangesApart(f: File, g: File)
  {
    Before(f.largest, g.smallest) || Before(g.largest, f.smallest)
  }

  /** Files in order whose ranges are pairwise apart make a sorted, disjoint level. */
  lemma {:induction false} DisjointByRanges(level: Level)
    requires ValidFiles(level) && StrictOrder(level)
    requires forall f, g :: f in level && g in level && f != g ==> RangesApart(f, g)
    ensures Disjoint(level)
  {
    forall i, j | 0 <= i < j < |level|
      ensures Before(level[i].largest, level[j].smallest)
    {
      var f, g := level[i], level[j];
      assert Less(f, g) && !Less(f, f);
      EntryInRange(g, g.largest);
      EntryInRange(f, f.largest);
    }
  }

  lemma {:induction false} RangesOfDisjoint(level: Level, f: File, g: File)
    requires Disjoint(level) && f in level && g in level && f != g
    ensures RangesApart(f, g)
  {
    var i :| 0 <= i < |level| && level[i] == f;
    var j :| 0 <= j < |level| && level[j] == g;
  }

  /** The file lies wholly before or wholly after all the files. */
  predicate OneSide(g: File, files: Level)
  {
    || (forall f :: f in files ==> Before(g.largest, f.smallest))
    || (forall f :: f in files ==> Before(f.largest, g.smallest))
  }

  /** What stays at the output level lies on one side of all the inputs. */
  ghost predicate Besides(v: Version, c: Inputs)
    requires Taken(v, c)
  {
    forall g :: g in v[c.level + 1] && g !in c.lower ==> OneSide(g, c.upper + c.lower)
  }

  /** The file lies wholly before or wholly after all the entries. */
  predicate Clear(g: File, kept: seq<Entry>)
  {
    (forall e :: e in kept ==> Before(g.largest, e)) || (forall e :: e in kept ==> Before(e, g.smallest))
  }

  /** No file that stays at the output level meets the range of the entries to be written there. */
  ghost predicate RoomFor(v: Version, c: Inputs, kept: seq<Entry>)
    requires Taken(v, c)
  {
    forall g :: g in v[c.level + 1] && g !in c.lower ==> Clear(g, kept)
  }

  /** In the version the inputs were picked from, what stays lies beside them. */
  lemma {:induction false} PickedBesides(v: Version, c: Inputs)
    requires Shaped(v) && LegalInputs(v, c)
    ensures Besides(v, c)
  {
    var lo, hi :| SpansRange(v, c, lo, hi);
    forall g | g in v[c.level + 1] && g !in c.lower
      ensures OneSide(g, c.upper + c.lower)
    {
      forall f | f in c.upper + c.lower
        ensures g.largest.key < lo ==> Before(g.largest, f.smallest)
        ensures g.largest.key >= lo ==> Before(f.largest, g.smallest)
      {
        EntryInRange(f, f.largest);
        EntryInRange(g, g.largest);
        if f in c.lower {
          RangesOfDisjoint(v[c.level + 1], f, g);
        }
      }
    }
  }

  lemma {:induction false} BesidesIsRoom(b: Version, v: Version, c: Inputs, input: seq<Entry>, snap: nat)
    requires Shaped(v) && Taken(v, c) && Besides(v, c) && MergedInput(c, input)
    ensures RoomFor(v, c, Kept(b, c.level, input, |input|, snap))
  {
    var kept := Kept(b, c.level, input, |input|, snap);
    forall e | e in kept
      ensures exists f :: f in c.upper + c.lower && ValidFile(f) && e in f.entries
    {
      KeptMembers(b, c.level, input, |input|, snap, e);
      var l, f := InputFile(v, c, input, e);
      assert f in c.upper + c.lower;
    }
    forall g | g in v[c.level + 1] && g !in c.lower
      ensures Clear(g, kept)
    {
      forall e | e in kept
        ensures (forall f :: f in c.upper + c.lower ==> Before(g.largest, f.smallest)) ==> Before(g.largest, e)
        ensures (forall f :: f in c.upper + c.lower ==> Before(f.largest, g.smallest)) ==> Before(e, g.smallest)
      {
        var f :| f in c.upper + c.lower && ValidFile(f) && e in f.entries;
        EntryInRange(f, e);
      }
    }
  }

  lemma {:induction false} OutputsAreFiles(outputs: Level)
    requires WellCut(outputs) && Sorted(Concat(outputs))
    ensures ValidFiles(outputs) && Disjoint(outputs)
  {
    if outputs != [] {
      var n := |outputs| - 1;
      var init, last := outputs[..n], outputs[n];
      SortedParts(Concat(init), last.entries);
      OutputsAreFiles(init);
      forall i | 0 <= i < n
        ensures Before(outputs[i].largest, last.smallest)
      {
        LargestInConcat(init, i);
      }
    }
  }

  lemma {:induction false} SortedParts(a: seq<Entry>, b: seq<Entry>)
    requires Sorted(a + b)
    ensures Sorted(a) && Sorted(b)
    ensures forall d, e :: d in a && e in b ==> Before(d, e)
  {
    forall i, j | 0 <= i < j < |a|
      ensures Before(a[i], a[j])
    {
      assert (a + b)[i] == a[i] && (a + b)[j] == a[j];
    }
    forall i, j | 0 <= i < j < |b|
      ensures Before(b[i], b[j])
    {
      assert (a + b)[|a| + i] == b[i] && (a + b)[|a| + j] == b[j];
    }
    forall d, e | d in a && e in b
      ensures Before(d, e)
    {
      var i :| 0 <= i < |a| && a[i] == d;
      var j :| 0 <= j < |b| && b[j] == e;
      assert (a + b)[i] == d && (a + b)[|a| + j] == e;
    }
  }

  lemma {:induction false} LargestInConcat(files: Level, i: nat)
    requires WellCut(files) && i < |files|
    ensures files[i].largest in Concat(files)
  {
    assert files[i] in files && files[i].largest in files[i].entries;
    assert Holds(files, files[i].largest);
    ConcatMembers(files, files[i].largest);
  }

  lemma {:induction false} ShapeAfter(b: Version, v: Version, c: Inputs, input: seq<Entry>, snap: nat, outputs: Level,
                                      v': Version)
    requires WellFormed(v) && Taken(v, c) && Sorted(input)
    requires WellCut(outputs) && Concat(outputs) == Kept(b, c.level, input, |input|, snap)
    requires RoomFor(v, c, Concat(outputs))
    requires Result(v, c, outputs, v') && Ordered(v')
    ensures Shaped(v')
  {
    KeptSorted(b, c.level, input, |input|, snap);
    OutputsAreFiles(outputs);
    forall l | 0 <= l < |v'|
      ensures ValidFiles(v'[l])
      ensures l > 0 ==> Disjoint(v'[l])
    {
      assert LevelResult(v, c, outputs, l, v'[l]);
      assert ValidFiles(v'[l]);
      if l > 0 {
        forall f, g | f in v'[l] && g in v'[l] && f != g
          ensures RangesApart(f, g)
        {
          if f in outputs && g in outputs {
            RangesOfDisjoint(outputs, f, g);
          } else if f in v[l] && g in v[l] {
            RangesOfDisjoint(v[l], f, g);
          } else if f in outputs {
            OutputApart(v, c, outputs, f, g);
          } else {
            OutputApart(v, c, outputs, g, f);
          }
        }
        DisjointByRanges(v'[l]);
      }
    }
  }

  lemma {:induction false} OutputApart(v: Version, c: Inputs, outputs: Level, f: File, g: File)
    requires Taken(v, c) && RoomFor(v, c, Concat(outputs))
    requires f in outputs && ValidFile(f) && g in v[c.level + 1] && g !in c.lower
    ensures RangesApart(f, g)
  {
    assert Holds(outputs, f.smallest) && Holds(outputs, f.largest);
    ConcatMembers(outputs, f.smallest);
    ConcatMembers(outputs, f.largest);
  }

  lemma {:induction false} OutputEntriesAreInput(b: Version, c: Inputs, input: seq<Entry>, snap: nat, outputs: Level,
                                                 f: File, e: Entry)
    requires Concat(outputs) == Kept(b, c.level, input, |input|, snap)
    requires f in outputs && e in f.entries
    ensures e in input
  {
    assert Holds(outputs, e);
    ConcatMembers(outputs, e);
    KeptMembers(b, c.level, input, |input|, snap, e);
  }

  lemma {:induction false} LayeringAfter(b: Version, v: Version, c: Inputs, input: seq<Entry>, snap: nat,
                                         outputs: Level, v': Version)
    requires WellFormed(v) && Taken(v, c) && OlderClosed(v[c.level], c.upper) && MergedInput(c, input)
    requires Concat(outputs) == Kept(b, c.level, input, |input|, snap)
    requires Result(v, c, outputs, v')
    ensures Layered(v')
  {
    assert LevelResult(v, c, outputs, 0, v'[0]);
    assert NewestByNumber(v'[0]);
    forall x, y | 0 <= x < y < |v'|
      ensures LevelNewer(v'[x], v'[y])
    {
      forall f, g | f in v'[x] && g in v'[y]
        ensures Newer(f, g)
      {
        assert LevelResult(v, c, outputs, x, v'[x]) && LevelResult(v, c, outputs, y, v'[y]);
        NewerAfter(b, v, c, input, snap, outputs, x, f, y, g);
      }
    }
  }

  lemma {:induction false} NewerAfter(b: Version, v: Version, c: Inputs, input: seq<Entry>, snap: nat, outputs: Level,
                                      x: nat, f: File, y: nat, g: File)
    requires WellFormed(v) && Taken(v, c) && OlderClosed(v[c.level], c.upper) && MergedInput(c, input)
    requires Concat(outputs) == Kept(b, c.level, input, |input|, snap)
    requires x < y < |v|
    requires (f in v[x] && !IsInput(c, x, f)) || (x == c.level + 1 && f in outputs)
    requires (g in v[y] && !IsInput(c, y, g)) || (y == c.level + 1 && g in outputs)
    ensures Newer(f, g)
  {
    if f in v[x] && g in v[y] {
      assert LevelNewer(v[x], v[y]);
    } else if f in v[x] {
      forall d, e | d in f.entries && e in g.entries && d.key == e.key
        ensures d.seqno > e.seqno
      {
        OutputEntriesAreInput(b, c, input, snap, outputs, g, e);
        RestOverInput(v, c, input, x, f, d, e);
      }
    } else {
      forall d, e | d in f.entries && e in g.entries && d.key == e.key
        ensures d.seqno > e.seqno
      {
        OutputEntriesAreInput(b, c, input, snap, outputs, f, d);
        InputOverDeeper(v, c, input, d, y, g, e);
      }
    }
  }

  lemma {:induction false} RestOverInput(v: Version, c: Inputs, input: seq<Entry>, a: nat, f: File, d: Entry, e: Entry)
    requires WellFormed(v) && Taken(v, c) && OlderClosed(v[c.level], c.upper) && MergedInput(c, input)
    requires a <= c.level && f in v[a] && !IsInput(c, a, f)
    requires d in f.entries && e in input && d.key == e.key
    ensures d.seqno > e.seqno
  {
    var l, h := InputFile(v, c, input, e);
    assert InLevel(v, a, f);
    LeftAboveIsNewer(v, c, l, h, a, f);
  }

  lemma {:induction false} InputOverDeeper(v: Version, c: Inputs, input: seq<Entry>, d: Entry, b: nat, g: File,
                                           e: Entry)
    requires Layered(v) && Taken(v, c) && MergedInput(c, input)
    requires c.level + 1 < b < |v| && g in v[b]
    requires d in input && e in g.entries && d.key == e.key
    ensures d.seqno > e.seqno
  {
    var l, h := InputFile(v, c, input, d);
    assert LevelNewer(v[l], v[b]);
    assert Newer(h, g);
  }

  lemma {:induction false} NumbersAfter(v: Version, c: Inputs, outputs: Level, limit: nat, v': Version)
    requires UniqueNumbers(v) && NewNumbers(v, outputs)
    requires NumbersBelow(v, limit) && forall i :: 0 <= i < |outputs| ==> outputs[i].number < limit
    requires Taken(v, c) && Result(v, c, outputs, v')
    ensures UniqueNumbers(v') && NumbersBelow(v', limit)
  {
    forall l: nat, f | InLevel(v', l, f)
      ensures InLevel(v, l, f) || (l == c.level + 1 && f in outputs)
      ensures f.number < limit
    {
      assert LevelResult(v, c, outputs, l, v'[l]);
      assert f in v[l] ==> InLevel(v, l, f);
    }
  }

  /**
   Every invariant of an installed version survives a compaction that leaves nothing older
   beside its inputs and has room for its outputs.
   */
  lemma {:induction false} CompactionKeepsWellFormed(b: Version, v: Version, c: Inputs, input: seq<Entry>, snap: nat,
                                                     outputs: Level, limit: nat)
    requires LegalInputs(b, c) && OlderClosed(b[c.level], c.upper) && MergedInput(c, input)
    requires WellFormed(v) && Grown(b, v) && Taken(v, c) && RoomFor(v, c, Concat(outputs))
    requires NewNumbers(v, outputs) && WellCut(outputs)
    requires NumbersBelow(v, limit) && forall i :: 0 <= i < |outputs| ==> outputs[i].number < limit
    requires Concat(outputs) == Kept(b, c.level, input, |input|, snap)
    ensures ValidEdit(CompactionEdit(c, outputs))
    ensures WellFormed(ApplyOne(v, CompactionEdit(c, outputs)))
    ensures NumbersBelow(ApplyOne(v, CompactionEdit(c, outputs)), limit)
  {
    hide Grown, RoomFor, OlderClosed, NewNumbers, LegalInputs;
    InputsTaken(b, c);
    StillClosed(b, v, c);
    InstallResult(v, c, outputs);
    var v' := ApplyOne(v, CompactionEdit(c, outputs));
    ShapeAfter(b, v, c, input, snap, outputs, v');
    LayeringAfter(b, v, c, input, snap, outputs, v');
    NumbersAfter(v, c, outputs, limit, v');
  }
  lemma {:induction false} InputsTaken(v: Version, c: Inputs)
    requires LegalInputs(v, c)
    ensures Taken(v, c)
  {
  }
}

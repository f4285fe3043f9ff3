/**
 A version of the database: seven levels of table files, and the search that
 `Version::Get` runs over them.
 */
module Versions {
  import opened InternalKeys

  const NumLevels := 7

  /** File metadata with the entries the table stores; smallest and largest are its end keys. */
  datatype File = File(number: nat, size: nat, smallest: Entry, largest: Entry, entries: seq<Entry>)

  ghost predicate ValidFile(f: File)
  {
    && |f.entries| > 0
    && Sorted(f.entries)
    && f.smallest == f.entries[0]
    && f.largest == f.entries[|f.entries| - 1]
  }

  type Level = seq<File>
  type Version = seq<Level>

  ghost predicate Holds(level: Level, e: Entry)
  {
    exists f :: f in level && e in f.entries
  }

  ghost function Entries(f: File): iset<Entry>
  {
    iset e | e in f.entries
  }

  ghost function LevelContents(level: Level): iset<Entry>
  {
    iset e | Holds(level, e)
  }

  ghost predicate InVersion(v: Version, e: Entry)
  {
    exists l :: 0 <= l < |v| && Holds(v[l], e)
  }

  ghost function Contents(v: Version): iset<Entry>
  {
    iset e | InVersion(v, e)
  }

  /** Whatever user key the two files share, `f` has only newer versions of it. */
  ghost predicate Newer(f: File, g: File)
  {
    forall d, e :: d in f.entries && e in g.entries && d.key == e.key ==> d.seqno > e.seqno
  }

  /** The files are in key order and their key ranges do not meet. */
  ghost predicate Disjoint(level: Level)
  {
    forall i, j :: 0 <= i < j < |level| ==> Before(level[i].largest, level[j].smallest)
  }

  ghost predicate ValidFiles(level: Level)
  {
    forall f :: f in level ==> ValidFile(f)
  }

  /** A larger number means newer data; no number is used twice. */
  ghost predicate NewestByNumber(level: Level)
  {
    && (forall f, g :: f in level && g in level && f.number == g.number ==> f == g)
    && (forall f, g :: f in level && g in level && f.number > g.number ==> Newer(f, g))
  }

  /** Every level is made of valid files; levels above zero are sorted and disjoint. */
  ghost predicate Shaped(v: Version)
  {
    && |v| == NumLevels
    && (forall l :: 0 <= l < |v| ==> ValidFiles(v[l]))
    && (forall l :: 1 <= l < |v| ==> Disjoint(v[l]))
  }

  ghost predicate LevelNewer(upper: Level, lower: Level)
  {
    forall f, g :: f in upper && g in lower ==> Newer(f, g)
  }

  /** Entries never hop across levels: a shallower level holds the newer versions. */
  ghost predicate Layered(v: Version)
  {
    && |v| == NumLevels
    && NewestByNumber(v[0])
    && (forall a, b :: 0 <= a < b < |v| ==> LevelNewer(v[a], v[b]))
  }

  /** `FindFile`: the first file of a sorted level whose largest key is at or after `target`. */
  method FindFile(files: Level, target: Entry) returns (right: nat)
    requires ValidFiles(files) && Disjoint(files)
    ensures right <= |files|
    ensures forall i :: 0 <= i < right ==> Before(files[i].largest, target)
    ensures forall i :: right <= i < |files| ==> !Before(files[i].largest, target)
  {
    var left := 0;
    right := |files|;
    while left < right
      invariant 0 <= left <= right <= |files|
      invariant forall i :: 0 <= i < left ==> Before(files[i].largest, target)
      invariant forall i :: right <= i < |files| ==> !Before(files[i].largest, target)
    {
      var mid := (left + right) / 2;
      if Before(files[mid].largest, target) {
        forall i | 0 <= i <= mid
          ensures Before(files[i].largest, target)
        {
          LargestInOrder(files, i, mid);
        }
        left := mid + 1;
      } else {
        forall i | mid <= i < |files|
          ensures !Before(files[i].largest, target)
        {
          LargestInOrder(files, mid, i);
        }
        right := mid;
      }
    }
  }

  lemma {:induction false} LargestInOrder(files: Level, i: nat, j: nat)
    requires ValidFiles(files) && Disjoint(files) && i <= j < |files|
    ensures i < j ==> Before(files[i].largest, files[j].largest)
  {
    if i < j {
      assert files[j] in files;
      var es := files[j].entries;
      assert |es| > 1 ==> Before(es[0], es[|es| - 1]);
    }
  }

  /** Where a seek lands in a sorted run: the first entry at or after `target`. */
  function SeekIndex(es: seq<Entry>, target: Entry): (i: nat)
    ensures i <= |es|
    ensures forall j :: 0 <= j < i ==> Before(es[j], target)
    ensures i < |es| ==> !Before(es[i], target)
  {
    if es == [] then 0
    else if !Before(es[0], target) then 0
    else 1 + SeekIndex(es[1..], target)
  }

  ghost function SetOf(es: seq<Entry>): iset<Entry>
  {
    iset e | e in es
  }

  /** A seek followed by the user-key test, in a memtable or in a table. */
  function SeekGet(es: seq<Entry>, k: UserKey, s: nat): Option<Entry>
  {
    var i := SeekIndex(es, SeekKey(k, s));
    if i < |es| && es[i].key == k then Some(es[i]) else None
  }

  /** `MemTable::Get` and `Table::InternalGet` find the newest version the snapshot may see. */
  lemma {:induction false} SeekGetFindsNewest(es: seq<Entry>, k: UserKey, s: nat)
    requires Sorted(es)
    ensures IsLookup(SetOf(es), k, s, SeekGet(es, k, s))
  {
    var i := SeekIndex(es, SeekKey(k, s));
    forall e | e in es && Matches(e, k, s)
      ensures i < |es| && es[i].key == k && Matches(es[i], k, s) && e.seqno <= es[i].seqno
    {
      var j :| 0 <= j < |es| && es[j] == e;
      assert !Before(e, SeekKey(k, s));
      assert i <= j;
      assert i < j ==> Before(es[i], es[j]);
    }
  }

  /** `TableCache::Get` with the saver's user-key test. */
  function TableGet(f: File, k: UserKey, s: nat): Option<Entry>
  {
    SeekGet(f.entries, k, s)
  }

  lemma {:induction false} TableGetFindsNewest(f: File, k: UserKey, s: nat)
    requires ValidFile(f)
    ensures IsLookup(Entries(f), k, s, TableGet(f, k, s))
  {
    SeekGetFindsNewest(f.entries, k, s);
    assert Entries(f) == SetOf(f.entries);
  }

  predicate CoversKey(f: File, k: UserKey)
  {
    f.smallest.key <= k <= f.largest.key
  }

  lemma {:induction false} EntryInRange(f: File, e: Entry)
    requires ValidFile(f) && e in f.entries
    ensures !Before(e, f.smallest) && !Before(f.largest, e)
    ensures CoversKey(f, e.key)
  {
    var j :| 0 <= j < |f.entries| && f.entries[j] == e;
    assert 0 < j ==> Before(f.entries[0], f.entries[j]);
    assert j < |f.entries| - 1 ==> Before(f.entries[j], f.entries[|f.entries| - 1]);
  }

  /** One insertion of the `NewestFirst` sort. */
  function InsertNewestFirst(f: File, files: Level): (r: Level)
    ensures forall g :: g in r <==> g == f || g in files
  {
    if files == [] then [f]
    else if files[0].number < f.number then [f] + files
    else
      var r := [files[0]] + InsertNewestFirst(f, files[1..]);
      assert forall g :: g in files <==> g == files[0] || g in files[1..];
      r
  }

  ghost predicate SortedNewestFirst(files: Level)
  {
    forall i, j :: 0 <= i < j < |files| ==> files[i].number >= files[j].number
  }

  lemma {:induction false} InsertKeepsSorted(f: File, files: Level)
    requires SortedNewestFirst(files)
    ensures SortedNewestFirst(InsertNewestFirst(f, files))
  {
    if files != [] && files[0].number >= f.number {
      InsertKeepsSorted(f, files[1..]);
      var r := InsertNewestFirst(f, files[1..]);
      forall j | 0 <= j < |r|
        ensures r[j].number <= files[0].number
      {
        assert r[j] in r;
        assert r[j] == f || r[j] in files[1..];
      }
    }
  }

  /** The level-zero part of `Version::Get`: overlapping files, newest first. */
  method SearchLevelZero(files: Level, k: UserKey, s: nat) returns (r: Option<Entry>)
    requires ValidFiles(files) && NewestByNumber(files)
    ensures IsLookup(LevelContents(files), k, s, r)
  {
    var tmp: Level := [];
    for i := 0 to |files|
      invariant forall f :: f in tmp <==> f in files[..i] && CoversKey(f, k)
      invariant SortedNewestFirst(tmp)
    {
      assert files[..i + 1] == files[..i] + [files[i]];
      assert files[i] in files;
      if CoversKey(files[i], k) {
        InsertKeepsSorted(files[i], tmp);
        tmp := InsertNewestFirst(files[i], tmp);
      }
    }
    assert files[..|files|] == files;
    for i := 0 to |tmp|
      invariant forall j, e :: 0 <= j < i && e in tmp[j].entries ==> !Matches(e, k, s)
    {
      TableGetFindsNewest(tmp[i], k, s);
      r := TableGet(tmp[i], k, s);
      if r.Some? {
        forall e | Holds(files, e) && Matches(e, k, s)
          ensures e.seqno <= r.value.seqno
        {
          HitIsNewest(files, tmp, i, k, s, r.value, e);
        }
        return;
      }
    }
    r := None;
    forall e | Holds(files, e)
      ensures !Matches(e, k, s)
    {
      var f :| f in files && e in f.entries;
      EntryInRange(f, e);
    }
  }

  lemma {:induction false} HitIsNewest(files: Level, tmp: Level, i: nat, k: UserKey, s: nat, hit: Entry, e: Entry)
    requires ValidFiles(files) && NewestByNumber(files) && SortedNewestFirst(tmp) && i < |tmp|
    requires forall f :: f in tmp <==> f in files && CoversKey(f, k)
    requires forall j, d :: 0 <= j < i && d in tmp[j].entries ==> !Matches(d, k, s)
    requires IsNewest(Entries(tmp[i]), k, s, hit)
    requires Holds(files, e) && Matches(e, k, s)
    ensures e.seqno <= hit.seqno
  {
    var f :| f in files && e in f.entries;
    EntryInRange(f, e);
    var j :| 0 <= j < |tmp| && tmp[j] == f;
    assert tmp[i] in tmp;
    if f != tmp[i] {
      assert f.number < tmp[i].number;
      assert Newer(tmp[i], f);
    }
  }

  /** A level above zero: one binary search, then at most one file. */
  method SearchSortedLevel(files: Level, k: UserKey, s: nat) returns (r: Option<Entry>)
    requires ValidFiles(files) && Disjoint(files)
    ensures IsLookup(LevelContents(files), k, s, r)
  {
    var index := FindFile(files, SeekKey(k, s));
    r := None;
    if index < |files| && files[index].smallest.key <= k {
      TableGetFindsNewest(files[index], k, s);
      r := TableGet(files[index], k, s);
    }
    forall e | Holds(files, e) && Matches(e, k, s)
      ensures r.Some? && e.seqno <= r.value.seqno
    {
      SortedLevelHit(files, index, k, s, e);
    }
  }

  lemma {:induction false} SortedLevelHit(files: Level, index: nat, k: UserKey, s: nat, e: Entry)
    requires ValidFiles(files) && Disjoint(files)
    requires index <= |files|
    requires forall i :: 0 <= i < index ==> Before(files[i].largest, SeekKey(k, s))
    requires index < |files| ==> !Before(files[index].largest, SeekKey(k, s))
    requires Holds(files, e) && Matches(e, k, s)
    ensures index < |files| && files[index].smallest.key <= k
    ensures var r := TableGet(files[index], k, s); r.Some? && e.seqno <= r.value.seqno
  {
    var f :| f in files && e in f.entries;
    var j :| 0 <= j < |files| && files[j] == f;
    EntryInRange(f, e);
    assert index <= j;
    var g := files[index];
    TableGetFindsNewest(g, k, s);
    if index < j {
      assert Before(g.largest, f.smallest);
      assert g.largest in g.entries;
      EntryInRange(g, g.largest);
      assert Matches(g.largest, k, s);
    }
  }

  /** `Version::Get`: level by level, stopping at the first hit. */
  method Get(v: Version, k: UserKey, s: nat) returns (r: Option<Entry>)
    requires Shaped(v) && Layered(v)
    ensures IsLookup(Contents(v), k, s, r)
  {
    var level := 0;
    while level < |v|
      invariant level <= |v|
      invariant forall l, e :: 0 <= l < level && Holds(v[l], e) ==> !Matches(e, k, s)
    {
      if level == 0 {
        r := SearchLevelZero(v[0], k, s);
      } else {
        r := SearchSortedLevel(v[level], k, s);
      }
      if r.Some? {
        ShallowHitWins(v, level, k, s, r.value);
        return;
      }
      level := level + 1;
    }
    r := None;
  }

  lemma {:induction false} ShallowHitWins(v: Version, level: nat, k: UserKey, s: nat, hit: Entry)
    requires Layered(v) && level < |v|
    requires forall l, e :: 0 <= l < level && Holds(v[l], e) ==> !Matches(e, k, s)
    requires IsNewest(LevelContents(v[level]), k, s, hit)
    ensures IsNewest(Contents(v), k, s, hit)
  {
    var f :| f in v[level] && hit in f.entries;
    forall e | e in Contents(v) && Matches(e, k, s)
      ensures e.seqno <= hit.seqno
    {
      var l :| 0 <= l < |v| && Holds(v[l], e);
      if l > level {
        var g :| g in v[l] && e in g.entries;
        assert LevelNewer(v[level], v[l]);
        assert Newer(f, g);
      }
    }
  }
}

/**
 Tables: data blocks, an index of separators with block offsets, and a filter block.
 `TableBuilder` keeps each separator between the blocks it separates; the two-level
 iterator is then a cursor over the whole table, and a point lookup that probes one block,
 filter included, misses nothing it is asked for.
 */
module Table {
  import opened InternalKeys
  import opened Comparators
  import Filter

  datatype Item = Item(key: Key, value: Bytes)

  type Run = seq<Item>

  ghost predicate InOrder(run: Run)
  {
    forall i, j :: 0 <= i < j < |run| ==> KeyLess(run[i].key, run[j].key)
  }

  predicate AtMost(a: Key, b: Key)
  {
    a == b || KeyLess(a, b)
  }

  // ------------------------------------------------------------------
  // Blocks laid end to end.

  function Flat(blocks: seq<Run>): Run
  {
    if blocks == [] then [] else Flat(blocks[..|blocks| - 1]) + blocks[|blocks| - 1]
  }

  function Start(blocks: seq<Run>, b: nat): nat
    requires b <= |blocks|
  {
    |Flat(blocks[..b])|
  }

  lemma {:induction false} FlatAt(blocks: seq<Run>, b: nat)
    requires b < |blocks|
    ensures Start(blocks, b) + |blocks[b]| == Start(blocks, b + 1) <= |Flat(blocks)|
    ensures Flat(blocks)[Start(blocks, b)..Start(blocks, b + 1)] == blocks[b]
  {
    var n := |blocks| - 1;
    var init := blocks[..n];
    assert blocks[..b + 1][..b] == blocks[..b];
    if b < n {
      FlatAt(init, b);
      assert init[..b] == blocks[..b] && init[..b + 1] == blocks[..b + 1];
    } else {
      assert blocks[..b + 1] == blocks;
    }
  }

  lemma {:induction false} FlatPosition(blocks: seq<Run>, b: nat, p: nat)
    requires b < |blocks| && p < |blocks[b]|
    ensures Start(blocks, b) + p < |Flat(blocks)| && Flat(blocks)[Start(blocks, b) + p] == blocks[b][p]
  {
    FlatAt(blocks, b);
    assert Flat(blocks)[Start(blocks, b)..Start(blocks, b + 1)][p] == blocks[b][p];
  }

  /** Every place in the table is a place in one of its blocks. */
  lemma {:induction false} BlockOfPosition(blocks: seq<Run>, n: nat, i: nat) returns (b: nat, p: nat)
    requires n <= |blocks| && i < Start(blocks, n)
    ensures b < n && p < |blocks[b]| && i == Start(blocks, b) + p
  {
    assert Start(blocks, 0) == 0 by {
      assert blocks[..0] == [];
    }
    FlatAt(blocks, n - 1);
    if i < Start(blocks, n - 1) {
      b, p := BlockOfPosition(blocks, n - 1, i);
    } else {
      b, p := n - 1, i - Start(blocks, n - 1);
    }
  }

  // ------------------------------------------------------------------
  // The index.

  /** Each separator is at or after its block and before every later one. */
  ghost predicate Separates(blocks: seq<Run>, seps: seq<Key>)
  {
    && |seps| == |blocks|
    && (forall i, p :: 0 <= i < |blocks| && 0 <= p < |blocks[i]| ==> AtMost(blocks[i][p].key, seps[i]))
    && (forall i, j, p :: 0 <= i < j < |blocks| && 0 <= p < |blocks[j]| ==> KeyLess(seps[i], blocks[j][p].key))
  }

  /** A separator is its block's last key, or its user key lies strictly between its block and the next. */
  ghost predicate Tight(blocks: seq<Run>, seps: seq<Key>)
    requires |seps| == |blocks|
  {
    forall i :: 0 <= i < |blocks| ==>
      && blocks[i] != []
      && (|| seps[i] == blocks[i][|blocks[i]| - 1].key
          || forall j, p :: i < j < |blocks| && 0 <= p < |blocks[j]| ==> Less(seps[i].user, blocks[j][p].key.user))
  }

  /** The first place at or after `k`. */
  function SeekItem(run: Run, k: Key): (i: nat)
    ensures i <= |run|
    ensures forall j :: 0 <= j < i ==> KeyLess(run[j].key, k)
    ensures i < |run| ==> !KeyLess(run[i].key, k)
  {
    if run == [] then 0 else if !KeyLess(run[0].key, k) then 0 else 1 + SeekItem(run[1..], k)
  }

  function SeekSeparator(seps: seq<Key>, k: Key): (i: nat)
    ensures i <= |seps|
    ensures forall j :: 0 <= j < i ==> KeyLess(seps[j], k)
    ensures i < |seps| ==> !KeyLess(seps[i], k)
  {
    if seps == [] then 0 else if !KeyLess(seps[0], k) then 0 else 1 + SeekSeparator(seps[1..], k)
  }

  /** Blocks before the one a seek picks hold only keys before the target; later ones only keys after it. */
  lemma {:induction false} IndexPicks(blocks: seq<Run>, seps: seq<Key>, k: Key, j: nat, p: nat)
    requires Separates(blocks, seps) && j < |blocks| && p < |blocks[j]|
    ensures j < SeekSeparator(seps, k) ==> KeyLess(blocks[j][p].key, k)
    ensures SeekSeparator(seps, k) < j ==> KeyLess(k, blocks[j][p].key)
  {
    var i := SeekSeparator(seps, k);
    var x := blocks[j][p].key;
    if j < i {
      assert AtMost(x, seps[j]);
      if x != seps[j] {
        KeyLessTransitive(x, seps[j], k);
      }
    } else if i < j {
      assert KeyLess(seps[i], x);
      KeyLessTotal(k, seps[i]);
      if k != seps[i] {
        KeyLessTransitive(k, seps[i], x);
      }
    }
  }

  // ------------------------------------------------------------------
  // The two-level iterator.

  class TwoLevelIterator {
    const blocks: seq<Run>
    const seps: seq<Key>
    // The index iterator, its end standing for "not valid", and the data iterator.
    var index: nat
    var data: Option<nat>
    ghost var cur: nat

    /** The iterator stands at place `cur` of the table, or nowhere when that is the end. */
    ghost predicate Valid()
      reads this
    {
      && index <= |blocks| && cur <= |Flat(blocks)|
      && (data.Some? ==> index < |blocks| && data.value < |blocks[index]| && cur == Start(blocks, index) + data.value)
      && (data.None? ==> cur == |Flat(blocks)|)
    }

    constructor (blocks: seq<Run>, seps: seq<Key>)
      ensures Valid() && this.blocks == blocks && this.seps == seps && cur == |Flat(blocks)|
    {
      this.blocks, this.seps := blocks, seps;
      index, data, cur := |blocks|, None, |Flat(blocks)|;
    }

    /** Past the end of a block, the next place is the first of the next block that has one. */
    method SkipEmptyDataBlocksForward(ghost place: nat)
      requires index <= |blocks| && (data.Some? <==> index < |blocks|)
      requires data.Some? ==> data.value <= |blocks[index]| && place == Start(blocks, index) + data.value
      requires data.None? ==> place == |Flat(blocks)|
      modifies this
      ensures Valid() && cur == place
    {
      while data.None? || data.value >= |blocks[index]|
        invariant index <= |blocks| && (data.Some? <==> index < |blocks|)
        invariant data.Some? ==> data.value <= |blocks[index]| && place == Start(blocks, index) + data.value
        invariant data.None? ==> place == |Flat(blocks)|
        decreases |blocks| - index, data.Some?
      {
        if index == |blocks| {
          data, cur := None, |Flat(blocks)|;
          return;
        }
        FlatAt(blocks, index);
        index := index + 1;
        data := if index < |blocks| then Some(0) else None;
        assert blocks[..|blocks|] == blocks;
      }
      FlatPosition(blocks, index, data.value);
      cur := place;
    }

    /** Before the start of a block, the place before is the last of the block before that has one. */
    method SkipEmptyDataBlocksBackward(ghost places: nat)
      requires index <= |blocks| && (data.Some? <==> index < |blocks|)
      requires data.Some? ==> data.value <= |blocks[index]|
      requires data.Some? && data.value < |blocks[index]| ==> places == Start(blocks, index) + data.value + 1
      requires data.Some? && data.value == |blocks[index]| ==> places == Start(blocks, index)
      requires data.None? ==> places == 0
      modifies this
      ensures Valid() && cur == if places == 0 then |Flat(blocks)| else places - 1
    {
      while data.None? || data.value >= |blocks[index]|
        invariant index <= |blocks| && (data.Some? <==> index < |blocks|)
        invariant data.Some? ==> data.value <= |blocks[index]|
        invariant data.Some? && data.value < |blocks[index]| ==> places == Start(blocks, index) + data.value + 1
        invariant data.Some? && data.value == |blocks[index]| ==> places == Start(blocks, index)
        invariant data.None? ==> places == 0
        decreases data.Some?, index
      {
        if index == |blocks| {
          data, cur := None, |Flat(blocks)|;
          return;
        }
        if index == 0 {
          assert blocks[..0] == [];
          index, data := |blocks|, None;
        } else {
          index := index - 1;
          FlatAt(blocks, index);
          data := Some(if blocks[index] == [] then 0 else |blocks[index]| - 1);
        }
      }
      FlatPosition(blocks, index, data.value);
      cur := places - 1;
    }

    method SeekToFirst()
      requires Valid()
      modifies this
      ensures Valid() && cur == 0
    {
      index := 0;
      data := if index < |blocks| then Some(0) else None;
      assert blocks[..0] == [];
      SkipEmptyDataBlocksForward(0);
    }

    method SeekToLast()
      requires Valid()
      modifies this
      ensures Valid() && cur == if Flat(blocks) == [] then 0 else |Flat(blocks)| - 1
    {
      index := if |blocks| == 0 then 0 else |blocks| - 1;
      data := None;
      if index < |blocks| {
        FlatAt(blocks, index);
        assert blocks[..|blocks|] == blocks;
        data := Some(if blocks[index] == [] then 0 else |blocks[index]| - 1);
      }
      SkipEmptyDataBlocksBackward(|Flat(blocks)|);
    }

    /** The first place of the whole table at or after `target`. */
    method Seek(target: Key)
      requires Valid() && Separates(blocks, seps)
      modifies this
      ensures Valid() && (cur < |Flat(blocks)| ==> !KeyLess(Flat(blocks)[cur].key, target))
      ensures forall j :: 0 <= j < cur ==> KeyLess(Flat(blocks)[j].key, target)
    {
      index := SeekSeparator(seps, target);
      data := if index < |blocks| then Some(SeekItem(blocks[index], target)) else None;
      ghost var place := if index < |blocks| then Start(blocks, index) + data.value else |Flat(blocks)|;
      SeekFindsPlace(blocks, seps, target, place);
      SkipEmptyDataBlocksForward(place);
    }

    method Next()
      requires Valid() && data.Some?
      modifies this
      ensures Valid() && cur == old(cur) + 1
    {
      data := Some(data.value + 1);
      SkipEmptyDataBlocksForward(cur + 1);
    }

    /** The place before; nowhere before the first. */
    method Prev()
      requires Valid() && data.Some?
      modifies this
      ensures Valid() && cur == if old(cur) == 0 then |Flat(blocks)| else old(cur) - 1
    {
      ghost var places := cur;
      data := Some(if data.value == 0 then |blocks[index]| else data.value - 1);
      SkipEmptyDataBlocksBackward(places);
    }
  }

  lemma {:induction false} SeekFindsPlace(blocks: seq<Run>, seps: seq<Key>, k: Key, place: nat)
    requires Separates(blocks, seps)
    requires var i := SeekSeparator(seps, k);
      place == if i < |blocks| then Start(blocks, i) + SeekItem(blocks[i], k) else |Flat(blocks)|
    ensures place <= |Flat(blocks)| && (place < |Flat(blocks)| ==> !KeyLess(Flat(blocks)[place].key, k))
    ensures forall j :: 0 <= j < place ==> KeyLess(Flat(blocks)[j].key, k)
  {
    hide Flat, KeyLess, Separates;
    OnePerBlock(blocks, seps);
    var i := SeekSeparator(seps, k);
    assert blocks[..|blocks|] == blocks;
    if i < |blocks| {
      FlatAt(blocks, i);
    }
    forall j | 0 <= j < |Flat(blocks)|
      ensures j < place ==> KeyLess(Flat(blocks)[j].key, k)
      ensures j == place ==> !KeyLess(Flat(blocks)[j].key, k)
    {
      var b, p := BlockOfPosition(blocks, |blocks|, j);
      FlatPosition(blocks, b, p);
      IndexPicks(blocks, seps, k, b, p);
      KeyLessTotal(k, blocks[b][p].key);
      if b < i {
        StartsInOrder(blocks, b + 1, i);
        FlatAt(blocks, b);
      } else if i < b {
        StartsInOrder(blocks, i + 1, b);
      }
    }
  }

  lemma {:induction false} StartsInOrder(blocks: seq<Run>, a: nat, b: nat)
    requires a <= b <= |blocks|
    ensures Start(blocks, a) <= Start(blocks, b)
  {
    if a < b {
      FlatAt(blocks, b - 1);
      StartsInOrder(blocks, a, b - 1);
    }
  }

  // ------------------------------------------------------------------
  // Building a table.

  /** A finished table: its blocks, where each begins, its index, and its filter block. */
  datatype Contents = Contents(blocks: seq<Run>, offsets: seq<nat>, seps: seq<Key>, filter: Bytes)

  /** The filter for the block's offset was made from the user keys of the block. */
  ghost predicate Filtered(hash: Filter.Hash, blocks: seq<Run>, offsets: seq<nat>, filters: seq<Bytes>)
  {
    |offsets| == |blocks| && forall i, p :: 0 <= i < |blocks| && 0 <= p < |blocks[i]| ==>
      Admits(hash, blocks[i][p], offsets[i] / 2048, filters)
  }

  predicate Admits(hash: Filter.Hash, x: Item, b: nat, filters: seq<Bytes>)
  {
    b < |filters| && Filter.MayMatch(hash, x.key.user, filters[b])
  }

  ghost predicate GoodTable(hash: Filter.Hash, t: Contents, filters: seq<Bytes>)
  {
    && InOrder(Flat(t.blocks)) && Separates(t.blocks, t.seps) && Tight(t.blocks, t.seps)
    && Filtered(hash, t.blocks, t.offsets, filters) && t.filter == Filter.FilterBlockOf(filters)
  }

  /**
   `Table::InternalGet`: one block at most is looked into. Whatever it returns is the first
   entry of the whole table at or after `k`; if it returns nothing, that entry, if there is
   one, is for another user key.
   */
  method InternalGet(hash: Filter.Hash, t: Contents, k: Key, ghost filters: seq<Bytes>) returns (r: Option<Item>)
    requires GoodTable(hash, t, filters) && |Filter.Joined(filters)| < 0x1_0000_0000
    ensures var all := Flat(t.blocks); var first := SeekItem(all, k);
      if r.Some? then first < |all| && r.value == all[first]
      else first < |all| ==> all[first].key.user != k.user
    ensures var i := SeekSeparator(t.seps, k);
      r.Some? <==>
        i < |t.seps| && !Filter.Denied(hash, t.filter, t.offsets[i], k.user) && SeekItem(t.blocks[i], k) < |t.blocks[i]|
  {
    hide Filter.MayMatch, Filter.FilterBlockOf, Filter.Joined, Filter.FilterBlockLaidOut, Filter.Denied;
    Filter.FilterBlockIs(filters);
    r := None;
    ghost var all := Flat(t.blocks);
    var i := SeekSeparator(t.seps, k);
    if i < |t.seps| {
      var may := Filter.BlockMayMatch(hash, t.filter, t.offsets[i], k.user, filters);
      ghost var p := SeekItem(t.blocks[i], k);
      OneBlockIsEnough(t.blocks, t.seps, k);
      if !may {
        assert p < |t.blocks[i]| ==> Admits(hash, t.blocks[i][p], t.offsets[i] / 2048, filters);
        assert p < |t.blocks[i]| ==> t.blocks[i][p].key.user != k.user;
      } else {
        var place := SeekItem(t.blocks[i], k);
        if place < |t.blocks[i]| {
          r := Some(t.blocks[i][place]);
        }
      }
    } else {
      NoneAtOrAfter(t.blocks, t.seps, k);
    }
  }

  lemma {:induction false} SeekIsUnique(run: Run, k: Key, n: nat)
    requires n <= |run| && (n < |run| ==> !KeyLess(run[n].key, k)) && forall j :: 0 <= j < n ==> KeyLess(run[j].key, k)
    ensures n == SeekItem(run, k)
  {
    hide KeyLess;
    var m := SeekItem(run, k);
    if m < n {
      assert false;
    } else if n < m {
      assert false;
    }
  }

  lemma {:induction false} NoneAtOrAfter(blocks: seq<Run>, seps: seq<Key>, k: Key)
    requires Separates(blocks, seps) && SeekSeparator(seps, k) == |seps|
    ensures SeekItem(Flat(blocks), k) == |Flat(blocks)|
  {
    SeekFindsPlace(blocks, seps, k, |Flat(blocks)|);
    SeekIsUnique(Flat(blocks), k, |Flat(blocks)|);
  }

  /** If the picked block has nothing at or after `k`, the next entry is for another user key. */
  lemma {:induction false} OneBlockIsEnough(blocks: seq<Run>, seps: seq<Key>, k: Key)
    requires Separates(blocks, seps) && Tight(blocks, seps) && SeekSeparator(seps, k) < |seps|
    ensures var all := Flat(blocks); var i := SeekSeparator(seps, k); var p := SeekItem(blocks[i], k);
      var first := SeekItem(all, k);
      if p < |blocks[i]| then first < |all| && all[first] == blocks[i][p]
      else first < |all| ==> all[first].key.user != k.user
  {
    hide Separates, Tight, Start, Flat, KeyLess;
    OnePerBlock(blocks, seps);
    var i := SeekSeparator(seps, k);
    var p, all := SeekItem(blocks[i], k), Flat(blocks);
    var place := Start(blocks, i) + p;
    SeekFindsPlace(blocks, seps, k, place);
    SeekIsUnique(all, k, place);
    if p < |blocks[i]| {
      FlatPosition(blocks, i, p);
    } else if place < |all| {
      var b, q := NextPlace(blocks, i);
      PastTheSeparator(blocks, seps, k, i, b, q);
    }
  }

  lemma {:induction false} OnePerBlock(blocks: seq<Run>, seps: seq<Key>)
    requires Separates(blocks, seps)
    ensures |seps| == |blocks|
  {
  }

  /** The place after a block is in a later block. */
  lemma {:induction false} NextPlace(blocks: seq<Run>, i: nat) returns (b: nat, q: nat)
    requires i < |blocks| && Start(blocks, i) + |blocks[i]| < |Flat(blocks)|
    ensures i < b < |blocks| && q < |blocks[b]|
    ensures Flat(blocks)[Start(blocks, i) + |blocks[i]|] == blocks[b][q]
  {
    FlatAt(blocks, i);
    assert blocks[..|blocks|] == blocks;
    b, q := BlockOfPosition(blocks, |blocks|, Start(blocks, i + 1));
    FlatPosition(blocks, b, q);
    FlatAt(blocks, b);
    if b <= i {
      StartsInOrder(blocks, b + 1, i + 1);
    }
  }

  lemma {:induction false} PastTheSeparator(blocks: seq<Run>, seps: seq<Key>, k: Key, i: nat, b: nat, q: nat)
    requires Separates(blocks, seps) && Tight(blocks, seps) && i < b < |blocks| && q < |blocks[b]|
    requires !KeyLess(seps[i], k) && SeekItem(blocks[i], k) == |blocks[i]|
    ensures blocks[b][q].key.user != k.user
  {
    var last, x := blocks[i][|blocks[i]| - 1].key, blocks[b][q].key;
    assert KeyLess(last, k);
    KeyLessTotal(k, seps[i]);
    assert seps[i] != last;
    assert Less(seps[i].user, x.user);
    if k.user != seps[i].user {
      LessTransitive(k.user, seps[i].user, x.user);
    }
    LessIrreflexive(k.user);
  }

  // ------------------------------------------------------------------
  // The builder.

  /** Separators for the first blocks only: the last block is still open. */
  ghost predicate Partial(blocks: seq<Run>, seps: seq<Key>)
  {
    && |seps| <= |blocks| && (forall i :: 0 <= i < |blocks| ==> blocks[i] != [])
    && (forall i :: 0 <= i < |seps| ==> SeparatorAt(blocks, seps[i], i))
  }

  /** `sep` is at or after block `i`, before every later one, and tight. */
  ghost predicate SeparatorAt(blocks: seq<Run>, sep: Key, i: nat)
    requires i < |blocks| && blocks[i] != []
  {
    && (forall p :: 0 <= p < |blocks[i]| ==> AtMost(blocks[i][p].key, sep))
    && (forall j, p :: i < j < |blocks| && 0 <= p < |blocks[j]| ==> KeyLess(sep, blocks[j][p].key))
    && (sep == blocks[i][|blocks[i]| - 1].key ||
        forall j, p :: i < j < |blocks| && 0 <= p < |blocks[j]| ==> Less(sep.user, blocks[j][p].key.user))
  }

  lemma {:induction false} PartialIsWhole(blocks: seq<Run>, seps: seq<Key>)
    requires Partial(blocks, seps) && |seps| == |blocks|
    ensures Separates(blocks, seps) && Tight(blocks, seps)
  {
    forall i | 0 <= i < |blocks|
      ensures SeparatorAt(blocks, seps[i], i)
    {
    }
  }

  /** A key after an entry that a separator precedes is after the separator, tightly. */
  lemma {:induction false} StillSeparated(sep: Key, x: Key, y: Key)
    requires KeyLess(sep, x) && KeyLess(x, y)
    ensures KeyLess(sep, y) && (Less(sep.user, x.user) ==> Less(sep.user, y.user))
  {
    KeyLessTransitive(sep, x, y);
    if Less(sep.user, x.user) && Less(x.user, y.user) {
      LessTransitive(sep.user, x.user, y.user);
    }
  }

  /** One more entry in the open block. */
  lemma {:induction false} GrowLast(blocks: seq<Run>, seps: seq<Key>, x: Item)
    requires Partial(blocks, seps) && blocks != [] && |seps| < |blocks|
    requires var last := blocks[|blocks| - 1]; KeyLess(last[|last| - 1].key, x.key)
    ensures Partial(blocks[|blocks| - 1 := blocks[|blocks| - 1] + [x]], seps)
  {
    var n := |blocks| - 1;
    var blocks' := blocks[n := blocks[n] + [x]];
    forall i | 0 <= i < |seps|
      ensures SeparatorAt(blocks', seps[i], i)
    {
      assert SeparatorAt(blocks, seps[i], i);
      StillSeparated(seps[i], blocks[n][|blocks[n]| - 1].key, x.key);
    }
  }

  /** A new block, with the separator for the one before it. */
  lemma {:induction false} AddBlock(blocks: seq<Run>, seps: seq<Key>, sep: Key, x: Item)
    requires Partial(blocks, seps) && blocks != [] && |seps| == |blocks| - 1 && InOrder(blocks[|blocks| - 1])
    requires var last := blocks[|blocks| - 1]; var start := last[|last| - 1].key;
      && KeyLess(start, x.key) && KeyLess(sep, x.key)
      && (sep == start || (KeyLess(start, sep) && Less(sep.user, x.key.user)))
    ensures Partial(blocks + [[x]], seps + [sep])
  {
    var n := |blocks| - 1;
    var last := blocks[n];
    var start := last[|last| - 1].key;
    var blocks', seps' := blocks + [[x]], seps + [sep];
    forall i | 0 <= i < |seps'|
      ensures SeparatorAt(blocks', seps'[i], i)
    {
      if i < n {
        assert SeparatorAt(blocks, seps[i], i);
        StillSeparated(seps[i], start, x.key);
      } else {
        forall p | 0 <= p < |last|
          ensures AtMost(last[p].key, sep)
        {
          if p < |last| - 1 && sep != start {
            KeyLessTransitive(last[p].key, start, sep);
          }
        }
      }
    }
  }

  /** The last block closed at the end of the table. */
  lemma {:induction false} CloseLast(blocks: seq<Run>, seps: seq<Key>, sep: Key)
    requires Partial(blocks, seps) && blocks != [] && |seps| == |blocks| - 1 && InOrder(blocks[|blocks| - 1])
    requires var last := blocks[|blocks| - 1]; AtMost(last[|last| - 1].key, sep)
    ensures Partial(blocks, seps + [sep])
  {
    var n := |blocks| - 1;
    var last, seps' := blocks[n], seps + [sep];
    forall i | 0 <= i < |seps'|
      ensures SeparatorAt(blocks, seps'[i], i)
    {
      if i < n {
        assert SeparatorAt(blocks, seps[i], i);
      } else {
        forall p | 0 <= p < |last|
          ensures AtMost(last[p].key, sep)
        {
          if p < |last| - 1 && sep != last[|last| - 1].key {
            KeyLessTransitive(last[p].key, last[|last| - 1].key, sep);
          }
        }
      }
    }
  }

  lemma {:induction false} FlatSnoc(blocks: seq<Run>, run: Run)
    ensures Flat(blocks + [run]) == Flat(blocks) + run
  {
    assert (blocks + [run])[..|blocks|] == blocks;
  }

  lemma {:induction false} LastInOrder(blocks: seq<Run>)
    requires blocks != [] && InOrder(Flat(blocks))
    ensures InOrder(blocks[|blocks| - 1])
  {
    FlatAt(blocks, |blocks| - 1);
    SliceInOrder(Flat(blocks), Start(blocks, |blocks| - 1), Start(blocks, |blocks|));
  }

  lemma {:induction false} SliceInOrder(run: Run, a: nat, b: nat)
    requires InOrder(run) && a <= b <= |run|
    ensures InOrder(run[a..b])
  {
    hide KeyLess;
  }

  lemma {:induction false} SnocInOrder(run: Run, x: Item)
    requires InOrder(run) && (run != [] ==> KeyLess(run[|run| - 1].key, x.key))
    ensures InOrder(run + [x])
  {
    forall i | 0 <= i < |run|
      ensures KeyLess(run[i].key, x.key)
    {
      if i < |run| - 1 {
        KeyLessTransitive(run[i].key, run[|run| - 1].key, x.key);
      }
    }
  }

  /** Every user key of a block is in the bucket of the block's offset. */
  ghost predicate Bucketed(blocks: seq<Run>, offsets: seq<nat>, buckets: seq<seq<Bytes>>)
  {
    |offsets| == |blocks| && forall i, p :: 0 <= i < |blocks| && 0 <= p < |blocks[i]| ==>
      InBucket(blocks[i][p], offsets[i] / 2048, buckets)
  }

  predicate InBucket(x: Item, b: nat, buckets: seq<seq<Bytes>>)
  {
    b < |buckets| && x.key.user in buckets[b]
  }

  /** Buckets that only grow keep what they hold. */
  lemma {:induction false} BucketsGrow(blocks: seq<Run>, offsets: seq<nat>, buckets: seq<seq<Bytes>>,
                                       buckets': seq<seq<Bytes>>)
    requires Bucketed(blocks, offsets, buckets) && |buckets| <= |buckets'|
    requires forall i :: 0 <= i < |buckets| ==> buckets[i] <= buckets'[i]
    ensures Bucketed(blocks, offsets, buckets')
  {
    forall i, p | 0 <= i < |blocks| && 0 <= p < |blocks[i]|
      ensures InBucket(blocks[i][p], offsets[i] / 2048, buckets')
    {
      assert InBucket(blocks[i][p], offsets[i] / 2048, buckets);
      assert buckets[offsets[i] / 2048] <= buckets'[offsets[i] / 2048];
    }
  }

  function Seps(index: seq<(Key, nat)>): seq<Key>
  {
    seq(|index|, i requires 0 <= i < |index| => index[i].0)
  }

  /** Between blocks stand the separators of the keys on either side. */
  ghost predicate Short(blocks: seq<Run>, seps: seq<Key>)
  {
    forall i :: 0 <= i < |seps| && i + 1 < |blocks| && blocks[i] != [] && blocks[i + 1] != [] ==>
      IsSeparator(blocks[i][|blocks[i]| - 1].key, blocks[i + 1][0].key, seps[i])
  }

  /** So they do, and the last block ends with the successor of its last key. */
  ghost predicate Ended(blocks: seq<Run>, seps: seq<Key>)
  {
    && |seps| == |blocks| && Short(blocks, seps)
    && (blocks != [] ==>
          var last := blocks[|blocks| - 1];
          last != [] && IsSuccessor(last[|last| - 1].key, seps[|seps| - 1]))
  }

  lemma {:induction false} ShortGrows(blocks: seq<Run>, seps: seq<Key>, x: Item)
    requires Short(blocks, seps) && blocks != [] && |seps| < |blocks| && blocks[|blocks| - 1] != []
    ensures Short(blocks[|blocks| - 1 := blocks[|blocks| - 1] + [x]], seps)
  {
  }

  lemma {:induction false} ShortWithBlock(blocks: seq<Run>, seps: seq<Key>, sep: Key, x: Item)
    requires Short(blocks, seps) && blocks != [] && |seps| == |blocks| - 1 && blocks[|blocks| - 1] != []
    requires var last := blocks[|blocks| - 1]; IsSeparator(last[|last| - 1].key, x.key, sep)
    ensures Short(blocks + [[x]], seps + [sep])
  {
    hide IsSeparator;
    var n := |blocks| - 1;
    var blocks': seq<Run> := blocks + [[x]];
    var seps' := seps + [sep];
    forall i | 0 <= i < |seps'| && i + 1 < |blocks'| && blocks'[i] != [] && blocks'[i + 1] != []
      ensures IsSeparator(blocks'[i][|blocks'[i]| - 1].key, blocks'[i + 1][0].key, seps'[i])
    {
      if i < n {
        assert blocks[i] == blocks'[i] && blocks[i + 1] == blocks'[i + 1];
      }
    }
  }

  /** All blocks but the last one are indexed, and everything is in order up to the last key. */
  ghost predicate Indexed(all: seq<Run>, offsets: seq<nat>, index: seq<(Key, nat)>, count: nat, lastKey: Key)
  {
    && |offsets| == |all| && |index| == (if |all| == 0 then 0 else |all| - 1)
    && (forall i :: 0 <= i < |index| ==> index[i].1 == offsets[i])
    && Partial(all, Seps(index)) && InOrder(Flat(all)) && count == |Flat(all)|
    && (count > 0 ==> lastKey == Flat(all)[count - 1].key)
  }

  /** The last entry of the table is the last entry of its last block. */
  lemma {:induction false} LastItem(all: seq<Run>, offsets: seq<nat>, index: seq<(Key, nat)>, count: nat, lastKey: Key)
    requires Indexed(all, offsets, index, count, lastKey) && all != []
    ensures count > 0 && InOrder(all[|all| - 1]) && all[|all| - 1] != []
    ensures var last := all[|all| - 1]; last[|last| - 1].key == lastKey
  {
    LastInOrder(all);
  }

  lemma {:induction false} AddToOpen(all: seq<Run>, offsets: seq<nat>, index: seq<(Key, nat)>, count: nat,
                                     lastKey: Key, x: Item)
    requires Indexed(all, offsets, index, count, lastKey) && all != [] && KeyLess(lastKey, x.key)
    ensures var all' := all[|all| - 1 := all[|all| - 1] + [x]];
      Indexed(all', offsets, index, count + 1, x.key) && Flat(all') == Flat(all) + [x]
  {
    hide KeyLess, Partial;
    LastItem(all, offsets, index, count, lastKey);
    var n := |all| - 1;
    var all' := all[n := all[n] + [x]];
    GrowLast(all, Seps(index), x);
    assert all'[..n] == all[..n];
    assert Flat(all') == Flat(all) + [x];
    SnocInOrder(Flat(all), x);
  }

  lemma {:induction false} AddFirst(x: Item, offset: nat, lastKey: Key)
    requires Indexed([], [], [], 0, lastKey)
    ensures Indexed([[x]], [offset], [], 1, x.key) && Flat([[x]]) == [x]
  {
    assert [[x]][..0] == [];
  }

  lemma {:induction false} AddIndexed(all: seq<Run>, offsets: seq<nat>, index: seq<(Key, nat)>, count: nat,
                                      lastKey: Key, x: Item, sep: Key, offset: nat)
    requires Indexed(all, offsets, index, count, lastKey) && all != [] && KeyLess(lastKey, x.key)
    requires KeyLess(sep, x.key) && (sep == lastKey || (KeyLess(lastKey, sep) && Less(sep.user, x.key.user)))
    ensures Indexed(all + [[x]], offsets + [offset], index + [(sep, offsets[|offsets| - 1])], count + 1, x.key)
    ensures Flat(all + [[x]]) == Flat(all) + [x]
  {
    hide KeyLess, Partial, Less;
    LastItem(all, offsets, index, count, lastKey);
    AddBlock(all, Seps(index), sep, x);
    var index' := index + [(sep, offsets[|offsets| - 1])];
    assert Seps(index') == Seps(index) + [sep];
    FlatSnoc(all, [x]);
    SnocInOrder(Flat(all), x);
  }

  lemma {:induction false} AddShort(all: seq<Run>, offsets: seq<nat>, index: seq<(Key, nat)>, count: nat,
                                    lastKey: Key, x: Item, sep: Key, handle: nat)
    requires Indexed(all, offsets, index, count, lastKey) && Short(all, Seps(index)) && all != []
    requires IsSeparator(lastKey, x.key, sep)
    ensures Short(all + [[x]], Seps(index + [(sep, handle)]))
  {
    hide IsSeparator, Short;
    LastItem(all, offsets, index, count, lastKey);
    ShortWithBlock(all, Seps(index), sep, x);
    assert Seps(index + [(sep, handle)]) == Seps(index) + [sep];
  }

  lemma {:induction false} GrowShort(all: seq<Run>, offsets: seq<nat>, index: seq<(Key, nat)>, count: nat,
                                     lastKey: Key, x: Item)
    requires Indexed(all, offsets, index, count, lastKey) && Short(all, Seps(index)) && all != []
    ensures Short(all[|all| - 1 := all[|all| - 1] + [x]], Seps(index))
  {
    LastItem(all, offsets, index, count, lastKey);
    ShortGrows(all, Seps(index), x);
  }

  lemma {:induction false} NoneIsShort(x: Item)
    ensures Short([[x]], Seps([]))
  {
  }

  class TableBuilder {
    const filter: Filter.FilterBlockBuilder
    var lastKey: Key
    var numEntries: nat
    var pendingIndexEntry: bool
    var pendingHandle: nat
    var dataBlock: Run
    var offset: nat
    var index: seq<(Key, nat)>
    // The file: the data blocks written, in order, and where each begins.
    var blocks: seq<Run>
    var offsets: seq<nat>

    /** The blocks written and the open one, if it holds anything. */
    ghost function All(): seq<Run>
      reads this
    {
      if dataBlock == [] then blocks else blocks + [dataBlock]
    }

    ghost function AllOffsets(): seq<nat>
      reads this
    {
      if dataBlock == [] then offsets else offsets + [offset]
    }

    ghost predicate Valid()
      reads this, filter
    {
      && filter.Valid() && |filter.made| == offset / 2048 && |offsets| == |blocks|
      && Bucketed(All(), AllOffsets(), filter.Buckets())
      && Indexed(All(), AllOffsets(), index, numEntries, lastKey) && Short(All(), Seps(index))
      && (pendingIndexEntry <==> blocks != [] && dataBlock == [])
      && (pendingIndexEntry ==> pendingHandle == offsets[|offsets| - 1])
    }

    constructor (hash: Filter.Hash, bitsPerKey: nat)
      ensures Valid() && Flat(All()) == [] && fresh(filter) && filter.hash == hash
    {
      filter := new Filter.FilterBlockBuilder(hash, bitsPerKey);
      lastKey, numEntries, pendingIndexEntry, pendingHandle := Key([], 0), 0, false, 0;
      dataBlock, offset, index, blocks, offsets := [], 0, [], [], [];
    }

    /** Closes the open block; `size` is what it takes in the file, as the compressor left it. */
    method Flush(size: nat)
      requires Valid()
      modifies this, filter
      ensures Valid() && All() == old(All()) && AllOffsets() == old(AllOffsets()) && dataBlock == []
      ensures numEntries == old(numEntries) && index == old(index)
      ensures offset == if old(dataBlock) == [] then old(offset) else old(offset) + size + 5
    {
      hide Indexed, Bucketed, Short, Seps, Filter.FilterBlockBuilder.Valid;
      if dataBlock == [] {
        return;
      }
      ghost var buckets := filter.Buckets();
      pendingHandle := offset;
      blocks, offsets := blocks + [dataBlock], offsets + [offset];
      dataBlock := [];
      offset := offset + size + 5;
      pendingIndexEntry := true;
      filter.StartBlock(offset);
      BucketsGrow(blocks, offsets, buckets, filter.Buckets());
    }

    /** Adds an entry; the caller says whether the block is then full. */
    method Add(x: Item, full: bool, size: nat)
      requires Valid() && (numEntries > 0 ==> KeyLess(lastKey, x.key))
      modifies this, filter
      ensures Valid() && Flat(All()) == old(Flat(All())) + [x] && (full <==> dataBlock == [])
      ensures old(dataBlock) == [] ==> All() == old(All()) + [[x]] && AllOffsets() == old(AllOffsets()) + [old(offset)]
      ensures old(dataBlock) != [] ==> All() == old(blocks) + [old(dataBlock) + [x]] && AllOffsets() == old(AllOffsets())
    {
      hide Indexed, Bucketed, Flat, KeyLess, Less, Short, IsSeparator;
      HasEntries(All(), AllOffsets(), index, numEntries, lastKey);
      ghost var before, open := All(), dataBlock + [x];
      if pendingIndexEntry {
        var sep := FindSeparator(lastKey, x.key);
        AddIndexed(All(), AllOffsets(), index, numEntries, lastKey, x, sep, offset);
        AddShort(All(), AllOffsets(), index, numEntries, lastKey, x, sep, pendingHandle);
        index := index + [(sep, pendingHandle)];
        pendingIndexEntry := false;
        assert open == [x];
      } else if dataBlock == [] {
        AddFirst(x, offset, lastKey);
        assert Short([[x]], Seps(index)) by {
          NoneIsShort(x);
        }
        assert open == [x];
        assert blocks + [open] == [[x]] && offsets + [offset] == [offset] && Flat(before) + [x] == [x] by {
          FlatOfNone();
        }
      } else {
        AddToOpen(All(), AllOffsets(), index, numEntries, lastKey, x);
        GrowShort(All(), AllOffsets(), index, numEntries, lastKey, x);
        assert All()[|All()| - 1 := open] == blocks + [open];
      }
      assert Indexed(blocks + [open], offsets + [offset], index, numEntries + 1, x.key);
      assert Short(blocks + [open], Seps(index));
      assert Flat(blocks + [open]) == Flat(before) + [x];
      KeyBucketed(blocks, offsets, dataBlock, offset, filter.made, filter.keys, x);
      filter.AddKey(x.key.user);
      lastKey := x.key;
      numEntries := numEntries + 1;
      dataBlock := dataBlock + [x];
      if full {
        Flush(size);
      }
    }

    /** The filter block, with a filter for every data block. */
    method FinishFilter() returns (contents: Bytes, ghost filters: seq<Bytes>)
      requires Valid() && dataBlock == []
      modifies filter
      ensures Filtered(filter.hash, blocks, offsets, filters) && contents == Filter.FilterBlockOf(filters)
    {
      hide Indexed, Bucketed, Filtered, Filter.FilterOf, Filter.FilterBlockOf;
      ghost var buckets := filter.Buckets();
      contents := filter.Finish();
      filters := filter.filters;
      AllFiltered(filter.hash, filter.bitsPerKey, blocks, offsets, buckets, filter.made, filters);
    }

    /** The separator of the last block, if there is one. */
    method CloseIndex()
      requires Indexed(blocks, offsets, index, numEntries, lastKey) && |offsets| == |blocks| && Short(blocks, Seps(index))
      requires (pendingIndexEntry <==> blocks != []) && (pendingIndexEntry ==> pendingHandle == offsets[|offsets| - 1])
      modifies `index, `pendingIndexEntry
      ensures InOrder(Flat(blocks)) && Separates(blocks, Seps(index)) && Tight(blocks, Seps(index))
      ensures Ended(blocks, Seps(index))
    {
      hide Indexed, Flat, KeyLess, Less, Separates, Tight, InOrder, Seps, Short, IsSuccessor, Ended;
      HasEntries(blocks, offsets, index, numEntries, lastKey);
      if pendingIndexEntry {
        var sep := FindSuccessor(lastKey);
        Closed(blocks, offsets, index, numEntries, lastKey, sep);
        ClosedShort(blocks, offsets, index, numEntries, lastKey, sep);
        index := index + [(sep, pendingHandle)];
        pendingIndexEntry := false;
      } else {
        ClosedEmpty(index, numEntries, lastKey);
      }
    }

    /** The finished table holds the entries added, with sound separators and filters. */
    method Finish(size: nat) returns (t: Contents, ghost filters: seq<Bytes>)
      requires Valid()
      modifies this, filter
      ensures GoodTable(filter.hash, t, filters) && t.blocks == old(All()) && t.offsets == old(AllOffsets())
      ensures Ended(t.blocks, t.seps)
    {
      hide Short, Ended, Indexed, Bucketed, Flat, Separates, Tight, InOrder, Filtered, Seps, Filter.FilterBlockOf,
        Filter.FilterBlockBuilder.Valid;
      Flush(size);
      var contents;
      contents, filters := FinishFilter();
      CloseIndex();
      t := Contents(blocks, offsets, Seps(index), contents);
    }
  }

  lemma {:induction false} Closed(all: seq<Run>, offsets: seq<nat>, index: seq<(Key, nat)>, count: nat, lastKey: Key,
                                  sep: Key)
    requires Indexed(all, offsets, index, count, lastKey) && all != [] && AtMost(lastKey, sep)
    ensures var seps := Seps(index + [(sep, offsets[|offsets| - 1])]);
      InOrder(Flat(all)) && Separates(all, seps) && Tight(all, seps)
  {
    LastItem(all, offsets, index, count, lastKey);
    CloseLast(all, Seps(index), sep);
    assert Seps(index + [(sep, offsets[|offsets| - 1])]) == Seps(index) + [sep];
    PartialIsWhole(all, Seps(index) + [sep]);
  }

  lemma {:induction false} ClosedEmpty(index: seq<(Key, nat)>, count: nat, lastKey: Key)
    requires Indexed([], [], index, count, lastKey)
    ensures InOrder(Flat([])) && Separates([], Seps(index)) && Tight([], Seps(index)) && Ended([], Seps(index))
  {
  }

  lemma {:induction false} ClosedShort(all: seq<Run>, offsets: seq<nat>, index: seq<(Key, nat)>, count: nat,
                                       lastKey: Key, sep: Key)
    requires Indexed(all, offsets, index, count, lastKey) && all != [] && Short(all, Seps(index))
    requires IsSuccessor(lastKey, sep)
    ensures Ended(all, Seps(index + [(sep, offsets[|offsets| - 1])]))
  {
    hide IsSeparator, IsSuccessor;
    LastItem(all, offsets, index, count, lastKey);
    assert Seps(index + [(sep, offsets[|offsets| - 1])]) == Seps(index) + [sep];
  }

  lemma {:induction false} AllFiltered(hash: Filter.Hash, bitsPerKey: nat, blocks: seq<Run>, offsets: seq<nat>,
                                       buckets: seq<seq<Bytes>>, made: seq<seq<Bytes>>, filters: seq<Bytes>)
    requires Bucketed(blocks, offsets, buckets) && |made| == |filters|
    requires made == buckets || (buckets != [] && buckets[|buckets| - 1] == [] && made == buckets[..|buckets| - 1])
    requires forall i :: 0 <= i < |made| ==> Filter.FilterOf(hash, bitsPerKey, made[i], filters[i])
    ensures Filtered(hash, blocks, offsets, filters)
  {
    hide Filter.MayMatch, Filter.OnlyProbed;
    forall i, p | 0 <= i < |blocks| && 0 <= p < |blocks[i]|
      ensures Admits(hash, blocks[i][p], offsets[i] / 2048, filters)
    {
      assert InBucket(blocks[i][p], offsets[i] / 2048, buckets);
      assert blocks[i][p].key.user in made[offsets[i] / 2048];
    }
  }

  lemma {:induction false} FlatOfNone()
    ensures Flat([]) == []
  {
  }

  lemma {:induction false} HasEntries(all: seq<Run>, offsets: seq<nat>, index: seq<(Key, nat)>, count: nat,
                                      lastKey: Key)
    requires Indexed(all, offsets, index, count, lastKey)
    ensures all != [] ==> count > 0
    ensures all == [] ==> offsets == [] && index == [] && count == 0
  {
    if all != [] {
      LastItem(all, offsets, index, count, lastKey);
    }
  }

  /** The new entry's user key goes to the bucket of the open block. */
  lemma {:induction false} KeyBucketed(blocks: seq<Run>, offsets: seq<nat>, open: Run, offset: nat,
                                       made: seq<seq<Bytes>>, keys: seq<Bytes>, x: Item)
    requires |made| == offset / 2048 && |offsets| == |blocks|
    requires Bucketed(if open == [] then blocks else blocks + [open], if open == [] then offsets else offsets + [offset],
                      made + [keys])
    ensures Bucketed(blocks + [open + [x]], offsets + [offset], made + [keys + [x.key.user]])
  {
    var before, after := made + [keys], made + [keys + [x.key.user]];
    var all := if open == [] then blocks else blocks + [open];
    var at := if open == [] then offsets else offsets + [offset];
    BucketsGrow(all, at, before, after);
    var blocks', offsets' := blocks + [open + [x]], offsets + [offset];
    forall i, p | 0 <= i < |blocks'| && 0 <= p < |blocks'[i]|
      ensures InBucket(blocks'[i][p], offsets'[i] / 2048, after)
    {
      if i < |blocks| {
        assert all[i] == blocks[i] && at[i] == offsets[i];
        assert InBucket(all[i][p], at[i] / 2048, after);
      } else if p < |open| {
        assert all[i] == open && at[i] == offset && open[p] == blocks'[i][p];
        assert InBucket(all[i][p], at[i] / 2048, after);
      }
    }
  }
}

/**
 memcached's hash table with incremental expansion: while a table of twice the size fills
 up bucket by bucket, finds, inserts and deletes go to the old table or to the new one
 depending on how far the move has come. For every interleaving the table is one map.
 Chains are sequences, head first.
 */
module Assoc {
  import opened InternalKeys

  datatype Item = Item(key: Bytes, value: Bytes)

  type Chain = seq<Item>
  type Hash = Bytes -> nat

  function HashSize(n: nat): (r: nat)
    ensures r > 0
  {
    if n == 0 then 1 else 2 * HashSize(n - 1)
  }

  /** `hv & hashmask(power)`. */
  function Bucket(hash: Hash, key: Bytes, power: nat): (b: nat)
    ensures b < HashSize(power)
  {
    hash(key) % HashSize(power)
  }

  /** The tables and how far the expansion has come. */
  datatype Tables = Tables(power: nat, primary: seq<Chain>, older: seq<Chain>, expanding: bool, expandBucket: nat)

  /** A key still waits in the old table. */
  predicate InOld(hash: Hash, t: Tables, key: Bytes)
  {
    t.expanding && t.power > 0 && Bucket(hash, key, t.power - 1) >= t.expandBucket
  }

  /** Sizes fit the power of two in use. */
  predicate Sized(t: Tables)
  {
    && |t.primary| == HashSize(t.power)
    && (t.expanding ==> t.power > 0 && |t.older| == HashSize(t.power - 1) && t.expandBucket < |t.older|)
  }

  /** The one chain a key may be in. */
  function ChainOf(hash: Hash, t: Tables, key: Bytes): Chain
    requires Sized(t)
  {
    if InOld(hash, t, key) then t.older[Bucket(hash, key, t.power - 1)] else t.primary[Bucket(hash, key, t.power)]
  }

  ghost predicate Holds(chain: Chain, item: Item)
  {
    item in chain
  }

  ghost predicate DistinctKeys(chain: Chain)
  {
    forall i, j :: 0 <= i < j < |chain| ==> chain[i].key != chain[j].key
  }

  /** Every item is in the chain where its key is looked up, and no chain has a key twice. */
  ghost predicate Placed(hash: Hash, t: Tables)
    requires Sized(t)
  {
    && (forall b, it :: 0 <= b < |t.primary| && Holds(t.primary[b], it) ==>
          Bucket(hash, it.key, t.power) == b && !InOld(hash, t, it.key))
    && (t.expanding ==> forall b, it :: 0 <= b < |t.older| && Holds(t.older[b], it) ==>
          Bucket(hash, it.key, t.power - 1) == b && InOld(hash, t, it.key))
    && (forall b :: 0 <= b < |t.primary| ==> DistinctKeys(t.primary[b]))
    && (t.expanding ==> forall b :: 0 <= b < |t.older| ==> DistinctKeys(t.older[b]))
  }

  /** The tables hold exactly the items of the map. */
  ghost predicate Represents(hash: Hash, t: Tables, m: map<Bytes, Item>)
    requires Sized(t)
  {
    && (forall k :: k in m ==> Stored(hash, t, k, m[k]))
    && (forall k, it :: Stored(hash, t, k, it) ==> k in m && m[k] == it)
  }

  /** A lookup of `k` can find the item. */
  ghost predicate Stored(hash: Hash, t: Tables, k: Bytes, it: Item)
  {
    Sized(t) && Holds(ChainOf(hash, t, k), it) && it.key == k
  }

  ghost predicate Good(hash: Hash, t: Tables, m: map<Bytes, Item>)
  {
    Sized(t) && Placed(hash, t) && Represents(hash, t, m)
  }

  // ------------------------------------------------------------------
  // Inserting, deleting.

  /** The tables with the chain of `key` replaced. */
  function WithChain(hash: Hash, t: Tables, key: Bytes, chain: Chain): Tables
    requires Sized(t)
  {
    if InOld(hash, t, key) then t.(older := t.older[Bucket(hash, key, t.power - 1) := chain])
    else t.(primary := t.primary[Bucket(hash, key, t.power) := chain])
  }

  /** The two keys are looked up in the same chain. */
  predicate SameChain(hash: Hash, t: Tables, k: Bytes, key: Bytes)
  {
    && InOld(hash, t, k) == InOld(hash, t, key)
    && (if InOld(hash, t, k) then Bucket(hash, k, t.power - 1) == Bucket(hash, key, t.power - 1)
        else Bucket(hash, k, t.power) == Bucket(hash, key, t.power))
  }

  /** Replacing one chain changes only the keys that are looked up there. */
  lemma {:induction false} ChainsAfter(hash: Hash, t: Tables, key: Bytes, chain: Chain, k: Bytes)
    requires Sized(t)
    ensures SameChain(hash, t, key, key)
    ensures SameChain(hash, t, k, key) ==> ChainOf(hash, t, k) == ChainOf(hash, t, key)
    ensures var t' := WithChain(hash, t, key, chain);
      && Sized(t') && (InOld(hash, t', k) <==> InOld(hash, t, k))
      && ChainOf(hash, t', k) == if SameChain(hash, t, k, key) then chain else ChainOf(hash, t, k)
  {
    hide Bucket, HashSize;
  }

  /** A new chain whose items belong where the key does keeps every item in its place. */
  lemma {:induction false} PlacedAfter(hash: Hash, t: Tables, key: Bytes, chain: Chain)
    requires Sized(t) && Placed(hash, t) && DistinctKeys(chain)
    requires forall it :: Holds(chain, it) ==> it.key == key || Holds(ChainOf(hash, t, key), it)
    ensures Sized(WithChain(hash, t, key, chain)) && Placed(hash, WithChain(hash, t, key, chain))
  {
    hide Bucket, HashSize, DistinctKeys;
    var t' := WithChain(hash, t, key, chain);
    forall k
      ensures InOld(hash, t', k) <==> InOld(hash, t, k)
    {
    }
  }

  lemma {:induction false} InsertKeepsGood(hash: Hash, t: Tables, m: map<Bytes, Item>, it: Item)
    requires Good(hash, t, m) && it.key !in m
    ensures Sized(t) && Good(hash, WithChain(hash, t, it.key, [it] + ChainOf(hash, t, it.key)), m[it.key := it])
  {
    hide Bucket, HashSize, Placed, Sized, WithChain, ChainOf, SameChain;
    var chain := ChainOf(hash, t, it.key);
    ChainIsDistinct(hash, t, it.key);
    forall i | 0 <= i < |chain|
      ensures chain[i].key != it.key
    {
      assert Holds(chain, chain[i]);
      assert chain[i].key == it.key ==> Stored(hash, t, it.key, chain[i]);
    }
    PlacedAfter(hash, t, it.key, [it] + chain);
    var t' := WithChain(hash, t, it.key, [it] + chain);
    forall k, x
      ensures Stored(hash, t', k, x) <==> (x == it && k == it.key) || Stored(hash, t, k, x)
    {
      ChainsAfter(hash, t, it.key, [it] + chain, k);
    }
    hide Stored;
  }

  lemma {:induction false} DeleteKeepsGood(hash: Hash, t: Tables, m: map<Bytes, Item>, key: Bytes, i: nat)
    requires Good(hash, t, m) && i < |ChainOf(hash, t, key)| && ChainOf(hash, t, key)[i].key == key
    ensures var chain := ChainOf(hash, t, key);
      key in m && Good(hash, WithChain(hash, t, key, chain[..i] + chain[i + 1..]), m - {key})
  {
    hide Bucket, HashSize, Placed, Sized, WithChain, ChainOf, SameChain;
    var chain := ChainOf(hash, t, key);
    var rest := chain[..i] + chain[i + 1..];
    ChainIsDistinct(hash, t, key);
    assert Stored(hash, t, key, chain[i]);
    forall x
      ensures Holds(rest, x) <==> Holds(chain, x) && x.key != key
    {
      Without(chain, i, x);
    }
    DistinctWithout(chain, i);
    PlacedAfter(hash, t, key, rest);
    var t' := WithChain(hash, t, key, rest);
    forall k, x
      ensures Stored(hash, t', k, x) <==> k != key && Stored(hash, t, k, x)
    {
      ChainsAfter(hash, t, key, rest, k);
    }
    hide Stored;
  }

  lemma {:induction false} ChainIsDistinct(hash: Hash, t: Tables, key: Bytes)
    requires Sized(t) && Placed(hash, t)
    ensures DistinctKeys(ChainOf(hash, t, key))
  {
  }

  lemma {:induction false} Without(chain: Chain, i: nat, x: Item)
    requires i < |chain| && DistinctKeys(chain)
    ensures x in chain[..i] + chain[i + 1..] <==> x in chain && x.key != chain[i].key
  {
    if x in chain {
      var j :| 0 <= j < |chain| && chain[j] == x;
      assert j < i ==> chain[..i][j] == x;
      assert j > i ==> chain[i + 1..][j - i - 1] == x;
    }
  }

  lemma {:induction false} DistinctWithout(chain: Chain, i: nat)
    requires i < |chain| && DistinctKeys(chain)
    ensures DistinctKeys(chain[..i] + chain[i + 1..])
  {
    var rest := chain[..i] + chain[i + 1..];
    forall a, b | 0 <= a < b < |rest|
      ensures rest[a].key != rest[b].key
    {
      assert rest[a] == chain[if a < i then a else a + 1] && rest[b] == chain[if b < i then b else b + 1];
    }
  }

  // ------------------------------------------------------------------
  // Expanding.

  function Expanded(t: Tables): Tables
  {
    Tables(t.power + 1, seq(HashSize(t.power + 1), _ => []), t.primary, true, 0)
  }

  lemma {:induction false} ExpandKeepsGood(hash: Hash, t: Tables, m: map<Bytes, Item>)
    requires Good(hash, t, m) && !t.expanding
    ensures Good(hash, Expanded(t), m)
  {
    hide Bucket;
    var t' := Expanded(t);
    forall k
      ensures InOld(hash, t', k) && ChainOf(hash, t', k) == ChainOf(hash, t, k)
    {
    }
    forall k, x
      ensures Stored(hash, t', k, x) <==> Stored(hash, t, k, x)
    {
    }
  }

  /** The chain's items pushed, one by one, onto the heads of their new chains. */
  function Moved(hash: Hash, power: nat, primary: seq<Chain>, chain: Chain): (r: seq<Chain>)
    requires |primary| == HashSize(power)
    ensures |r| == |primary|
    decreases |chain|
  {
    if chain == [] then primary else
      var b := Bucket(hash, chain[0].key, power);
      Moved(hash, power, primary[b := [chain[0]] + primary[b]], chain[1..])
  }

  lemma {:induction false} MovedMembers(hash: Hash, power: nat, primary: seq<Chain>, chain: Chain, b: nat, x: Item)
    requires |primary| == HashSize(power) && b < |primary|
    ensures x in Moved(hash, power, primary, chain)[b] <==>
            x in primary[b] || (x in chain && Bucket(hash, x.key, power) == b)
    decreases |chain|
  {
    hide Bucket;
    if chain != [] {
      var c := Bucket(hash, chain[0].key, power);
      MovedMembers(hash, power, primary[c := [chain[0]] + primary[c]], chain[1..], b, x);
      assert x in chain <==> x == chain[0] || x in chain[1..];
    }
  }

  /** No key of one chain is in the other. */
  ghost predicate KeysApart(a: Chain, b: Chain)
  {
    forall i, j :: 0 <= i < |a| && 0 <= j < |b| ==> a[i].key != b[j].key
  }

  lemma {:induction false} MovedDistinct(hash: Hash, power: nat, primary: seq<Chain>, chain: Chain, b: nat)
    requires |primary| == HashSize(power) && b < |primary|
    requires DistinctKeys(chain) && DistinctKeys(primary[b]) && KeysApart(chain, primary[b])
    ensures DistinctKeys(Moved(hash, power, primary, chain)[b])
    decreases |chain|
  {
    hide Bucket;
    if chain != [] {
      var c := Bucket(hash, chain[0].key, power);
      var primary' := primary[c := [chain[0]] + primary[c]];
      assert DistinctKeys(primary'[b]) && KeysApart(chain[1..], primary'[b]) by {
        assert forall j :: 0 <= j < |chain[1..]| ==> chain[1..][j] == chain[j + 1];
        assert primary'[b] == if b == c then [chain[0]] + primary[b] else primary[b];
      }
      MovedDistinct(hash, power, primary', chain[1..], b);
    }
  }

  /** One bucket of the old table moved over. */
  function Migrated(hash: Hash, t: Tables): Tables
    requires Sized(t) && t.expanding
  {
    var primary := Moved(hash, t.power, t.primary, t.older[t.expandBucket]);
    var older := t.older[t.expandBucket := []];
    if t.expandBucket + 1 == |older| then Tables(t.power, primary, [], false, t.expandBucket + 1)
    else Tables(t.power, primary, older, true, t.expandBucket + 1)
  }

  /** Where a key is looked up after the move: elsewhere only if it was in the moved bucket. */
  lemma {:induction false} LookupAfter(hash: Hash, t: Tables, k: Bytes)
    requires Sized(t) && t.expanding
    ensures Sized(Migrated(hash, t))
    ensures InOld(hash, Migrated(hash, t), k) <==> InOld(hash, t, k) && Bucket(hash, k, t.power - 1) != t.expandBucket
  {
  }

  lemma {:induction false} MigrateStored(hash: Hash, t: Tables, k: Bytes, x: Item)
    requires Sized(t) && t.expanding && Placed(hash, t)
    ensures Stored(hash, Migrated(hash, t), k, x) <==> Stored(hash, t, k, x)
  {
    hide Bucket, Moved;
    var t', e := Migrated(hash, t), t.expandBucket;
    LookupAfter(hash, t, k);
    if !InOld(hash, t', k) {
      MovedMembers(hash, t.power, t.primary, t.older[e], Bucket(hash, k, t.power), x);
      assert Holds(t.older[e], x) && x.key == k ==> InOld(hash, t, k);
      assert Holds(t.primary[Bucket(hash, k, t.power)], x) && x.key == k ==> !InOld(hash, t, k);
    }
  }

  lemma {:induction false} MigratePlaced(hash: Hash, t: Tables)
    requires Sized(t) && t.expanding && Placed(hash, t)
    ensures Sized(Migrated(hash, t)) && Placed(hash, Migrated(hash, t))
  {
    hide Bucket, Moved, DistinctKeys;
    var t', e := Migrated(hash, t), t.expandBucket;
    LookupAfter(hash, t, []);
    forall b, x | 0 <= b < |t'.primary| && Holds(t'.primary[b], x)
      ensures Bucket(hash, x.key, t'.power) == b && !InOld(hash, t', x.key)
    {
      MovedMembers(hash, t.power, t.primary, t.older[e], b, x);
      LookupAfter(hash, t, x.key);
      assert Holds(t.primary[b], x) || Holds(t.older[e], x);
    }
    if t'.expanding {
      forall b, x | 0 <= b < |t'.older| && Holds(t'.older[b], x)
        ensures Bucket(hash, x.key, t'.power - 1) == b && InOld(hash, t', x.key)
      {
        LookupAfter(hash, t, x.key);
        assert b != e;
        assert Holds(t.older[b], x);
      }
      EmptyIsDistinct();
    }
    forall b | 0 <= b < |t'.primary|
      ensures DistinctKeys(t'.primary[b])
    {
      MovedApart(hash, t, b);
      MovedDistinct(hash, t.power, t.primary, t.older[e], b);
    }
  }

  lemma {:induction false} EmptyIsDistinct()
    ensures DistinctKeys([])
  {
  }

  /** What moves has keys of the moved bucket; what is there already does not. */
  lemma {:induction false} MovedApart(hash: Hash, t: Tables, b: nat)
    requires Sized(t) && t.expanding && Placed(hash, t) && b < |t.primary|
    ensures KeysApart(t.older[t.expandBucket], t.primary[b])
  {
    hide Bucket, DistinctKeys;
    var chain := t.older[t.expandBucket];
    forall i, j | 0 <= i < |chain| && 0 <= j < |t.primary[b]|
      ensures chain[i].key != t.primary[b][j].key
    {
      assert Holds(chain, chain[i]) && Holds(t.primary[b], t.primary[b][j]);
    }
  }

  lemma {:induction false} MigrateKeepsGood(hash: Hash, t: Tables, m: map<Bytes, Item>)
    requires Good(hash, t, m) && t.expanding
    ensures Good(hash, Migrated(hash, t), m)
  {
    hide Placed, Stored;
    MigratePlaced(hash, t);
    forall k, x
      ensures Stored(hash, Migrated(hash, t), k, x) <==> Stored(hash, t, k, x)
    {
      MigrateStored(hash, t, k, x);
    }
  }

  // ------------------------------------------------------------------
  // The table.

  class HashTable {
    const hash: Hash
    var power: nat
    var primary: seq<Chain>
    var older: seq<Chain>
    var expanding: bool
    var startedExpanding: bool
    var expandBucket: nat
    var hashItems: nat
    ghost var items: map<Bytes, Item>

    function View(): Tables
      reads this
    {
      Tables(power, primary, older, expanding, expandBucket)
    }

    ghost predicate Valid()
      reads this
    {
      Good(hash, View(), items) && hashItems == |items|
    }

    constructor (hash: Hash, power: nat)
      ensures Valid() && items == map[] && !expanding && !startedExpanding && this.power == power && this.hash == hash
    {
      this.hash, this.power := hash, power;
      primary, older := seq(HashSize(power), _ => []), [];
      expanding, startedExpanding, expandBucket, hashItems, items := false, false, 0, 0, map[];
    }

    /** Where the key's chain begins, in whichever table it is looked up. */
    method Chained(key: Bytes) returns (chain: Chain)
      requires Valid()
      ensures chain == ChainOf(hash, View(), key)
    {
      if expanding && Bucket(hash, key, power - 1) >= expandBucket {
        chain := older[Bucket(hash, key, power - 1)];
      } else {
        chain := primary[Bucket(hash, key, power)];
      }
    }

    /** The walk along a chain to the first item with the key. */
    static method Walk(chain: Chain, key: Bytes) returns (i: nat)
      ensures i <= |chain| && (i < |chain| ==> chain[i].key == key)
      ensures forall j :: 0 <= j < i ==> chain[j].key != key
    {
      i := 0;
      while i < |chain| && chain[i].key != key
        invariant i <= |chain| && forall j :: 0 <= j < i ==> chain[j].key != key
      {
        i := i + 1;
      }
    }

    method Find(key: Bytes) returns (r: Option<Item>)
      requires Valid()
      ensures r == if key in items then Some(items[key]) else None
    {
      hide Placed, ChainOf, Bucket;
      var chain := Chained(key);
      var i := Walk(chain, key);
      FoundOrNot(hash, View(), items, key, i);
      r := if i < |chain| then Some(chain[i]) else None;
    }

    /** Puts the chain of `key` back in the table it came from. */
    method Relink(key: Bytes, chain: Chain)
      requires Sized(View())
      modifies `primary, `older
      ensures View() == WithChain(hash, old(View()), key, chain)
    {
      if expanding && Bucket(hash, key, power - 1) >= expandBucket {
        older := older[Bucket(hash, key, power - 1) := chain];
      } else {
        primary := primary[Bucket(hash, key, power) := chain];
      }
    }

    method Insert(it: Item)
      requires Valid() && it.key !in items
      modifies this
      ensures Valid() && items == old(items)[it.key := it]
      ensures power == old(power) && expanding == old(expanding) && expandBucket == old(expandBucket)
      ensures startedExpanding == (old(startedExpanding) || (!expanding && |items| > HashSize(power) * 3 / 2))
    {
      hide Placed, Represents, ChainOf, Bucket, WithChain;
      var chain := Chained(it.key);
      InsertKeepsGood(hash, View(), items, it);
      Relink(it.key, [it] + chain);
      items := items[it.key := it];
      hashItems := hashItems + 1;
      if !expanding && hashItems > HashSize(power) * 3 / 2 {
        startedExpanding := true;
      }
    }

    /** Callers delete only keys that are there. */
    method Delete(key: Bytes)
      requires Valid() && key in items
      modifies this
      ensures Valid() && items == old(items) - {key} && startedExpanding == old(startedExpanding)
      ensures power == old(power) && expanding == old(expanding) && expandBucket == old(expandBucket)
    {
      hide Placed, ChainOf, Bucket, WithChain;
      var chain := Chained(key);
      var i := Walk(chain, key);
      FoundOrNot(hash, View(), items, key, i);
      DeleteKeepsGood(hash, View(), items, key, i);
      Relink(key, chain[..i] + chain[i + 1..]);
      OneFewer(items, key);
      items := items - {key};
      hashItems := hashItems - 1;
    }

    /** `assoc_expand`: the table becomes the old one, unless there is no memory for twice its size. */
    method Expand(memory: bool)
      requires Valid() && !expanding
      modifies this
      ensures Valid() && items == old(items) && startedExpanding == old(startedExpanding)
      ensures expanding == memory && power == old(power) + (if memory then 1 else 0)
      ensures memory ==> expandBucket == 0
    {
      hide Placed, Represents, HashSize;
      if memory {
        ExpandKeepsGood(hash, View(), items);
        older := primary;
        primary := seq(HashSize(power + 1), _ => []);
        power := power + 1;
        expanding := true;
        expandBucket := 0;
      }
    }

    /** The maintenance thread moves one bucket; the last one ends the expansion. */
    method MigrateBucket()
      requires Valid() && expanding
      modifies this
      ensures Valid() && items == old(items) && power == old(power) && startedExpanding == old(startedExpanding)
      ensures expandBucket == old(expandBucket) + 1 && expanding == (expandBucket < HashSize(power - 1))
    {
      hide Placed, Represents, Bucket;
      MigrateKeepsGood(hash, View(), items);
      ghost var t := View();
      var chain := older[expandBucket];
      var i := 0;
      while i < |chain|
        invariant i <= |chain| && |primary| == HashSize(power)
        invariant View() == t.(primary := primary)
        invariant Moved(hash, power, primary, chain[i..]) == Moved(hash, power, t.primary, chain)
        invariant items == old(items) && hashItems == old(hashItems) && startedExpanding == old(startedExpanding)
      {
        var it := chain[i];
        assert chain[i..][0] == it && chain[i..][1..] == chain[i + 1..];
        var b := Bucket(hash, it.key, power);
        primary := primary[b := [it] + primary[b]];
        i := i + 1;
      }
      older := older[expandBucket := []];
      expandBucket := expandBucket + 1;
      if expandBucket == HashSize(power - 1) {
        expanding := false;
        older := [];
      }
    }

    /** The maintenance thread's rounds until it waits again: as many bucket moves as buckets are left. */
    method FinishExpansion() returns (moves: nat)
      requires Valid()
      modifies this
      ensures Valid() && items == old(items) && !expanding && !startedExpanding && power == old(power)
      ensures old(expanding) ==> power > 0 && moves + old(expandBucket) == HashSize(power - 1)
      ensures !old(expanding) ==> moves == 0 && View() == old(View())
    {
      hide Placed, Represents, HashSize;
      moves := 0;
      while expanding
        invariant Valid() && items == old(items) && power == old(power) && moves + old(expandBucket) == expandBucket
        invariant old(expanding) ==>
          power > 0 && expandBucket <= HashSize(power - 1) && (expanding <==> expandBucket < HashSize(power - 1))
        invariant !old(expanding) ==> moves == 0 && View() == old(View())
        decreases if expanding then HashSize(power - 1) - expandBucket else 0, expanding
      {
        MigrateBucket();
        moves := moves + 1;
      }
      startedExpanding := false;
    }
  }

  /** A walk of the key's chain finds the map's item or nothing. */
  lemma {:induction false} FoundOrNot(hash: Hash, t: Tables, m: map<Bytes, Item>, key: Bytes, i: nat)
    requires Good(hash, t, m)
    requires var chain := ChainOf(hash, t, key);
      i <= |chain| && (i < |chain| ==> chain[i].key == key) && forall j :: 0 <= j < i ==> chain[j].key != key
    ensures i < |ChainOf(hash, t, key)| <==> key in m
    ensures i < |ChainOf(hash, t, key)| ==> m[key] == ChainOf(hash, t, key)[i]
  {
    hide Placed, ChainOf;
    var chain := ChainOf(hash, t, key);
    assert key in m ==> Stored(hash, t, key, m[key]);
    if i < |chain| {
      assert Stored(hash, t, key, chain[i]);
    }
  }

  lemma {:induction false} OneFewer(m: map<Bytes, Item>, key: Bytes)
    requires key in m
    ensures |m - {key}| == |m| - 1
  {
    var m' := m - {key};
    assert m == m'[key := m[key]];
  }
}

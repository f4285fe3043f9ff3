/**
 The hash table of LevelDB's cache: chains of entries, doubled when it holds more entries
 than buckets. It is a map from keys to entries, and resizing does not change the map.
 */
module HandleTable {
  import opened InternalKeys

  datatype Node = Node(key: Bytes, id: nat)

  type Chain = seq<Node>
  type Hash = Bytes -> nat

  predicate PowerOfTwo(n: nat)
  {
    n == 1 || (n > 1 && n % 2 == 0 && PowerOfTwo(n / 2))
  }

  /** `hash & (length - 1)`, for a length that is a power of two. */
  function Bucket(hash: Hash, key: Bytes, length: nat): (b: nat)
    requires length > 0
    ensures b < length
  {
    hash(key) % length
  }

  ghost predicate UniqueKeys(chain: Chain)
  {
    forall i, j :: 0 <= i < j < |chain| ==> chain[i].key != chain[j].key
  }

  /** Every entry is in the chain of its hash, and no chain has a key twice. */
  ghost predicate Placed(hash: Hash, list: seq<Chain>)
  {
    && |list| > 0 && (forall b :: 0 <= b < |list| ==> UniqueKeys(list[b]))
    && (forall b, n :: 0 <= b < |list| && n in list[b] ==> Bucket(hash, n.key, |list|) == b)
  }

  /** The table holds the entry. */
  ghost predicate Has(list: seq<Chain>, n: Node)
  {
    exists b :: 0 <= b < |list| && n in list[b]
  }

  ghost predicate Represents(list: seq<Chain>, m: map<Bytes, nat>)
  {
    forall n :: Has(list, n) <==> n.key in m && m[n.key] == n.id
  }

  lemma {:induction false} HasInBucket(hash: Hash, list: seq<Chain>, n: Node)
    requires Placed(hash, list)
    ensures Has(list, n) <==> n in list[Bucket(hash, n.key, |list|)]
  {
  }

  /** The first place in the chain with the key, or its end. */
  function FindPointer(chain: Chain, key: Bytes): (i: nat)
    ensures i <= |chain| && (i < |chain| ==> chain[i].key == key)
    ensures forall j :: 0 <= j < i ==> chain[j].key != key
  {
    if chain == [] then 0 else if chain[0].key == key then 0 else 1 + FindPointer(chain[1..], key)
  }

  // ------------------------------------------------------------------
  // Replacing one chain.

  lemma {:induction false} ChainChange(hash: Hash, list: seq<Chain>, m: map<Bytes, nat>, key: Bytes, chain: Chain,
                                       m': map<Bytes, nat>)
    requires Placed(hash, list) && Represents(list, m) && UniqueKeys(chain)
    requires forall n :: n in chain ==> n.key == key || n in list[Bucket(hash, key, |list|)]
    requires forall n: Node :: n.key == key ==> (n in chain <==> n.key in m' && m'[n.key] == n.id)
    requires forall n: Node :: n.key != key ==> (n in chain <==> n in list[Bucket(hash, key, |list|)])
    requires forall k :: k != key ==> (k in m' <==> k in m) && (k in m ==> m'[k] == m[k])
    ensures Placed(hash, list[Bucket(hash, key, |list|) := chain])
    ensures Represents(list[Bucket(hash, key, |list|) := chain], m')
  {
    hide Bucket, UniqueKeys;
    var b := Bucket(hash, key, |list|);
    var list' := list[b := chain];
    assert Placed(hash, list');
    forall n
      ensures Has(list', n) <==> n.key in m' && m'[n.key] == n.id
    {
      HasInBucket(hash, list, n);
      HasInBucket(hash, list', n);
    }
  }

  // ------------------------------------------------------------------
  // Resizing.

  /** The chain's entries pushed onto the heads of their new chains. */
  function Moved(hash: Hash, list: seq<Chain>, chain: Chain): (r: seq<Chain>)
    requires |list| > 0
    ensures |r| == |list|
    decreases |chain|
  {
    if chain == [] then list else
      var b := Bucket(hash, chain[0].key, |list|);
      Moved(hash, list[b := [chain[0]] + list[b]], chain[1..])
  }

  ghost predicate KeysApart(list: seq<Chain>, chain: Chain)
  {
    forall b, i, j :: 0 <= b < |list| && 0 <= i < |list[b]| && 0 <= j < |chain| ==> list[b][i].key != chain[j].key
  }

  lemma {:induction false} MovedKeeps(hash: Hash, list: seq<Chain>, chain: Chain)
    requires Placed(hash, list) && UniqueKeys(chain) && KeysApart(list, chain)
    ensures Placed(hash, Moved(hash, list, chain))
    ensures forall n :: Has(Moved(hash, list, chain), n) <==> Has(list, n) || n in chain
    decreases |chain|
  {
    hide Bucket;
    if chain != [] {
      var b := Bucket(hash, chain[0].key, |list|);
      var list' := list[b := [chain[0]] + list[b]];
      PushKeeps(hash, list, chain);
      MovedKeeps(hash, list', chain[1..]);
      forall n
        ensures n in chain <==> n == chain[0] || n in chain[1..]
      {
      }
    }
  }

  lemma {:induction false} PushKeeps(hash: Hash, list: seq<Chain>, chain: Chain)
    requires Placed(hash, list) && UniqueKeys(chain) && KeysApart(list, chain) && chain != []
    ensures var b := Bucket(hash, chain[0].key, |list|); var list' := list[b := [chain[0]] + list[b]];
      && Placed(hash, list') && UniqueKeys(chain[1..]) && KeysApart(list', chain[1..])
      && forall n :: Has(list', n) <==> Has(list, n) || n == chain[0]
  {
    hide Bucket;
    var b := Bucket(hash, chain[0].key, |list|);
    var list' := list[b := [chain[0]] + list[b]];
    assert UniqueKeys(list'[b]);
    forall n
      ensures Has(list', n) <==> Has(list, n) || n == chain[0]
    {
      if Has(list, n) {
        var c :| 0 <= c < |list| && n in list[c];
        assert n in list'[c];
      }
      if n == chain[0] {
        assert list'[b][0] == n;
        assert n in list'[b];
      }
    }
    forall c, i, j | 0 <= c < |list'| && 0 <= i < |list'[c]| && 0 <= j < |chain[1..]|
      ensures list'[c][i].key != chain[1..][j].key
    {
      assert chain[1..][j] == chain[j + 1];
      if c == b && i > 0 {
        assert list'[c][i] == list[c][i - 1];
      }
    }
  }

  /** The first `n` chains of the old list moved into an empty new one. */
  function Rehashed(hash: Hash, list: seq<Chain>, length: nat, n: nat): (r: seq<Chain>)
    requires n <= |list| && length > 0
    ensures |r| == length
  {
    if n == 0 then seq(length, _ => []) else Moved(hash, Rehashed(hash, list, length, n - 1), list[n - 1])
  }

  ghost predicate HasBefore(list: seq<Chain>, n: nat, x: Node)
  {
    exists b :: 0 <= b < n && b < |list| && x in list[b]
  }

  lemma {:induction false} RehashKeeps(hash: Hash, list: seq<Chain>, length: nat, n: nat)
    requires Placed(hash, list) && n <= |list| && length > 0
    ensures Placed(hash, Rehashed(hash, list, length, n))
    ensures forall x :: Has(Rehashed(hash, list, length, n), x) <==> HasBefore(list, n, x)
  {
    hide Bucket;
    var after := Rehashed(hash, list, length, n);
    if n > 0 {
      RehashKeeps(hash, list, length, n - 1);
      var before := Rehashed(hash, list, length, n - 1);
      ChainsApart(hash, list, n - 1, before);
      MovedKeeps(hash, before, list[n - 1]);
      forall x
        ensures HasBefore(list, n, x) <==> HasBefore(list, n - 1, x) || x in list[n - 1]
      {
      }
    }
  }

  /** Entries of earlier chains hash elsewhere, so their keys differ. */
  lemma {:induction false} ChainsApart(hash: Hash, list: seq<Chain>, n: nat, before: seq<Chain>)
    requires Placed(hash, list) && n < |list|
    requires forall x :: Has(before, x) <==> HasBefore(list, n, x)
    ensures KeysApart(before, list[n])
  {
    hide Bucket;
    forall b, i, j | 0 <= b < |before| && 0 <= i < |before[b]| && 0 <= j < |list[n]|
      ensures before[b][i].key != list[n][j].key
    {
      var x := before[b][i];
      assert x in before[b];
      assert Has(before, x) && HasBefore(list, n, x);
      var c :| 0 <= c < n && x in list[c];
      assert list[n][j] in list[n];
    }
  }

  // ------------------------------------------------------------------
  // The table.

  class Table {
    const hash: Hash
    var length: nat
    var elems: nat
    var list: seq<Chain>
    ghost var m: map<Bytes, nat>

    ghost predicate Valid()
      reads this
    {
      && Placed(hash, list) && Represents(list, m) && elems == |m|
      && length == |list| && length >= 4 && elems <= length && PowerOfTwo(length)
    }

    constructor (hash: Hash)
      ensures Valid() && m == map[] && this.hash == hash
    {
      this.hash := hash;
      length, elems, list, m := 4, 0, seq(4, _ => []), map[];
    }

    method Lookup(key: Bytes) returns (r: Option<nat>)
      requires Valid()
      ensures r == if key in m then Some(m[key]) else None
    {
      var chain := list[Bucket(hash, key, length)];
      var i := FindPointer(chain, key);
      AtPointer(hash, list, m, key);
      r := if i < |chain| then Some(chain[i].id) else None;
    }

    /** Puts the entry in the place of one with its key, or at the end of the chain. */
    method Insert(key: Bytes, id: nat) returns (older: Option<nat>)
      requires Valid()
      modifies this
      ensures Valid() && m == old(m)[key := id]
      ensures older == if key in old(m) then Some(old(m)[key]) else None
    {
      hide Placed, Represents, PowerOfTwo;
      var b := Bucket(hash, key, length);
      PlacedSize(hash, list);
      var chain := list[b];
      var i := FindPointer(chain, key);
      AtPointer(hash, list, m, key);
      PutKeeps(hash, list, m, key, id);
      older := if i < |chain| then Some(chain[i].id) else None;
      list := list[b := chain[..i] + [Node(key, id)] + chain[if i < |chain| then i + 1 else i..]];
      m := m[key := id];
      if older.None? {
        elems := elems + 1;
        if elems > length {
          Resize();
        }
      }
    }

    method Remove(key: Bytes) returns (r: Option<nat>)
      requires Valid()
      modifies this
      ensures Valid() && m == old(m) - {key}
      ensures r == if key in old(m) then Some(old(m)[key]) else None
    {
      hide Placed, Represents, PowerOfTwo;
      var b := Bucket(hash, key, length);
      PlacedSize(hash, list);
      var chain := list[b];
      var i := FindPointer(chain, key);
      AtPointer(hash, list, m, key);
      if i < |chain| {
        DropKeeps(hash, list, m, key);
        OneFewer(m, key);
        list := list[b := chain[..i] + chain[i + 1..]];
        m := m - {key};
        elems := elems - 1;
        r := Some(chain[i].id);
      } else {
        r := None;
        assert m - {key} == m;
      }
    }

    /** Twice the buckets, as often as needed; the same map. */
    method Resize()
      requires Placed(hash, list) && Represents(list, m) && elems == |m| && length == |list| && length > 0
      modifies `list, `length
      ensures Valid() && m == old(m) && (length == 4 || length < 2 * elems)
    {
      hide Placed, Represents, Moved;
      var newLength := 4;
      while newLength < elems
        invariant newLength >= 4 && PowerOfTwo(newLength) && (newLength == 4 || newLength < 2 * elems)
        modifies {}
        decreases elems - newLength
      {
        newLength := newLength * 2;
      }
      var newList := seq(newLength, _ => []);
      var i := 0;
      while i < length
        invariant i <= length && newList == Rehashed(hash, list, newLength, i)
        modifies {}
      {
        var chain := list[i];
        ghost var start := newList;
        var j := 0;
        while j < |chain|
          invariant j <= |chain| && |newList| == newLength
          invariant Moved(hash, newList, chain[j..]) == Moved(hash, start, chain)
          modifies {}
        {
          MovedStep(hash, newList, chain[j..]);
          assert chain[j..][1..] == chain[j + 1..];
          var b := Bucket(hash, chain[j].key, newLength);
          newList := newList[b := [chain[j]] + newList[b]];
          j := j + 1;
        }
        MovedNone(hash, newList);
        assert chain[j..] == [];
        i := i + 1;
      }
      RehashedIsSame(hash, list, newLength, m);
      list, length := newList, newLength;
    }
  }

  lemma {:induction false} MovedStep(hash: Hash, list: seq<Chain>, chain: Chain)
    requires |list| > 0 && chain != []
    ensures var b := Bucket(hash, chain[0].key, |list|);
      Moved(hash, list, chain) == Moved(hash, list[b := [chain[0]] + list[b]], chain[1..])
  {
  }

  lemma {:induction false} MovedNone(hash: Hash, list: seq<Chain>)
    requires |list| > 0
    ensures Moved(hash, list, []) == list
  {
  }

  lemma {:induction false} RehashedIsSame(hash: Hash, list: seq<Chain>, length: nat, m: map<Bytes, nat>)
    requires Placed(hash, list) && Represents(list, m) && length > 0
    ensures Placed(hash, Rehashed(hash, list, length, |list|)) && Represents(Rehashed(hash, list, length, |list|), m)
  {
    hide Placed;
    RehashKeeps(hash, list, length, |list|);
    forall x
      ensures HasBefore(list, |list|, x) <==> Has(list, x)
    {
    }
  }

  lemma {:induction false} PlacedSize(hash: Hash, list: seq<Chain>)
    requires Placed(hash, list)
    ensures |list| > 0
  {
  }

  lemma {:induction false} AtPointer(hash: Hash, list: seq<Chain>, m: map<Bytes, nat>, key: Bytes)
    requires Placed(hash, list) && Represents(list, m)
    ensures var chain := list[Bucket(hash, key, |list|)]; var i := FindPointer(chain, key);
      (i < |chain| <==> key in m) && (i < |chain| ==> m[key] == chain[i].id)
  {
    hide Bucket;
    var chain := list[Bucket(hash, key, |list|)];
    var i := FindPointer(chain, key);
    if i < |chain| {
      assert chain[i] in chain;
      assert Has(list, chain[i]);
    }
    assert key in m ==> Has(list, Node(key, m[key])) by {
      assert key in m ==> Node(key, m[key]).key in m;
    }
    if key in m {
      HasInBucket(hash, list, Node(key, m[key]));
    }
  }

  lemma {:induction false} PutKeeps(hash: Hash, list: seq<Chain>, m: map<Bytes, nat>, key: Bytes, id: nat)
    requires Placed(hash, list) && Represents(list, m)
    ensures var b := Bucket(hash, key, |list|); var chain := list[b]; var i := FindPointer(chain, key);
      var chain' := chain[..i] + [Node(key, id)] + chain[if i < |chain| then i + 1 else i..];
      Placed(hash, list[b := chain']) && Represents(list[b := chain'], m[key := id])
  {
    hide Bucket, Represents;
    var chain := list[Bucket(hash, key, |list|)];
    var i := FindPointer(chain, key);
    var chain' := chain[..i] + [Node(key, id)] + chain[if i < |chain| then i + 1 else i..];
    ChainPut(chain, key, id);
    ChainChange(hash, list, m, key, chain', m[key := id]);
  }

  lemma {:induction false} ChainPut(chain: Chain, key: Bytes, id: nat)
    requires UniqueKeys(chain)
    ensures var i := FindPointer(chain, key);
      var chain' := chain[..i] + [Node(key, id)] + chain[if i < |chain| then i + 1 else i..];
      && UniqueKeys(chain')
      && forall n :: n in chain' <==> n == Node(key, id) || (n.key != key && n in chain)
  {
    var i := FindPointer(chain, key);
    var chain' := chain[..i] + [Node(key, id)] + chain[if i < |chain| then i + 1 else i..];
    if i < |chain| {
      assert chain' == chain[i := Node(key, id)];
      ChainReplace(chain, i, Node(key, id));
    } else {
      assert chain' == chain + [Node(key, id)];
    }
  }

  lemma {:induction false} ChainReplace(chain: Chain, i: nat, x: Node)
    requires UniqueKeys(chain) && i < |chain| && x.key == chain[i].key
    ensures UniqueKeys(chain[i := x])
    ensures forall n :: n in chain[i := x] <==> n == x || (n.key != x.key && n in chain)
  {
    forall n
      ensures n in chain[i := x] <==> n == x || (n.key != x.key && n in chain)
    {
      if n in chain && n.key != x.key {
        var j :| 0 <= j < |chain| && chain[j] == n;
        assert chain[i := x][j] == n;
      }
      assert chain[i := x][i] == x;
    }
  }

  lemma {:induction false} DropKeeps(hash: Hash, list: seq<Chain>, m: map<Bytes, nat>, key: Bytes)
    requires Placed(hash, list) && Represents(list, m)
    requires FindPointer(list[Bucket(hash, key, |list|)], key) < |list[Bucket(hash, key, |list|)]|
    ensures var b := Bucket(hash, key, |list|); var chain := list[b]; var i := FindPointer(chain, key);
      Placed(hash, list[b := chain[..i] + chain[i + 1..]]) && Represents(list[b := chain[..i] + chain[i + 1..]], m - {key})
  {
    hide Bucket, Represents;
    var chain := list[Bucket(hash, key, |list|)];
    var i := FindPointer(chain, key);
    ChainDrop(chain, i);
    ChainChange(hash, list, m, key, chain[..i] + chain[i + 1..], m - {key});
  }

  lemma {:induction false} ChainDrop(chain: Chain, i: nat)
    requires UniqueKeys(chain) && i < |chain|
    ensures var rest := chain[..i] + chain[i + 1..];
      UniqueKeys(rest) && forall n :: n in rest <==> n.key != chain[i].key && n in chain
  {
    var rest := chain[..i] + chain[i + 1..];
    forall a | 0 <= a < |rest|
      ensures rest[a] == chain[if a < i then a else a + 1]
    {
    }
    forall n
      ensures n in rest <==> n.key != chain[i].key && n in chain
    {
      if n in chain && n.key != chain[i].key {
        var j :| 0 <= j < |chain| && chain[j] == n;
        assert rest[if j < i then j else j - 1] == n;
      }
    }
  }

  lemma {:induction false} OneFewer(m: map<Bytes, nat>, key: Bytes)
    requires key in m
    ensures |m - {key}| == |m| - 1
  {
    assert m == (m - {key})[key := m[key]];
  }
}

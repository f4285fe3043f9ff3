/**
 Blocks of prefix-compressed entries with restart points: `BlockBuilder` and `Block::Iter`.

 The iterator over a finished block is a cursor over the very list of entries the builder
 was given, in spite of the compression and of the binary search over restart points.
 */
module Block {
  import opened InternalKeys
  import opened Coding

  datatype Pair = Pair(key: Bytes, value: Bytes)

  /** A comparator: a strict total order on keys. */
  type Less = (Bytes, Bytes) -> bool

  ghost predicate TotalOrder(less: Less)
  {
    && (forall a: Bytes :: !less(a, a))
    && (forall a: Bytes, b: Bytes :: a == b || less(a, b) || less(b, a))
    && (forall a: Bytes, b: Bytes, c: Bytes :: less(a, b) && less(b, c) ==> less(a, c))
  }

  ghost predicate Increasing(less: Less, es: seq<Pair>)
  {
    forall i, j :: 0 <= i < j < |es| ==> less(es[i].key, es[j].key)
  }

  // ------------------------------------------------------------------
  // The format.

  /** The length of the longest common prefix. */
  function Shared(a: Bytes, b: Bytes): (n: nat)
    ensures n <= |a| && n <= |b| && a[..n] == b[..n]
  {
    if a == [] || b == [] || a[0] != b[0] then 0
    else
      var m := Shared(a[1..], b[1..]);
      assert a[..m + 1] == [a[0]] + a[1..][..m] && b[..m + 1] == [b[0]] + b[1..][..m];
      m + 1
  }

  /** How much of entry `i`'s key is taken from the entry before it; nothing at a restart point. */
  function SharedAt(es: seq<Pair>, starts: seq<nat>, i: nat): (n: nat)
    requires i < |es|
    ensures n <= |es[i].key| && (n > 0 ==> i > 0)
    ensures i > 0 ==> n <= |es[i - 1].key| && es[i - 1].key[..n] == es[i].key[..n]
    ensures i in starts ==> n == 0
  {
    if i == 0 || i in starts then 0 else Shared(es[i - 1].key, es[i].key)
  }

  function Sizes(shared: nat, rest: nat, value: nat): (r: Bytes)
    ensures |r| >= 3
  {
    Varint(shared) + Varint(rest) + Varint(value)
  }

  /** The bytes of entry `i`. */
  function Encoded(es: seq<Pair>, starts: seq<nat>, i: nat): (r: Bytes)
    requires i < |es|
    ensures |r| >= 3
  {
    var n := SharedAt(es, starts, i);
    Sizes(n, |es[i].key| - n, |es[i].value|) + es[i].key[n..] + es[i].value
  }

  /** The bytes of the first `n` entries. */
  function Data(es: seq<Pair>, starts: seq<nat>, n: nat): Bytes
    requires n <= |es|
  {
    if n == 0 then [] else Data(es, starts, n - 1) + Encoded(es, starts, n - 1)
  }

  /** Where entry `i` begins. */
  function Offset(es: seq<Pair>, starts: seq<nat>, i: nat): nat
    requires i <= |es|
  {
    |Data(es, starts, i)|
  }

  /** Restart points are entries, the first one among them, in order. */
  ghost predicate GoodStarts(es: seq<Pair>, starts: seq<nat>)
  {
    && |starts| > 0 && starts[0] == 0
    && (forall r :: 0 < r < |starts| ==> starts[r] < |es|)
    && (forall r, q :: 0 <= r < q < |starts| ==> starts[r] < starts[q])
  }

  function FixedAll(ns: seq<nat>): (r: Bytes)
    ensures |r| == 4 * |ns|
  {
    if ns == [] then [] else FixedAll(ns[..|ns| - 1]) + Fixed(ns[|ns| - 1], 4)
  }

  function Offsets(es: seq<Pair>, starts: seq<nat>): (r: seq<nat>)
    requires GoodStarts(es, starts)
    ensures |r| == |starts|
  {
    seq(|starts|, r requires 0 <= r < |starts| => Offset(es, starts, starts[r]))
  }

  /** A finished block. */
  function BlockOf(es: seq<Pair>, starts: seq<nat>): Bytes
    requires GoodStarts(es, starts)
  {
    Data(es, starts, |es|) + FixedAll(Offsets(es, starts)) + Fixed(|starts|, 4)
  }

  // ------------------------------------------------------------------
  // Offsets.

  lemma {:induction false} DataPrefix(es: seq<Pair>, starts: seq<nat>, i: nat, n: nat)
    requires i <= n <= |es|
    ensures Data(es, starts, i) <= Data(es, starts, n)
    ensures i < n ==> Offset(es, starts, i) + 3 <= Offset(es, starts, n)
  {
    hide Encoded;
    if i < n {
      DataPrefix(es, starts, i, n - 1);
    }
  }

  lemma {:induction false} OffsetsInOrder(es: seq<Pair>, starts: seq<nat>, i: nat, j: nat)
    requires i <= |es| && j <= |es|
    ensures i < j <==> Offset(es, starts, i) < Offset(es, starts, j)
  {
    if i < j {
      DataPrefix(es, starts, i, j);
    } else {
      DataPrefix(es, starts, j, i);
    }
  }

  /** Restart points added after entry `n` do not change the bytes up to it. */
  lemma {:induction false} LaterStarts(es: seq<Pair>, starts: seq<nat>, es': seq<Pair>, starts': seq<nat>, n: nat)
    requires n <= |es| && es <= es'
    requires forall i :: 0 <= i < n ==> (i in starts <==> i in starts')
    ensures Data(es', starts', n) == Data(es, starts, n)
  {
    hide Encoded;
    if n > 0 {
      LaterStarts(es, starts, es', starts', n - 1);
      SameEncoding(es, starts, es', starts', n - 1);
    }
  }

  lemma {:induction false} SameEncoding(es: seq<Pair>, starts: seq<nat>, es': seq<Pair>, starts': seq<nat>, i: nat)
    requires i < |es| && es <= es' && (i in starts <==> i in starts')
    ensures Encoded(es', starts', i) == Encoded(es, starts, i)
  {
    hide Sizes;
    assert es'[i] == es[i] && (i > 0 ==> es'[i - 1] == es[i - 1]);
  }

  lemma {:induction false} FixedAt(ns: seq<nat>, r: nat)
    requires r < |ns| && ns[r] < 0x1_0000_0000
    ensures Unfixed(FixedAll(ns)[4 * r..4 * r + 4]) == ns[r]
  {
    var init := ns[..|ns| - 1];
    if r < |ns| - 1 {
      FixedAt(init, r);
      assert FixedAll(ns)[4 * r..4 * r + 4] == FixedAll(init)[4 * r..4 * r + 4];
    } else {
      assert FixedAll(ns)[4 * r..4 * r + 4] == Fixed(ns[r], 4);
      Pow256Four();
      FixedRoundTrip(ns[r], 4);
    }
  }

  // ------------------------------------------------------------------
  // The builder.

  /** The restart points are `interval` entries apart. */
  ghost predicate EveryNth(starts: seq<nat>, interval: nat)
  {
    forall r :: 0 <= r < |starts| ==> starts[r] == r * interval
  }

  /** What the builder holds once it was given the entries `es`. */
  ghost predicate Built(interval: nat, es: seq<Pair>, starts: seq<nat>, buffer: Bytes, restarts: seq<nat>, counter: nat)
  {
    && interval > 0 && GoodStarts(es, starts) && buffer == Data(es, starts, |es|)
    && EveryNth(starts, interval) && restarts == Offsets(es, starts)
    && |es| == starts[|starts| - 1] + counter && counter <= interval
  }

  function LastKey(es: seq<Pair>): Bytes
  {
    if es == [] then [] else es[|es| - 1].key
  }

  /** An entry that is not a restart point. */
  lemma {:induction false} AddShared(interval: nat, es: seq<Pair>, starts: seq<nat>, buffer: Bytes,
                                     restarts: seq<nat>, counter: nat, p: Pair)
    requires Built(interval, es, starts, buffer, restarts, counter) && counter < interval
    ensures var n := Shared(LastKey(es), p.key);
      Built(interval, es + [p], starts,
            buffer + Sizes(n, |p.key| - n, |p.value|) + p.key[n..] + p.value, restarts, counter + 1)
  {
    hide Data, Sizes;
    var es' := es + [p];
    LaterStarts(es, starts, es', starts, |es|);
    forall r | 0 <= r < |starts|
      ensures starts[r] <= |es| && Data(es', starts, starts[r]) == Data(es, starts, starts[r])
    {
      assert r < |starts| - 1 ==> starts[r] < starts[|starts| - 1];
      LaterStarts(es, starts, es', starts, starts[r]);
    }
    assert Offsets(es', starts) == Offsets(es, starts);
    if |es| in starts {
      var r :| 0 <= r < |starts| && starts[r] == |es|;
      assert r == 0;
    }
    DataSnoc(es', starts);
    EncodedIs(es', starts, |es|, Shared(LastKey(es), p.key), buffer);
  }

  /** An entry that is a restart point. */
  lemma {:induction false} AddRestart(interval: nat, es: seq<Pair>, starts: seq<nat>, buffer: Bytes,
                                      restarts: seq<nat>, p: Pair)
    requires Built(interval, es, starts, buffer, restarts, interval)
    ensures Built(interval, es + [p], starts + [|es|], buffer + Sizes(0, |p.key| - 0, |p.value|) + p.key[0..] + p.value,
                  restarts + [|buffer|], 1)
  {
    hide Data, Sizes;
    var es', starts', k := es + [p], starts + [|es|], |starts|;
    assert starts'[k] == (k - 1) * interval + interval == k * interval;
    forall r | 0 <= r < |starts|
      ensures starts[r] <= starts[k - 1]
    {
    }
    LaterStarts(es, starts, es', starts', |es|);
    forall r | 0 <= r < |starts|
      ensures Data(es', starts', starts[r]) == Data(es, starts, starts[r])
    {
      LaterStarts(es, starts, es', starts', starts[r]);
    }
    assert GoodStarts(es', starts');
    assert Offsets(es', starts') == Offsets(es, starts) + [|buffer|];
    DataSnoc(es', starts');
    assert starts'[k] in starts';
    EncodedIs(es', starts', |es|, 0, buffer);
  }

  lemma {:induction false} DataSnoc(es: seq<Pair>, starts: seq<nat>)
    requires es != []
    ensures Data(es, starts, |es|) == Data(es, starts, |es| - 1) + Encoded(es, starts, |es| - 1)
  {
  }

  lemma {:induction false} EncodedIs(es: seq<Pair>, starts: seq<nat>, i: nat, n: nat, buffer: Bytes)
    requires i < |es| && n == SharedAt(es, starts, i)
    ensures buffer + Encoded(es, starts, i)
         == buffer + Sizes(n, |es[i].key| - n, |es[i].value|) + es[i].key[n..] + es[i].value
  {
  }

  class BlockBuilder {
    const interval: nat
    var buffer: Bytes
    var restarts: seq<nat>
    var counter: nat
    var finished: bool
    var lastKey: Bytes
    ghost var es: seq<Pair>
    ghost var starts: seq<nat>

    ghost predicate Valid()
      reads this
    {
      !finished && Built(interval, es, starts, buffer, restarts, counter) && lastKey == LastKey(es)
    }

    constructor (interval: nat)
      requires interval > 0
      ensures Valid() && es == [] && this.interval == interval
    {
      this.interval := interval;
      buffer, restarts, counter, finished, lastKey := [], [0], 0, false, [];
      es, starts := [], [0];
    }

    method Reset()
      requires interval > 0
      modifies this
      ensures Valid() && es == []
    {
      buffer, restarts, counter, finished, lastKey := [], [0], 0, false, [];
      es, starts := [], [0];
    }

    method Add(key: Bytes, value: Bytes)
      requires Valid()
      modifies this
      ensures Valid() && es == old(es) + [Pair(key, value)]
    {
      hide Built, Sizes, Shared, LastKey;
      var shared := 0;
      if counter < interval {
        var minLength := if |lastKey| < |key| then |lastKey| else |key|;
        while shared < minLength && lastKey[shared] == key[shared]
          invariant shared <= minLength && lastKey[..shared] == key[..shared]
          decreases minLength - shared
        {
          shared := shared + 1;
        }
        LongestShared(lastKey, key, shared);
        AddShared(interval, es, starts, buffer, restarts, counter, Pair(key, value));
      } else {
        CounterAtMost(interval, es, starts, buffer, restarts, counter);
        AddRestart(interval, es, starts, buffer, restarts, Pair(key, value));
        restarts := restarts + [|buffer|];
        starts := starts + [|es|];
        counter := 0;
      }
      assert Built(interval, es + [Pair(key, value)], starts,
                   buffer + Sizes(shared, |key| - shared, |value|) + key[shared..] + value, restarts, counter + 1);
      assert lastKey[..shared] + key[shared..] == key;
      assert LastKey(es + [Pair(key, value)]) == key by {
        LastKeyIs(es, Pair(key, value));
      }
      var nonShared := |key| - shared;
      buffer := buffer + Sizes(shared, nonShared, |value|);
      buffer := buffer + key[shared..];
      buffer := buffer + value;
      es := es + [Pair(key, value)];
      lastKey := lastKey[..shared];
      lastKey := lastKey + key[shared..];
      counter := counter + 1;
    }

    /** The block of the entries added, with every `interval`-th a restart point. */
    method Finish() returns (block: Bytes)
      requires Valid()
      modifies this
      ensures GoodStarts(es, starts) && EveryNth(starts, interval) && |es| <= |starts| * interval
      ensures block == BlockOf(es, starts) && es == old(es) && finished
    {
      hide Built, BlockOf, GoodStarts, EveryNth, Fixed, Data;
      FinishedIs(interval, es, starts, buffer, restarts, counter);
      ghost var data := buffer;
      for i := 0 to |restarts|
        invariant restarts == old(restarts) && es == old(es) && starts == old(starts)
        invariant buffer == data + FixedAll(restarts[..i])
      {
        assert restarts[..i + 1][..i] == restarts[..i];
        buffer := buffer + Fixed(restarts[i], 4);
      }
      assert restarts[..|restarts|] == restarts;
      buffer := buffer + Fixed(|restarts|, 4);
      finished := true;
      block := buffer;
    }
  }

  lemma {:induction false} FinishedIs(interval: nat, es: seq<Pair>, starts: seq<nat>, buffer: Bytes,
                                      restarts: seq<nat>, counter: nat)
    requires Built(interval, es, starts, buffer, restarts, counter)
    ensures GoodStarts(es, starts) && EveryNth(starts, interval) && |es| <= |starts| * interval
    ensures buffer + FixedAll(restarts) + Fixed(|restarts|, 4) == BlockOf(es, starts)
  {
    hide Fixed, FixedAll, Data;
    var k := |starts|;
    assert k * interval == (k - 1) * interval + interval;
  }

  lemma {:induction false} LastKeyIs(es: seq<Pair>, p: Pair)
    ensures LastKey(es + [p]) == p.key
  {
  }

  lemma {:induction false} CounterAtMost(interval: nat, es: seq<Pair>, starts: seq<nat>, buffer: Bytes,
                                         restarts: seq<nat>, counter: nat)
    requires Built(interval, es, starts, buffer, restarts, counter)
    ensures counter <= interval
  {
  }

  lemma {:induction false} LongestShared(a: Bytes, b: Bytes, n: nat)
    requires n <= |a| && n <= |b| && a[..n] == b[..n]
    requires n < |a| && n < |b| ==> a[n] != b[n]
    ensures n == Shared(a, b)
  {
    if n > 0 {
      assert a[0] == a[..n][0] && b[0] == b[..n][0];
      assert a[1..][..n - 1] == a[..n][1..] && b[1..][..n - 1] == b[..n][1..];
      LongestShared(a[1..], b[1..], n - 1);
    }
  }

  // ------------------------------------------------------------------
  // Reading a block.

  /** `Block::Block` and `Block::NumRestarts`: where the restart array begins and how long it is. */
  function OpenBlock(block: Bytes): Option<(nat, nat)>
  {
    if |block| < 4 then None
    else
      var n := Unfixed(block[|block| - 4..]);
      if n > (|block| - 4) / 4 then None else Some((|block| - (1 + n) * 4, n))
  }

  function ReadThree(input: Bytes): Option<((nat, nat, nat), Bytes)>
  {
    match GetVarint(input, 32)
    case None => None
    case Some((a, i1)) =>
      match GetVarint(i1, 32)
      case None => None
      case Some((b, i2)) =>
        match GetVarint(i2, 32)
        case None => None
        case Some((c, i3)) => Some(((a, b, c), i3))
  }

  /** `DecodeEntry`: the three sizes at the start of `input` and what follows them. */
  function DecodeEntry(input: Bytes): Option<((nat, nat, nat), Bytes)>
  {
    if |input| < 3 then None
    else
      var r: Option<((nat, nat, nat), Bytes)> :=
        if input[0] < 128 && input[1] < 128 && input[2] < 128
        then Some(((input[0] as nat, input[1] as nat, input[2] as nat), input[3..])) else ReadThree(input);
      if r.None? then None
      else if |r.value.1| < (r.value.0.1 + r.value.0.2) % 0x1_0000_0000 then None else r
  }

  /** The fast path reads what the general one would. */
  lemma {:induction false} FastPath(input: Bytes)
    requires |input| >= 3 && input[0] < 128 && input[1] < 128 && input[2] < 128
    ensures ReadThree(input) == Some(((input[0] as nat, input[1] as nat, input[2] as nat), input[3..]))
  {
    OneByte(input);
    OneByte(input[1..]);
    assert input[1..][1..] == input[2..];
    OneByte(input[2..]);
    assert input[2..][1..] == input[3..];
  }

  lemma {:induction false} OneByte(input: Bytes)
    requires |input| > 0 && input[0] < 128
    ensures GetVarint(input, 32) == Some((input[0] as nat, input[1..]))
  {
  }

  lemma {:induction false} SizesRoundTrip(a: nat, b: nat, c: nat, rest: Bytes)
    requires a < 0x1_0000_0000 && b < 0x1_0000_0000 && c < 0x1_0000_0000 && b + c < 0x1_0000_0000 && b + c <= |rest|
    ensures DecodeEntry(Sizes(a, b, c) + rest) == Some(((a, b, c), rest))
  {
    var i2 := Varint(c) + rest;
    var i1 := Varint(b) + i2;
    var input := Sizes(a, b, c) + rest;
    hide Varint;
    assert input == Varint(a) + i1;
    hide GetVarint;
    VarintRoundTrip(a, 32, i1);
    VarintRoundTrip(b, 32, i2);
    VarintRoundTrip(c, 32, rest);
    if input[0] < 128 && input[1] < 128 && input[2] < 128 {
      FastPath(input);
    }
  }

  ghost predicate Small(es: seq<Pair>, starts: seq<nat>)
    requires GoodStarts(es, starts)
  {
    |BlockOf(es, starts)| < 0x1_0000_0000
  }

  /** Entry `i` reads back from where it begins. */
  lemma {:induction false} EntryDecodes(es: seq<Pair>, starts: seq<nat>, i: nat)
    requires i < |es| && |Data(es, starts, |es|)| < 0x1_0000_0000
    ensures var n := SharedAt(es, starts, i); var all := Data(es, starts, |es|);
      && Offset(es, starts, i) <= Offset(es, starts, i + 1) <= |all|
      && DecodeEntry(all[Offset(es, starts, i)..])
           == Some(((n, |es[i].key| - n, |es[i].value|), es[i].key[n..] + es[i].value + all[Offset(es, starts, i + 1)..]))
  {
    hide Sizes, DecodeEntry, Data, SharedAt;
    var n, all := SharedAt(es, starts, i), Data(es, starts, |es|);
    DataSplits(es, starts, i);
    var sizes, body := Sizes(n, |es[i].key| - n, |es[i].value|), es[i].key[n..] + es[i].value;
    var tail := all[Offset(es, starts, i + 1)..];
    assert Encoded(es, starts, i) == sizes + body;
    assert all[Offset(es, starts, i)..] == Encoded(es, starts, i) + tail == sizes + (body + tail);
    KeyFits(es, starts, i);
    SizesRoundTrip(n, |es[i].key| - n, |es[i].value|, body + tail);
  }

  /** A key is no longer than the bytes up to the end of its entry. */
  lemma {:induction false} KeyFits(es: seq<Pair>, starts: seq<nat>, i: nat)
    requires i < |es|
    ensures |es[i].key| <= Offset(es, starts, i + 1)
  {
    hide Sizes;
    if i > 0 {
      KeyFits(es, starts, i - 1);
    }
    assert |Encoded(es, starts, i)| >= |es[i].key| - SharedAt(es, starts, i);
  }

  lemma {:induction false} DataSplits(es: seq<Pair>, starts: seq<nat>, i: nat)
    requires i < |es|
    ensures Offset(es, starts, i + 1) == Offset(es, starts, i) + |Encoded(es, starts, i)| <= |Data(es, starts, |es|)|
    ensures Data(es, starts, |es|)
         == Data(es, starts, i) + Encoded(es, starts, i) + Data(es, starts, |es|)[Offset(es, starts, i + 1)..]
  {
    hide Encoded;
    DataPrefix(es, starts, i + 1, |es|);
  }

  lemma {:induction false} BlockOpens(es: seq<Pair>, starts: seq<nat>)
    requires GoodStarts(es, starts) && Small(es, starts)
    ensures OpenBlock(BlockOf(es, starts)) == Some((Offset(es, starts, |es|), |starts|))
  {
    hide Data, Fixed, Unfixed, FixedAll;
    var block := BlockOf(es, starts);
    assert block[|block| - 4..] == Fixed(|starts|, 4);
    Pow256Four();
    FixedRoundTrip(|starts|, 4);
  }

  lemma {:induction false} RestartDecodes(es: seq<Pair>, starts: seq<nat>, r: nat)
    requires GoodStarts(es, starts) && Small(es, starts) && r < |starts|
    ensures var p := Offset(es, starts, |es|) + 4 * r;
      && p + 4 <= |BlockOf(es, starts)| && starts[r] <= |es|
      && Unfixed(BlockOf(es, starts)[p..p + 4]) == Offset(es, starts, starts[r])
  {
    hide Data, Fixed, Unfixed, FixedAll;
    var block, all := BlockOf(es, starts), FixedAll(Offsets(es, starts));
    var d := Offset(es, starts, |es|);
    assert block[d + 4 * r..d + 4 * r + 4] == all[4 * r..4 * r + 4];
    DataPrefix(es, starts, starts[r], |es|);
    FixedAt(Offsets(es, starts), r);
  }

  // ------------------------------------------------------------------
  // The iterator.

  class Iter {
    const less: Less
    const block: Bytes
    const restarts: nat
    const numRestarts: nat
    var current: nat
    var restartIndex: nat
    var key: Bytes
    var valueStart: nat
    var valueSize: nat
    var corrupt: bool
    ghost const es: seq<Pair>
    ghost const starts: seq<nat>
    ghost var cur: nat

    /** The block is a finished one for `es`. */
    ghost predicate Fixture()
    {
      && GoodStarts(es, starts) && Small(es, starts) && block == BlockOf(es, starts)
      && restarts == Offset(es, starts, |es|) && numRestarts == |starts|
      && TotalOrder(less) && Increasing(less, es)
    }

    /** The next entry to parse is `i`, and the key holds what it shares. */
    ghost predicate Before(i: nat)
      reads this
    {
      && i <= |es| && valueStart + valueSize == Offset(es, starts, i) && !corrupt
      && (i < |es| ==>
            && SharedAt(es, starts, i) <= |key|
            && key[..SharedAt(es, starts, i)] == es[i].key[..SharedAt(es, starts, i)]
            && RestartNear(es, starts, restartIndex, i))
    }

    /** The iterator stands at entry `cur`, or nowhere when that is the end. */
    ghost predicate Valid()
      reads this
    {
      && Fixture() && cur <= |es| && !corrupt && current == Offset(es, starts, cur)
      && (cur < |es| ==>
            && key == es[cur].key && valueStart + valueSize == Offset(es, starts, cur + 1) <= |block|
            && block[valueStart..valueStart + valueSize] == es[cur].value
            && RestartNear(es, starts, restartIndex, cur))
    }

    constructor (less: Less, block: Bytes, ghost es: seq<Pair>, ghost starts: seq<nat>)
      requires GoodStarts(es, starts) && Small(es, starts) && block == BlockOf(es, starts)
      requires TotalOrder(less) && Increasing(less, es)
      ensures Valid() && cur == |es| && this.es == es && this.starts == starts && this.less == less
    {
      BlockOpens(es, starts);
      var place := OpenBlock(block).value;
      this.less, this.block, this.es, this.starts := less, block, es, starts;
      restarts, numRestarts := place.0, place.1;
      current, restartIndex, key, valueStart, valueSize, corrupt := place.0, place.1, [], 0, 0, false;
      cur := |es|;
    }

    method GetRestartPoint(r: nat) returns (offset: nat)
      requires Fixture() && r < numRestarts
      ensures starts[r] <= |es| && offset == Offset(es, starts, starts[r])
    {
      hide BlockOf, Unfixed;
      RestartDecodes(es, starts, r);
      offset := Unfixed(block[restarts + 4 * r..restarts + 4 * r + 4]);
    }

    method SeekToRestartPoint(r: nat)
      requires Fixture() && r < numRestarts && !corrupt
      modifies this
      ensures Before(starts[r]) && restartIndex == r
    {
      key, restartIndex := [], r;
      var offset := GetRestartPoint(r);
      valueStart, valueSize := offset, 0;
      assert starts[r] in starts;
    }

    method ParseNextKey(ghost i: nat) returns (more: bool)
      requires Fixture() && Before(i)
      modifies this
      ensures Valid() && cur == i && (more <==> i < |es|)
    {
      hide Data, SharedAt, DecodeEntry, Small, BlockOf, TotalOrder, Increasing;
      current := valueStart + valueSize;
      cur := i;
      OffsetsInOrder(es, starts, i, |es|);
      if current >= restarts {
        current, restartIndex := restarts, numRestarts;
        return false;
      }
      DataInBlock(es, starts);
      EntryDecodes(es, starts, i);
      EntryBytes(es, starts, i, block);
      var (sizes, rest) := DecodeEntry(block[current..restarts]).value;
      var (shared, nonShared, valueLength) := sizes;
      key := key[..shared];
      key := key + rest[..nonShared];
      valueStart, valueSize := restarts - |rest| + nonShared, valueLength;
      assert key == es[i].key[..shared] + es[i].key[shared..] == es[i].key;
      AdvanceRestart();
      more := true;
    }

    method SeekToFirst()
      requires Valid()
      modifies this
      ensures Valid() && cur == 0
    {
      hide Data, BlockOf, Small, TotalOrder, Increasing, SharedAt;
      SeekToRestartPoint(0);
      var more := ParseNextKey(0);
    }

    method SeekToLast()
      requires Valid()
      modifies this
      ensures Valid() && cur == if es == [] then 0 else |es| - 1
    {
      hide Data, BlockOf, Small, TotalOrder, Increasing, SharedAt;
      SeekToRestartPoint(numRestarts - 1);
      ghost var i := starts[numRestarts - 1];
      var more := ParseNextKey(i);
      while more && valueStart + valueSize < restarts
        invariant Valid() && cur == i && (more <==> i < |es|) && (es != [] ==> more)
        invariant more ==> valueStart + valueSize == Offset(es, starts, i + 1)
        decreases |es| - i
      {
        OffsetsInOrder(es, starts, i + 1, |es|);
        ReadyForNext(es, starts, i);
        i := i + 1;
        more := ParseNextKey(i);
      }
      if more {
        OffsetsInOrder(es, starts, i + 1, |es|);
      }
    }

    method Next()
      requires Valid() && cur < |es|
      modifies this
      ensures Valid() && cur == old(cur) + 1
    {
      hide Data, BlockOf, Small, TotalOrder, Increasing, SharedAt;
      ReadyForNext(es, starts, cur);
      var more := ParseNextKey(cur + 1);
    }

    /** The entry before the current one; nowhere before the first. */
    method Prev()
      requires Valid() && cur < |es|
      modifies this
      ensures Valid() && cur == if old(cur) == 0 then |es| else old(cur) - 1
    {
      hide Data, BlockOf, Small, TotalOrder, Increasing, SharedAt;
      var original := current;
      ghost var c := cur;
      while true
        invariant Valid() && cur == c && current == original
        decreases restartIndex
      {
        var offset := GetRestartPoint(restartIndex);
        OffsetsInOrder(es, starts, starts[restartIndex], c);
        if offset < original {
          break;
        }
        if restartIndex == 0 {
          current, restartIndex, cur := restarts, numRestarts, |es|;
          return;
        }
        restartIndex := restartIndex - 1;
      }
      SeekToRestartPoint(restartIndex);
      ghost var i := starts[restartIndex];
      var more := ParseNextKey(i);
      while more && valueStart + valueSize < original
        invariant Valid() && cur == i < c && more && valueStart + valueSize == Offset(es, starts, i + 1)
        decreases c - i
      {
        OffsetsInOrder(es, starts, i + 1, c);
        ReadyForNext(es, starts, i);
        i := i + 1;
        more := ParseNextKey(i);
      }
      OffsetsInOrder(es, starts, i + 1, c);
    }

    /** The first entry whose key is at or after `target`. */
    method Seek(target: Bytes)
      requires Valid()
      modifies this
      ensures Valid() && (cur < |es| ==> !less(es[cur].key, target))
      ensures forall j :: 0 <= j < cur ==> less(es[j].key, target)
    {
      hide Data, BlockOf, Small, TotalOrder, Increasing, SharedAt, DecodeEntry;
      var left, right := 0, numRestarts - 1;
      while left < right
        invariant 0 <= left <= right < numRestarts && Valid()
        invariant left > 0 ==> starts[left] < |es| && less(es[starts[left]].key, target)
      {
        var mid := (left + right + 1) / 2;
        var offset := GetRestartPoint(mid);
        DataInBlock(es, starts);
        EntryDecodes(es, starts, starts[mid]);
        EntryBytes(es, starts, starts[mid], block);
        assert starts[mid] in starts;
        var r := DecodeEntry(block[offset..restarts]);
        if r.None? || r.value.0.0 != 0 {
          assert false;
        }
        var midKey := r.value.1[..r.value.0.1];
        assert midKey == es[starts[mid]].key;
        if less(midKey, target) {
          left := mid;
        } else {
          right := mid - 1;
        }
      }
      SeekToRestartPoint(left);
      ghost var i := starts[left];
      SmallerBefore(less, es, i, target);
      while true
        invariant Fixture() && Before(i) && forall j :: 0 <= j < i ==> less(es[j].key, target)
        decreases |es| - i
      {
        var more := ParseNextKey(i);
        if !more || !less(key, target) {
          return;
        }
        ReadyForNext(es, starts, i);
        i := i + 1;
      }
    }

    /** The restart index catches up with the current entry. */
    method AdvanceRestart()
      requires Fixture() && cur < |es| && current == Offset(es, starts, cur) && RestartNear(es, starts, restartIndex, cur)
      modifies `restartIndex
      ensures RestartNear(es, starts, restartIndex, cur)
    {
      hide Data, BlockOf, Small, TotalOrder, Increasing;
      while restartIndex + 1 < numRestarts
        invariant RestartNear(es, starts, restartIndex, cur)
        decreases numRestarts - restartIndex
      {
        var offset := GetRestartPoint(restartIndex + 1);
        OffsetsInOrder(es, starts, starts[restartIndex + 1], cur);
        if offset >= current {
          break;
        }
        restartIndex := restartIndex + 1;
      }
    }
  }

  /** A parsed key holds what the next entry shares with it. */
  lemma {:induction false} ReadyForNext(es: seq<Pair>, starts: seq<nat>, i: nat)
    requires i < |es|
    ensures i + 1 < |es| ==>
      && SharedAt(es, starts, i + 1) <= |es[i].key|
      && es[i].key[..SharedAt(es, starts, i + 1)] == es[i + 1].key[..SharedAt(es, starts, i + 1)]
  {
  }

  lemma {:induction false} SmallerBefore(less: Less, es: seq<Pair>, i: nat, target: Bytes)
    requires TotalOrder(less) && Increasing(less, es)
    requires i > 0 ==> i < |es| && less(es[i].key, target)
    ensures forall j :: 0 <= j < i ==> less(es[j].key, target)
  {
  }

  /** Restart point `r` is at or before entry `i`. */
  ghost predicate RestartNear(es: seq<Pair>, starts: seq<nat>, r: nat, i: nat)
  {
    r < |starts| && starts[r] <= i
  }

  lemma {:induction false} DataInBlock(es: seq<Pair>, starts: seq<nat>)
    requires GoodStarts(es, starts)
    ensures Offset(es, starts, |es|) <= |BlockOf(es, starts)|
    ensures Small(es, starts) ==> Offset(es, starts, |es|) < 0x1_0000_0000
    ensures BlockOf(es, starts)[..Offset(es, starts, |es|)] == Data(es, starts, |es|)
  {
    hide Data, FixedAll, Fixed;
  }

  lemma {:induction false} EntryBytes(es: seq<Pair>, starts: seq<nat>, i: nat, block: Bytes)
    requires GoodStarts(es, starts) && block == BlockOf(es, starts) && i < |es|
    ensures var a, b, c := Offset(es, starts, i), Offset(es, starts, i + 1), Offset(es, starts, |es|);
      && a <= b <= c <= |block| && block[a..c] == Data(es, starts, |es|)[a..]
      && |es[i].value| <= b && block[b - |es[i].value|..b] == es[i].value
  {
    hide Data, BlockOf;
    DataInBlock(es, starts);
    DataSplits(es, starts, i);
    var a, b, all := Offset(es, starts, i), Offset(es, starts, i + 1), Data(es, starts, |es|);
    assert block[a..|all|] == block[..|all|][a..];
    var v := es[i].value;
    assert Encoded(es, starts, i)[|Encoded(es, starts, i)| - |v|..] == v;
    assert all[b - |v|..b] == v;
    assert block[b - |v|..b] == block[..|all|][b - |v|..b];
  }
}

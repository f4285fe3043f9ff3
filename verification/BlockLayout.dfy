/**
 The bytes of a finished block, in numbers, and the proof that they are what `BlockBuilder`
 writes and what the iterator reads.
 */
module BlockLayout {
  import opened InternalKeys
  import opened Coding
  import opened ByteLayout
  import opened Block

  /** `n` is the length of the longest common prefix. */
  predicate IsLongest(a: Bytes, b: Bytes, n: nat)
  {
    n <= |a| && n <= |b| && a[..n] == b[..n] && (n < |a| && n < |b| ==> a[n] != b[n])
  }

  /** Three numbers, what the key does not share with the one before it, and the value. */
  ghost predicate EntryAt(b: Bytes, at: nat, shared: nat, p: Pair, end: nat)
    requires shared <= |p.key|
  {
    exists m: nat, k: nat, l: nat ::
      && VarintAt(b, at, shared, m) && VarintAt(b, m, |p.key| - shared, k) && VarintAt(b, k, |p.value|, l)
      && Holds(b, l, p.key[shared..]) && Holds(b, l + |p.key| - shared, p.value) && end == l + |p.key| - shared + |p.value|
  }

  /** Every `interval`-th entry shares nothing with the one before it, any other all it can. */
  predicate Shares(es: seq<Pair>, interval: nat, i: nat, shared: nat)
    requires interval > 0 && i < |es|
  {
    && shared <= |es[i].key|
    && (if i % interval == 0 then shared == 0 else i > 0 && IsLongest(es[i - 1].key, es[i].key, shared))
  }

  ghost predicate EntryLaidOut(b: Bytes, es: seq<Pair>, interval: nat, offs: seq<nat>, i: nat)
    requires interval > 0 && i < |es| && |offs| == |es| + 1
  {
    exists shared: nat :: Shares(es, interval, i, shared) && EntryAt(b, offs[i], shared, es[i], offs[i + 1])
  }

  function NumRestarts(n: nat, interval: nat): nat
    requires interval > 0
  {
    if n == 0 then 1 else (n - 1) / interval + 1
  }

  /** The entries end to end, a word for every restart point saying where its entry is, and the number of those words. */
  ghost predicate BlockLaidOut(block: Bytes, es: seq<Pair>, interval: nat, offs: seq<nat>)
    requires interval > 0
  {
    var num := NumRestarts(|es|, interval);
    && |offs| == |es| + 1 && offs[0] == 0
    && (forall i :: 0 <= i < |es| ==> EntryLaidOut(block, es, interval, offs, i))
    && |block| == offs[|es|] + 4 * num + 4 && WordAt(block, offs[|es|] + 4 * num, num)
    && forall r :: 0 <= r < num ==> RestartLaidOut(block, |es|, interval, offs, r)
  }

  ghost predicate RestartLaidOut(block: Bytes, n: nat, interval: nat, offs: seq<nat>, r: nat)
    requires |offs| == n + 1
  {
    r * interval <= n && WordAt(block, offs[n] + 4 * r, offs[r * interval])
  }

  // ------------------------------------------------------------------
  // Restart points.

  lemma {:induction false} CountIs(n: nat, interval: nat, k: nat)
    requires interval > 0 && k > 0 && n <= k * interval && (k > 1 ==> (k - 1) * interval < n)
    ensures NumRestarts(n, interval) == k
  {
    OneMore(interval, k - 1);
    if n > 0 {
      NoMultiple(interval);
      Quotient(n - 1, interval, k - 1, n - 1 - (k - 1) * interval);
    } else if k > 1 {
      StartsApart(interval, 0, k - 1);
    }
  }

  function EveryStart(n: nat, interval: nat): (starts: seq<nat>)
    requires interval > 0
    ensures |starts| == NumRestarts(n, interval)
  {
    seq(NumRestarts(n, interval), r requires 0 <= r => r * interval)
  }

  lemma {:induction false} Multiple(r: nat, interval: nat)
    requires interval > 0
    ensures r * interval % interval == 0 && r * interval / interval == r
  {
    Quotient(r * interval, interval, r, 0);
    assert interval * (r * interval / interval) + r * interval % interval == r * interval;
  }

  /** An entry is a restart point exactly if its number is a multiple of the interval. */
  lemma {:induction false} InStarts(n: nat, interval: nat, i: nat)
    requires interval > 0 && i < n
    ensures i in EveryStart(n, interval) <==> i % interval == 0
  {
    var starts := EveryStart(n, interval);
    if i in starts {
      var r :| 0 <= r < |starts| && starts[r] == i;
      Multiple(r, interval);
    }
    if i % interval == 0 {
      var r := i / interval;
      assert i == interval * r;
      Ordered(i, n - 1, interval);
      assert starts[r] == i;
    }
  }

  lemma {:induction false} Ordered(a: nat, b: nat, d: nat)
    requires d > 0 && a <= b
    ensures a / d <= b / d
  {
    assert d * (a / d) + a % d == a && d * (b / d) + b % d == b;
    var e := a / d - b / d;
    assert d * e == d * (a / d) - d * (b / d);
    assert e >= 1 ==> d * e >= d;
  }

  lemma {:induction false} GoodEveryStart(es: seq<Pair>, interval: nat)
    requires interval > 0
    ensures GoodStarts(es, EveryStart(|es|, interval)) && EveryNth(EveryStart(|es|, interval), interval)
    ensures forall r :: 0 <= r < NumRestarts(|es|, interval) ==> r * interval <= |es|
  {
    var starts, n := EveryStart(|es|, interval), |es|;
    forall r | 0 <= r < |starts|
      ensures starts[r] == r * interval <= n && (r > 0 ==> starts[r] < n)
    {
      StartInside(n, interval, r);
    }
    forall r, q | 0 <= r < q < |starts|
      ensures starts[r] < starts[q]
    {
      StartsApart(interval, r, q);
    }
    NoMultiple(interval);
    hide NumRestarts;
  }

  lemma {:induction false} NoMultiple(interval: nat)
    ensures 0 * interval == 0
  {
  }

  lemma {:induction false} StartInside(n: nat, interval: nat, r: nat)
    requires interval > 0 && r < NumRestarts(n, interval)
    ensures r * interval <= n && (r > 0 ==> r * interval < n)
  {
    if r > 0 {
      var q := (n - 1) / interval;
      assert interval * q + (n - 1) % interval == n - 1;
      assert q * interval == r * interval + (q - r) * interval;
      assert (q - r) * interval >= 0;
    } else {
      NoMultiple(interval);
    }
  }

  lemma {:induction false} StartsApart(interval: nat, r: nat, q: nat)
    requires interval > 0 && r < q
    ensures r * interval < q * interval
    decreases q
  {
    OneMore(interval, q - 1);
    if r < q - 1 {
      StartsApart(interval, r, q - 1);
    }
  }

  lemma {:induction false} OneMore(interval: nat, r: nat)
    ensures (r + 1) * interval == r * interval + interval
  {
  }

  // ------------------------------------------------------------------
  // Entries.

  lemma {:induction false} EntryIs(b: Bytes, at: nat, shared: nat, p: Pair, end: nat)
    requires shared <= |p.key|
    ensures EntryAt(b, at, shared, p, end) <==>
      var part := Sizes(shared, |p.key| - shared, |p.value|) + p.key[shared..] + p.value;
      end == at + |part| && Holds(b, at, part)
  {
    hide Varint, VarintAt, Holds;
    var x, y, z := Varint(shared), Varint(|p.key| - shared), Varint(|p.value|);
    var rest := p.key[shared..];
    var m := at + |x|;
    var k := m + |y|;
    var l := k + |z|;
    HoldsBoth(b, at, x + y + z + rest, p.value);
    HoldsBoth(b, at, x + y + z, rest);
    HoldsBoth(b, at, x + y, z);
    HoldsBoth(b, at, x, y);
    VarintIs(b, at, shared, m);
    VarintIs(b, m, |p.key| - shared, k);
    VarintIs(b, k, |p.value|, l);
    if EntryAt(b, at, shared, p, end) {
      var m': nat, k': nat, l': nat :|
        && VarintAt(b, at, shared, m') && VarintAt(b, m', |p.key| - shared, k') && VarintAt(b, k', |p.value|, l')
        && Holds(b, l', p.key[shared..]) && Holds(b, l' + |p.key| - shared, p.value)
        && end == l' + |p.key| - shared + |p.value|;
      VarintIs(b, at, shared, m');
      VarintIs(b, m', |p.key| - shared, k');
      VarintIs(b, k', |p.value|, l');
    }
  }

  /** An entry is laid out exactly if its bytes are there. */
  lemma {:induction false} EntryIsEncoded(b: Bytes, es: seq<Pair>, interval: nat, offs: seq<nat>, i: nat)
    requires interval > 0 && i < |es| && |offs| == |es| + 1
    ensures EntryLaidOut(b, es, interval, offs, i) <==>
      var part := Encoded(es, EveryStart(|es|, interval), i);
      offs[i + 1] == offs[i] + |part| && Holds(b, offs[i], part)
  {
    hide Sizes, EntryAt, Holds, Shared;
    var starts := EveryStart(|es|, interval);
    var shared := SharedAt(es, starts, i);
    InStarts(|es|, interval, i);
    EntryIs(b, offs[i], shared, es[i], offs[i + 1]);
    if i % interval != 0 {
      SharedIsLongest(es[i - 1].key, es[i].key);
    }
    assert Shares(es, interval, i, shared);
    if EntryLaidOut(b, es, interval, offs, i) {
      var s: nat :| Shares(es, interval, i, s) && EntryAt(b, offs[i], s, es[i], offs[i + 1]);
      if i % interval != 0 {
        LongestShared(es[i - 1].key, es[i].key, s);
      }
    }
  }

  lemma {:induction false} SharedIsLongest(a: Bytes, b: Bytes)
    ensures IsLongest(a, b, Shared(a, b))
  {
    var n := Shared(a, b);
    if a != [] && b != [] && a[0] == b[0] {
      SharedIsLongest(a[1..], b[1..]);
    }
  }

  // ------------------------------------------------------------------
  // Blocks.

  function OffsetsOf(es: seq<Pair>, starts: seq<nat>): (offs: seq<nat>)
    ensures |offs| == |es| + 1
  {
    seq(|es| + 1, i requires 0 <= i <= |es| => Offset(es, starts, i))
  }

  lemma {:induction false} RestartIsStored(es: seq<Pair>, interval: nat, offs: seq<nat>, r: nat)
    requires interval > 0 && offs == OffsetsOf(es, EveryStart(|es|, interval)) && r < NumRestarts(|es|, interval)
    requires GoodStarts(es, EveryStart(|es|, interval)) && Small(es, EveryStart(|es|, interval))
    ensures RestartLaidOut(BlockOf(es, EveryStart(|es|, interval)), |es|, interval, offs, r)
  {
    hide Data, BlockOf, Small, Unfixed, NumRestarts;
    GoodEveryStart(es, interval);
    var starts := EveryStart(|es|, interval);
    var block := BlockOf(es, starts);
    RestartDecodes(es, starts, r);
    var p := offs[|es|] + 4 * r;
    UnfixedBytes(block[p..p + 4]);
    assert starts[r] == r * interval;
  }

  /** What the builder writes is laid out so. */
  lemma {:induction false} BlockIsLaidOut(es: seq<Pair>, interval: nat) returns (offs: seq<nat>)
    requires interval > 0 && GoodStarts(es, EveryStart(|es|, interval)) && Small(es, EveryStart(|es|, interval))
    ensures BlockLaidOut(BlockOf(es, EveryStart(|es|, interval)), es, interval, offs)
  {
    hide Data, Encoded, Holds, EntryLaidOut, Fixed, FixedAll, Word, NumRestarts, RestartLaidOut, Offsets;
    var starts := EveryStart(|es|, interval);
    var block := BlockOf(es, starts);
    offs := OffsetsOf(es, starts);
    NothingFirst(es, starts);
    forall i | 0 <= i < |es|
      ensures EntryLaidOut(block, es, interval, offs, i)
    {
      EncodedInBlock(es, starts, i);
      EntryIsEncoded(block, es, interval, offs, i);
    }
    forall r | 0 <= r < |starts|
      ensures RestartLaidOut(block, |es|, interval, offs, r)
    {
      RestartIsStored(es, interval, offs, r);
    }
    CountIsStored(es, starts);
  }

  lemma {:induction false} NothingFirst(es: seq<Pair>, starts: seq<nat>)
    ensures Offset(es, starts, 0) == 0
  {
  }

  lemma {:induction false} CountIsStored(es: seq<Pair>, starts: seq<nat>)
    requires GoodStarts(es, starts) && Small(es, starts)
    ensures var block, d := BlockOf(es, starts), Offset(es, starts, |es|);
      |block| == d + 4 * |starts| + 4 && WordAt(block, d + 4 * |starts|, |starts|)
  {
    hide Data, Fixed, FixedAll, Word, Offsets;
    var block, d := BlockOf(es, starts), Offset(es, starts, |es|);
    WordIs(block, d + 4 * |starts|, |starts|);
    assert block[d + 4 * |starts|..] == Fixed(|starts|, 4);
  }

  lemma {:induction false} EncodedInBlock(es: seq<Pair>, starts: seq<nat>, i: nat)
    requires GoodStarts(es, starts) && i < |es|
    ensures var part := Encoded(es, starts, i);
      Offset(es, starts, i + 1) == Offset(es, starts, i) + |part| && Holds(BlockOf(es, starts), Offset(es, starts, i), part)
  {
    hide Data, Encoded, BlockOf;
    DataSplits(es, starts, i);
    DataInBlock(es, starts);
    var block, all, a, b := BlockOf(es, starts), Data(es, starts, |es|), Offset(es, starts, i), Offset(es, starts, i + 1);
    assert all[a..b] == Encoded(es, starts, i);
    assert block[a..b] == block[..|all|][a..b];
  }

  /** The entries of a laid out block are where the builder puts them. */
  lemma {:induction false} EntriesAreData(block: Bytes, es: seq<Pair>, interval: nat, offs: seq<nat>, n: nat)
    requires interval > 0 && BlockLaidOut(block, es, interval, offs) && n <= |es|
    ensures var starts := EveryStart(|es|, interval);
      offs[n] == Offset(es, starts, n) && Holds(block, 0, Data(es, starts, n))
  {
    hide Encoded, EntryLaidOut, RestartLaidOut, NumRestarts;
    if n > 0 {
      var starts := EveryStart(|es|, interval);
      EntriesAreData(block, es, interval, offs, n - 1);
      assert EntryLaidOut(block, es, interval, offs, n - 1);
      EntryIsEncoded(block, es, interval, offs, n - 1);
      HoldsBoth(block, 0, Data(es, starts, n - 1), Encoded(es, starts, n - 1));
    }
  }

  lemma {:induction false} WordsAre(block: Bytes, at: nat, ns: seq<nat>, k: nat)
    requires k <= |ns| && forall r :: 0 <= r < k ==> ns[r] < 0x1_0000_0000 && WordAt(block, at + 4 * r, ns[r])
    requires at <= |block|
    ensures Holds(block, at, FixedAll(ns[..k]))
  {
    hide Fixed, Word;
    if k > 0 {
      WordsAre(block, at, ns, k - 1);
      assert ns[..k][..k - 1] == ns[..k - 1];
      HoldsBoth(block, at, FixedAll(ns[..k - 1]), Fixed(ns[k - 1], 4));
      WordIs(block, at + 4 * (k - 1), ns[k - 1]);
    }
  }

  /** A block that is laid out so is one that the builder writes; so the iterator reads it. */
  lemma {:induction false} LaidOutIsBlock(block: Bytes, es: seq<Pair>, interval: nat, offs: seq<nat>)
    requires interval > 0 && BlockLaidOut(block, es, interval, offs) && |block| < 0x1_0000_0000
    ensures var starts := EveryStart(|es|, interval);
      GoodStarts(es, starts) && block == BlockOf(es, starts) && Small(es, starts)
  {
    hide Data, Fixed, FixedAll, EntryLaidOut, Word, NumRestarts, Offset, Holds;
    var starts := EveryStart(|es|, interval);
    GoodEveryStart(es, interval);
    EntriesAreData(block, es, interval, offs, |es|);
    var d, ns := offs[|es|], Offsets(es, starts);
    assert |Data(es, starts, |es|)| == d by {
      OffsetIs(es, starts);
    }
    forall r | 0 <= r < |starts|
      ensures ns[r] < 0x1_0000_0000 && WordAt(block, d + 4 * r, ns[r])
    {
      assert RestartLaidOut(block, |es|, interval, offs, r);
      EntriesAreData(block, es, interval, offs, starts[r]);
      InBlock(block, es, starts, starts[r]);
    }
    WordsAre(block, d, ns, |ns|);
    assert ns[..|ns|] == ns;
    WordIs(block, d + 4 * |starts|, |starts|);
    HoldsBoth(block, 0, Data(es, starts, |es|), FixedAll(ns));
    HoldsBoth(block, 0, Data(es, starts, |es|) + FixedAll(ns), Fixed(|starts|, 4));
    HoldsAll(block, BlockOf(es, starts));
  }

  lemma {:induction false} InBlock(block: Bytes, es: seq<Pair>, starts: seq<nat>, n: nat)
    requires n <= |es| && Holds(block, 0, Data(es, starts, n))
    ensures Offset(es, starts, n) <= |block|
  {
  }

  lemma {:induction false} OffsetIs(es: seq<Pair>, starts: seq<nat>)
    ensures Offset(es, starts, |es|) == |Data(es, starts, |es|)|
  {
  }

  // ------------------------------------------------------------------
  // Round trip.

  /** The restart points of a finished builder are those of the layout. */
  lemma {:induction false} StartsAre(es: seq<Pair>, starts: seq<nat>, interval: nat)
    requires interval > 0 && GoodStarts(es, starts) && EveryNth(starts, interval) && |es| <= |starts| * interval
    ensures starts == EveryStart(|es|, interval)
  {
    var k := |starts|;
    assert k > 1 ==> starts[k - 1] == (k - 1) * interval;
    CountIs(|es|, interval, k);
  }

  /** Adding the entries one after the other builds their block. */
  method Build(interval: nat, es: seq<Pair>) returns (block: Bytes)
    requires interval > 0
    ensures |block| < 0x1_0000_0000 ==> exists offs :: BlockLaidOut(block, es, interval, offs)
  {
    hide Built, GoodStarts, BlockOf, EveryNth, BlockLaidOut;
    var builder := new BlockBuilder(interval);
    for i := 0 to |es|
      invariant builder.Valid() && fresh(builder) && builder.es == es[..i] && builder.interval == interval
    {
      builder.Add(es[i].key, es[i].value);
      assert es[..i + 1] == es[..i] + [Pair(es[i].key, es[i].value)];
    }
    assert es[..|es|] == es;
    block := builder.Finish();
    StartsAre(es, builder.starts, interval);
    if |block| < 0x1_0000_0000 {
      ghost var offs := BlockIsLaidOut(es, interval);
    }
  }

  /** A scan of a finished block gives back the entries it was built from. */
  method Scan(less: Less, block: Bytes, ghost interval: nat, ghost es: seq<Pair>, ghost offs: seq<nat>)
      returns (out: seq<Pair>)
    requires TotalOrder(less) && Increasing(less, es)
    requires interval > 0 && BlockLaidOut(block, es, interval, offs) && |block| < 0x1_0000_0000
    ensures out == es
  {
    hide TotalOrder, Increasing, BlockOf, GoodStarts, Small, Data, BlockLaidOut, EveryStart;
    ghost var starts := EveryStart(|es|, interval);
    LaidOutIsBlock(block, es, interval, offs);
    var it := new Iter(less, block, es, starts);
    it.SeekToFirst();
    out := [];
    while it.current < it.restarts
      invariant it.Valid() && fresh(it) && it.es == es && it.starts == starts && out == es[..it.cur]
      decreases |es| - it.cur
    {
      OffsetsInOrder(es, starts, it.cur, |es|);
      out := out + [Pair(it.key, it.block[it.valueStart..it.valueStart + it.valueSize])];
      it.Next();
    }
    OffsetsInOrder(es, starts, it.cur, |es|);
    assert es[..|es|] == es;
  }
}

/**
 Bloom filters and the filter block. No filter ever denies a key it was made from, and the
 filter block finds, for the offset of a data block, the filter made from that block's keys.
 The hash is any function; `array[p / 8] |= 1 << p % 8` is `SetBit` on the byte.
 */
module Filter {
  import opened InternalKeys
  import opened Coding
  import opened ByteLayout
  import Block

  type HashWord = x: int | 0 <= x < 0x1_0000_0000
  type Hash = Bytes -> HashWord

  // ------------------------------------------------------------------
  // Bits.

  predicate Bit(b: nat, i: nat)
  {
    if i == 0 then b % 2 == 1 else Bit(b / 2, i - 1)
  }

  function SetBit(b: nat, i: nat): nat
  {
    if i == 0 then (if b % 2 == 1 then b else b + 1) else 2 * SetBit(b / 2, i - 1) + b % 2
  }

  lemma {:induction false} SetBitSets(b: nat, i: nat, j: nat)
    ensures Bit(SetBit(b, i), j) <==> i == j || Bit(b, j)
  {
    if i > 0 && j > 0 {
      SetBitSets(b / 2, i - 1, j - 1);
    }
  }

  function Pow2(n: nat): (r: nat)
    ensures r > 0
  {
    if n == 0 then 1 else 2 * Pow2(n - 1)
  }

  lemma {:induction false} SetBitBound(b: nat, i: nat, n: nat)
    requires i < n && b < Pow2(n)
    ensures SetBit(b, i) < Pow2(n)
  {
    assert Pow2(n) == 2 * Pow2(n - 1);
    if i > 0 {
      SetBitBound(b / 2, i - 1, n - 1);
    }
  }

  lemma {:induction false} ByteBound(b: byte, i: nat)
    requires i < 8
    ensures SetBit(b, i) < 256
  {
    assert Pow2(4) == 16;
    assert Pow2(8) == 256;
    SetBitBound(b, i, 8);
  }

  // ------------------------------------------------------------------
  // Probes.

  /** Rotate right by seventeen bits. */
  function Delta(h: HashWord): HashWord
  {
    h / 0x2_0000 + h % 0x2_0000 * 0x8000
  }

  /** The hash value of probe `j`. */
  function Probe(h: HashWord, j: nat): HashWord
  {
    if j == 0 then h else (Probe(h, j - 1) + Delta(h)) % 0x1_0000_0000
  }

  /** The bit that probe `j` looks at, in numbers: the hash plus `j` times the hash rotated right by 17 bits. */
  function Position(h: HashWord, j: nat, bits: nat): nat
    requires bits > 0
  {
    (h + j * (h / 131072 + h % 131072 * 32768)) % 4294967296 % bits
  }

  lemma {:induction false} ProbeIs(h: HashWord, j: nat)
    ensures Probe(h, j) == (h + j * (h / 131072 + h % 131072 * 32768)) % 4294967296
  {
    if j > 0 {
      ProbeIs(h, j - 1);
      OneMoreStep(h, h / 131072 + h % 131072 * 32768, j);
    }
  }

  lemma {:induction false} OneMoreStep(h: nat, d: nat, j: nat)
    requires j > 0
    ensures ((h + (j - 1) * d) % 4294967296 + d) % 4294967296 == (h + j * d) % 4294967296
  {
    var x := h + (j - 1) * d;
    assert x + d == h + j * d;
    AddThenCut(x, d);
  }

  lemma {:induction false} AddThenCut(x: nat, d: nat)
    ensures (x % 4294967296 + d) % 4294967296 == (x + d) % 4294967296
  {
  }

  lemma {:induction false} ProbeIsAt(h: HashWord, j: nat, bits: nat)
    requires bits > 0
    ensures Probe(h, j) % bits == Position(h, j, bits)
  {
    hide Probe;
    ProbeIs(h, j);
  }

  /** Bit `p` of the bitmap: bit `p % 8`, counted from the lowest, of byte `p / 8`. */
  predicate BitAt(bitmap: Bytes, p: nat)
    requires p < 8 * |bitmap|
  {
    Bit(bitmap[p / 8], p % 8)
  }

  /** The bits of a byte in numbers. */
  lemma {:induction false} BitIs(b: nat, i: nat)
    ensures Bit(b, i) <==> b / Pow2(i) % 2 == 1
  {
    if i > 0 {
      BitIs(b / 2, i - 1);
      HalfFirst(b, Pow2(i - 1));
    }
  }

  lemma {:induction false} HalfFirst(b: nat, p: nat)
    requires p > 0
    ensures b / (2 * p) == b / 2 / p
  {
    var q, r := b / 2 / p, b / 2 % p;
    assert b / 2 == p * q + r;
    assert b == 2 * p * q + (2 * r + b % 2);
    Quotient(b, 2 * p, q, 2 * r + b % 2);
  }

  /** Every probe of the key finds its bit set. */
  predicate AllSet(hash: Hash, key: Bytes, bitmap: Bytes, k: nat)
    requires |bitmap| > 0
  {
    forall j :: 0 <= j < k ==> BitAt(bitmap, Position(hash(key), j, 8 * |bitmap|))
  }

  /** The meaning of a filter: a bit bitmap followed by the number of probes. */
  predicate MayMatch(hash: Hash, key: Bytes, filter: Bytes)
  {
    |filter| >= 2 &&
    (filter[|filter| - 1] > 30 || AllSet(hash, key, filter[..|filter| - 1], filter[|filter| - 1]))
  }

  method KeyMayMatch(hash: Hash, key: Bytes, filter: Bytes) returns (r: bool)
    ensures r == MayMatch(hash, key, filter)
  {
    hide Bit, Delta, Position;
    var len := |filter|;
    if len < 2 {
      return false;
    }
    var bits := (len - 1) * 8;
    var k := filter[len - 1];
    if k > 30 {
      return true;
    }
    ghost var bitmap := filter[..len - 1];
    assert bits == 8 * |bitmap|;
    var h := hash(key);
    var delta := Delta(h);
    var j := 0;
    while j < k
      invariant 0 <= j <= k && h == Probe(hash(key), j) && AllSet(hash, key, bitmap, j)
    {
      var bitpos := h % bits;
      ProbeIsAt(hash(key), j, bits);
      assert BitAt(bitmap, bitpos) == Bit(filter[bitpos / 8], bitpos % 8);
      if !Bit(filter[bitpos / 8], bitpos % 8) {
        return false;
      }
      h := (h + delta) % 0x1_0000_0000;
      j := j + 1;
    }
    return true;
  }

  /** The number of probes for so many bits per key: 0.69 of them, rounded down, but from 1 to 30. */
  function Probes(bitsPerKey: nat): (k: byte)
    ensures 1 <= k <= 30
    ensures 1 < k < 30 ==> 100 * k as int <= 69 * bitsPerKey < 100 * (k as int + 1)
    ensures k == 1 ==> 69 * bitsPerKey < 200
    ensures k == 30 ==> 69 * bitsPerKey >= 3000
  {
    var k := bitsPerKey * 69 / 100;
    if k < 1 then 1 else if k > 30 then 30 else k
  }

  /** Bits only ever get set. */
  ghost predicate Covers(bitmap': Bytes, bitmap: Bytes)
  {
    |bitmap'| == |bitmap| && forall p :: 0 <= p < 8 * |bitmap| && BitAt(bitmap, p) ==> BitAt(bitmap', p)
  }

  method SetBitAt(bitmap: Bytes, p: nat) returns (bitmap': Bytes)
    requires p < 8 * |bitmap|
    ensures |bitmap'| == |bitmap|
    ensures forall q :: 0 <= q < 8 * |bitmap| ==> (BitAt(bitmap', q) <==> q == p || BitAt(bitmap, q))
  {
    ByteBound(bitmap[p / 8], p % 8);
    bitmap' := bitmap[p / 8 := SetBit(bitmap[p / 8], p % 8)];
    forall q | 0 <= q < 8 * |bitmap|
      ensures BitAt(bitmap', q) <==> q == p || BitAt(bitmap, q)
    {
      SetBitSets(bitmap[p / 8], p % 8, q % 8);
    }
  }

  /** Some probe of one of the keys hits bit `p`. */
  ghost predicate Probed(hash: Hash, keys: seq<Bytes>, k: nat, bits: nat, p: nat)
    requires bits > 0
  {
    exists i, j :: 0 <= i < |keys| && 0 <= j < k && Position(hash(keys[i]), j, bits) == p
  }

  /** No bit is set that no probe hits. */
  ghost predicate OnlyProbed(hash: Hash, keys: seq<Bytes>, k: nat, bitmap: Bytes)
    requires |bitmap| > 0
  {
    forall p :: 0 <= p < 8 * |bitmap| && BitAt(bitmap, p) ==> Probed(hash, keys, k, 8 * |bitmap|, p)
  }

  lemma {:induction false} CoversAllSet(hash: Hash, key: Bytes, bitmap: Bytes, bitmap': Bytes, k: nat)
    requires |bitmap| > 0 && Covers(bitmap', bitmap) && AllSet(hash, key, bitmap, k)
    ensures AllSet(hash, key, bitmap', k)
  {
  }

  lemma {:induction false} NoneProbed(hash: Hash, k: nat, bytes: nat)
    requires bytes > 0
    ensures OnlyProbed(hash, [], k, seq(bytes, _ => 0))
  {
    var bitmap: Bytes := seq(bytes, _ => 0);
    forall p | 0 <= p < 8 * bytes
      ensures !BitAt(bitmap, p)
    {
      NoBits(p % 8);
    }
  }

  lemma {:induction false} NoBits(i: nat)
    ensures !Bit(0, i)
  {
    if i > 0 {
      NoBits(i - 1);
    }
  }

  lemma {:induction false} IsProbed(hash: Hash, keys: seq<Bytes>, i: nat, j: nat, k: nat, bits: nat)
    requires i < |keys| && j < k && bits > 0
    ensures Probed(hash, keys[..i + 1], k, bits, Probe(hash(keys[i]), j) % bits)
  {
    ProbeIsAt(hash(keys[i]), j, bits);
    assert keys[..i + 1][i] == keys[i];
  }

  lemma {:induction false} MoreProbed(hash: Hash, keys: seq<Bytes>, i: nat, k: nat, bitmap: Bytes)
    requires i < |keys| && |bitmap| > 0 && OnlyProbed(hash, keys[..i], k, bitmap)
    ensures OnlyProbed(hash, keys[..i + 1], k, bitmap)
  {
    assert forall n :: 0 <= n < i ==> keys[..i][n] == keys[..i + 1][n];
  }

  /** A Bloom filter matches every key it was made from, and has no bit set but for them. */
  method CreateFilter(hash: Hash, bitsPerKey: nat, keys: seq<Bytes>) returns (filter: Bytes)
    ensures |filter| == 1 + (if |keys| * bitsPerKey < 64 then 8 else (|keys| * bitsPerKey + 7) / 8)
    ensures filter[|filter| - 1] == Probes(bitsPerKey)
    ensures forall i :: 0 <= i < |keys| ==> MayMatch(hash, keys[i], filter)
    ensures OnlyProbed(hash, keys, Probes(bitsPerKey), filter[..|filter| - 1])
  {
    hide Bit, Delta, Probed, Position;
    var k := Probes(bitsPerKey);
    var bits := |keys| * bitsPerKey;
    if bits < 64 {
      bits := 64;
    }
    var bytes := (bits + 7) / 8;
    bits := bytes * 8;
    var bitmap: Bytes := seq(bytes, _ => 0);
    NoneProbed(hash, k, bytes);
    for i := 0 to |keys|
      invariant |bitmap| == bytes && OnlyProbed(hash, keys[..i], k, bitmap)
      invariant forall n :: 0 <= n < i ==> AllSet(hash, keys[n], bitmap, k)
    {
      var h := hash(keys[i]);
      var delta := Delta(h);
      ghost var before := bitmap;
      MoreProbed(hash, keys, i, k, bitmap);
      for j := 0 to k
        invariant |bitmap| == bytes && Covers(bitmap, before) && h == Probe(hash(keys[i]), j)
        invariant AllSet(hash, keys[i], bitmap, j) && OnlyProbed(hash, keys[..i + 1], k, bitmap)
      {
        var bitmap' := SetBitAt(bitmap, h % bits);
        IsProbed(hash, keys, i, j, k, bits);
        ProbeIsAt(hash(keys[i]), j, bits);
        CoversAllSet(hash, keys[i], bitmap, bitmap', j);
        bitmap := bitmap';
        h := (h + delta) % 0x1_0000_0000;
      }
      forall n | 0 <= n < i
        ensures AllSet(hash, keys[n], bitmap, k)
      {
        CoversAllSet(hash, keys[n], before, bitmap, k);
      }
    }
    assert keys[..|keys|] == keys;
    filter := bitmap + [k];
    assert filter[..|filter| - 1] == bitmap;
  }

  // ------------------------------------------------------------------
  // The filter block.

  const BaseLg: byte := 11
  const Base: nat := 2048

  function Joined(filters: seq<Bytes>): Bytes
  {
    if filters == [] then [] else Joined(filters[..|filters| - 1]) + filters[|filters| - 1]
  }

  /** Where filter `i` begins; the end of the last one for `i` past it. */
  function FilterStart(filters: seq<Bytes>, i: nat): nat
    requires i <= |filters|
  {
    |Joined(filters[..i])|
  }

  function FilterStarts(filters: seq<Bytes>): (r: seq<nat>)
    ensures |r| == |filters|
  {
    seq(|filters|, i requires 0 <= i < |filters| => FilterStart(filters, i))
  }

  function FilterBlockOf(filters: seq<Bytes>): Bytes
  {
    Joined(filters) + Block.FixedAll(FilterStarts(filters)) + Fixed(|Joined(filters)|, 4) + [BaseLg]
  }

  lemma {:induction false} JoinedAt(filters: seq<Bytes>, i: nat)
    requires i < |filters|
    ensures FilterStart(filters, i) + |filters[i]| == FilterStart(filters, i + 1) <= |Joined(filters)|
    ensures Joined(filters)[FilterStart(filters, i)..FilterStart(filters, i + 1)] == filters[i]
  {
    var n := |filters| - 1;
    var init := filters[..n];
    assert filters[..i + 1][..i] == filters[..i];
    if i < n {
      JoinedAt(init, i);
      assert init[..i] == filters[..i] && init[..i + 1] == filters[..i + 1] && init[i] == filters[i];
    } else {
      assert filters[..i + 1] == filters;
    }
  }

  /** The filter of a bucket of keys: none for no keys, else one that matches them and sets no bit but theirs. */
  ghost predicate FilterOf(hash: Hash, bitsPerKey: nat, keys: seq<Bytes>, filter: Bytes)
  {
    if keys == [] then filter == []
    else
      && |filter| >= 2 && filter[|filter| - 1] == Probes(bitsPerKey)
      && (forall key :: key in keys ==> MayMatch(hash, key, filter))
      && OnlyProbed(hash, keys, Probes(bitsPerKey), filter[..|filter| - 1])
  }

  class FilterBlockBuilder {
    const hash: Hash
    const bitsPerKey: nat
    var keys: seq<Bytes>
    var filterOffsets: seq<nat>
    var result: Bytes
    ghost var filters: seq<Bytes>
    ghost var made: seq<seq<Bytes>>

    ghost predicate Valid()
      reads this
    {
      && result == Joined(filters) && filterOffsets == FilterStarts(filters) && |made| == |filters|
      && forall i :: 0 <= i < |made| ==> FilterOf(hash, bitsPerKey, made[i], filters[i])
    }

    /** The keys of the filters made so far, and of the one under construction. */
    ghost function Buckets(): seq<seq<Bytes>>
      reads this
    {
      made + [keys]
    }

    constructor (hash: Hash, bitsPerKey: nat)
      ensures Valid() && Buckets() == [[]] && this.hash == hash && this.bitsPerKey == bitsPerKey
    {
      this.hash, this.bitsPerKey := hash, bitsPerKey;
      keys, filterOffsets, result, filters, made := [], [], [], [], [];
    }

    method AddKey(key: Bytes)
      requires Valid()
      modifies this
      ensures Valid() && Buckets() == old(made) + [old(keys) + [key]]
    {
      keys := keys + [key];
    }

    method GenerateFilter()
      requires Valid()
      modifies this
      ensures Valid() && made == old(Buckets()) && keys == []
    {
      filterOffsets := filterOffsets + [|result|];
      ghost var filter := [];
      if |keys| > 0 {
        var f := CreateFilter(hash, bitsPerKey, keys);
        result, filter := result + f, f;
      }
      MoreFilters(filters, filter);
      filters, made := filters + [filter], made + [keys];
      keys := [];
    }

    /** Later keys belong to the filter of the block at `offset`; what was added stays where it is. */
    method StartBlock(offset: nat)
      requires Valid() && |made| <= offset / 2048
      modifies this
      ensures Valid() && |made| == offset / 2048
      ensures |Buckets()| >= |old(Buckets())|
      ensures forall i :: 0 <= i < |old(Buckets())| ==> Buckets()[i] == old(Buckets())[i]
      ensures forall i :: |old(Buckets())| <= i < |Buckets()| ==> Buckets()[i] == []
    {
      var index := offset / Base;
      while index > |filterOffsets|
        invariant Valid() && |made| <= index && |Buckets()| >= |old(Buckets())|
        invariant forall i :: 0 <= i < |old(Buckets())| ==> Buckets()[i] == old(Buckets())[i]
        invariant forall i :: |old(Buckets())| <= i < |Buckets()| ==> Buckets()[i] == []
        decreases index - |made|
      {
        GenerateFilter();
      }
    }

    method Finish() returns (contents: Bytes)
      requires Valid()
      modifies this
      ensures contents == FilterBlockOf(filters) && |made| == |filters|
      ensures |Joined(filters)| < 0x1_0000_0000 ==> FilterBlockLaidOut(contents, filters)
      ensures made == if old(keys) == [] then old(made) else old(Buckets())
      ensures forall i :: 0 <= i < |made| ==> FilterOf(hash, bitsPerKey, made[i], filters[i])
    {
      hide Joined, Fixed, FilterOf, FilterStarts, Block.FixedAll, FilterBlockLaidOut;
      if |keys| > 0 {
        GenerateFilter();
      }
      var arrayOffset := |result|;
      NoOffsets(filterOffsets);
      for i := 0 to |filterOffsets|
        invariant result == Joined(filters) + Block.FixedAll(filterOffsets[..i])
        modifies `result
      {
        OneMoreOffset(filterOffsets, i);
        result := result + Fixed(filterOffsets[i], 4);
      }
      assert filterOffsets[..|filterOffsets|] == filterOffsets;
      result := result + Fixed(arrayOffset, 4);
      result := result + [BaseLg];
      contents := result;
      if |Joined(filters)| < 0x1_0000_0000 {
        FilterBlockIs(filters);
      }
    }
  }

  lemma {:induction false} NoOffsets(ns: seq<nat>)
    ensures Block.FixedAll(ns[..0]) == []
  {
  }

  lemma {:induction false} OneMoreOffset(ns: seq<nat>, i: nat)
    requires i < |ns|
    ensures Block.FixedAll(ns[..i + 1]) == Block.FixedAll(ns[..i]) + Fixed(ns[i], 4)
  {
    assert ns[..i + 1][..i] == ns[..i];
  }

  lemma {:induction false} MoreFilters(filters: seq<Bytes>, filter: Bytes)
    ensures Joined(filters + [filter]) == Joined(filters) + filter
    ensures FilterStarts(filters + [filter]) == FilterStarts(filters) + [|Joined(filters)|]
  {
    var more := filters + [filter];
    assert more[..|filters|] == filters;
    forall i | 0 <= i <= |filters|
      ensures more[..i] == filters[..i]
    {
    }
    assert filters[..|filters|] == filters;
  }

  // ------------------------------------------------------------------
  // The bytes in numbers.

  /** The bytes of the first `i` filters. */
  function Length(filters: seq<Bytes>, i: nat): nat
    requires i <= |filters|
  {
    if i == 0 then 0 else Length(filters, i - 1) + |filters[i - 1]|
  }

  /**
   The filters end to end, a word for each saying where it begins, one saying where those
   words begin, and a byte 11: filter `i` is for the blocks that start in the i-th 2 KB.
   */
  ghost predicate FilterBlockLaidOut(contents: Bytes, filters: seq<Bytes>)
  {
    var m := |filters|;
    var all := Length(filters, m);
    && |contents| == all + 4 * m + 5 && contents[|contents| - 1] == 11 && WordAt(contents, all + 4 * m, all)
    && forall i :: 0 <= i < m ==> FilterAt(contents, filters, i)
  }

  /** The word for filter `i` says where it is, and there it is. */
  ghost predicate FilterAt(contents: Bytes, filters: seq<Bytes>, i: nat)
    requires i < |filters|
  {
    && WordAt(contents, Length(filters, |filters|) + 4 * i, Length(filters, i))
    && Holds(contents, Length(filters, i), filters[i])
  }

  lemma {:induction false} LengthStep(filters: seq<Bytes>, i: nat)
    requires i < |filters|
    ensures Length(filters, i + 1) == Length(filters, i) + |filters[i]|
  {
  }

  lemma {:induction false} LengthIs(filters: seq<Bytes>, i: nat)
    requires i <= |filters|
    ensures FilterStart(filters, i) == Length(filters, i)
  {
    if i > 0 {
      LengthIs(filters, i - 1);
      assert filters[..i][..i - 1] == filters[..i - 1];
    }
  }

  lemma {:induction false} LengthsGrow(filters: seq<Bytes>, i: nat, j: nat)
    requires i <= j <= |filters|
    ensures Length(filters, i) <= Length(filters, j)
  {
    if i < j {
      LengthsGrow(filters, i, j - 1);
    }
  }

  /** What the builder writes is laid out so. */
  lemma {:induction false} FilterBlockIs(filters: seq<Bytes>)
    requires |Joined(filters)| < 0x1_0000_0000
    ensures FilterBlockLaidOut(FilterBlockOf(filters), filters)
  {
    hide Joined, Fixed, Word, FilterBlockOf, FilterStart, Length;
    var c, m := FilterBlockOf(filters), |filters|;
    assert filters[..m] == filters;
    LengthIs(filters, m);
    assert FilterStart(filters, m) == |Joined(filters)| by {
      WholeLength(filters);
    }
    FilterBlockParts(filters);
    WordIsAt(filters, m);
    forall i | 0 <= i < m
      ensures FilterAt(c, filters, i)
    {
      WordIsAt(filters, i);
      FilterWords(filters, i);
      LengthIs(filters, i);
      LengthIs(filters, i + 1);
    }
  }

  lemma {:induction false} WholeLength(filters: seq<Bytes>)
    ensures FilterStart(filters, |filters|) == |Joined(filters)|
  {
    assert filters[..|filters|] == filters;
  }

  lemma {:induction false} WordIsAt(filters: seq<Bytes>, i: nat)
    requires |Joined(filters)| < 0x1_0000_0000 && i <= |filters|
    ensures WordAt(FilterBlockOf(filters), |Joined(filters)| + 4 * i, Length(filters, i))
  {
    hide Joined, Fixed, Unfixed, FilterBlockOf;
    var c, a := FilterBlockOf(filters), |Joined(filters)| + 4 * i;
    StartIsStored(filters, i);
    UnfixedBytes(c[a..a + 4]);
    LengthIs(filters, i);
  }

  // ------------------------------------------------------------------
  // The reader.

  /** `offset >> lg`. */
  function ShiftRight(offset: nat, lg: nat): nat
  {
    if lg == 0 then offset else ShiftRight(offset / 2, lg - 1)
  }

  function WordOf(b: Bytes, at: nat): nat
    requires at + 4 <= |b|
  {
    Word(b[at], b[at + 1], b[at + 2], b[at + 3])
  }

  /**
   On any contents: the key is denied exactly if there is a filter for the offset and that
   filter denies it, or is empty though it lies where no filter can.
   */
  ghost predicate Denied(hash: Hash, contents: Bytes, offset: nat, key: Bytes)
  {
    && |contents| >= 5
    && var n := |contents|;
       var a := WordOf(contents, n - 5);
       var i := ShiftRight(offset, contents[n - 1]);
       && a <= n - 5 && i < (n - 5 - a) / 4
       && var start, limit := WordOf(contents, a + 4 * i), WordOf(contents, a + 4 * i + 4);
          if start <= limit <= a then !MayMatch(hash, key, contents[start..limit]) else start == limit
  }

  /** `FilterBlockReader`: whether the block at `offset` may hold `key`. */
  method BlockMayMatch(hash: Hash, contents: Bytes, offset: nat, key: Bytes, ghost filters: seq<Bytes>) returns (r: bool)
    ensures r <==> !Denied(hash, contents, offset, key)
    ensures FilterBlockLaidOut(contents, filters) ==>
      r == (offset / 2048 < |filters| ==> MayMatch(hash, key, filters[offset / 2048]))
  {
    hide MayMatch, FilterBlockLaidOut, Word, Unfixed, ShiftRight;
    if FilterBlockLaidOut(contents, filters) {
      LaidOutDenies(hash, contents, offset, key, filters);
    }
    var n := |contents|;
    if n < 5 {
      return true;
    }
    var lastWord := Unfixed(contents[n - 5..n - 1]);
    UnfixedBytes(contents[n - 5..n - 1]);
    assert lastWord == WordOf(contents, n - 5) by {
      WordIsUnfixed(contents, n - 5);
    }
    if lastWord > n - 5 {
      return true;
    }
    var num := (n - 5 - lastWord) / 4;
    var index := ShiftRight(offset, contents[n - 1]);
    if index < num {
      var start := Unfixed(contents[lastWord + index * 4..lastWord + index * 4 + 4]);
      var limit := Unfixed(contents[lastWord + index * 4 + 4..lastWord + index * 4 + 8]);
      WordIsUnfixed(contents, lastWord + index * 4);
      WordIsUnfixed(contents, lastWord + index * 4 + 4);
      if start <= limit <= lastWord {
        r := KeyMayMatch(hash, key, contents[start..limit]);
        return;
      } else if start == limit {
        return false;
      }
    }
    r := true;
  }

  lemma {:induction false} WordIsUnfixed(b: Bytes, at: nat)
    requires at + 4 <= |b|
    ensures Unfixed(b[at..at + 4]) == WordOf(b, at)
  {
    hide Unfixed;
    UnfixedBytes(b[at..at + 4]);
  }

  /** In a filter block the one for the offset decides, and past the last nothing is denied. */
  lemma {:induction false} LaidOutDenies(hash: Hash, contents: Bytes, offset: nat, key: Bytes, filters: seq<Bytes>)
    requires FilterBlockLaidOut(contents, filters)
    ensures Denied(hash, contents, offset, key) <==>
      offset / 2048 < |filters| && !MayMatch(hash, key, filters[offset / 2048])
  {
    hide MayMatch, Word, ShiftRight, Length;
    var m, i := |filters|, offset / 2048;
    var all := Length(filters, m);
    Eleven(offset);
    if i < m {
      StartAndLimit(contents, filters, i);
    }
    assert WordOf(contents, |contents| - 5) == all && (|contents| - 5 - all) / 4 == m;
  }

  lemma {:induction false} StartAndLimit(contents: Bytes, filters: seq<Bytes>, i: nat)
    requires FilterBlockLaidOut(contents, filters) && i < |filters|
    ensures var all := Length(filters, |filters|);
      && WordAt(contents, all + 4 * i, Length(filters, i)) && WordAt(contents, all + 4 * i + 4, Length(filters, i + 1))
      && Length(filters, i) <= Length(filters, i + 1) <= all && contents[Length(filters, i)..Length(filters, i + 1)] == filters[i]
  {
    hide Word, Length;
    LengthsGrow(filters, i + 1, |filters|);
    LengthStep(filters, i);
    assert FilterAt(contents, filters, i);
    if i + 1 < |filters| {
      assert FilterAt(contents, filters, i + 1);
    }
  }

  lemma {:induction false} ShiftIs(offset: nat, lg: nat)
    ensures ShiftRight(offset, lg) == offset / Pow2(lg)
  {
    if lg > 0 {
      ShiftIs(offset / 2, lg - 1);
      HalfFirst(offset, Pow2(lg - 1));
    }
  }

  lemma {:induction false} Eleven(offset: nat)
    ensures ShiftRight(offset, 11) == offset / 2048
  {
    ShiftIs(offset, 11);
    assert Pow2(4) == 16;
    assert Pow2(8) == 256;
    assert Pow2(11) == 2048;
  }

  lemma {:induction false} FilterBlockParts(filters: seq<Bytes>)
    requires |Joined(filters)| < 0x1_0000_0000
    ensures var c := FilterBlockOf(filters); var n := |c|;
      && n >= 5 && c[n - 1] == BaseLg && Unfixed(c[n - 5..n - 1]) == |Joined(filters)|
      && n - 5 - |Joined(filters)| == 4 * |filters|
  {
    hide Joined, Fixed, Unfixed;
    var c := FilterBlockOf(filters);
    assert c[|c| - 5..|c| - 1] == Fixed(|Joined(filters)|, 4);
    Pow256Four();
    FixedRoundTrip(|Joined(filters)|, 4);
  }

  /** The offset array, with the array's own offset right after it, delimits every filter. */
  lemma {:induction false} FilterWords(filters: seq<Bytes>, i: nat)
    requires |Joined(filters)| < 0x1_0000_0000 && i < |filters|
    ensures var c := FilterBlockOf(filters); var a := |Joined(filters)| + 4 * i;
      && a + 8 <= |c|
      && Unfixed(c[a..a + 4]) == FilterStart(filters, i) <= Unfixed(c[a + 4..a + 8]) == FilterStart(filters, i + 1) <= |c|
      && c[FilterStart(filters, i)..FilterStart(filters, i + 1)] == filters[i]
  {
    hide Joined, Fixed, Unfixed, FilterBlockOf;
    JoinedAt(filters, i);
    StartIsStored(filters, i);
    StartIsStored(filters, i + 1);
    FilterBlockBegins(filters, FilterStart(filters, i), FilterStart(filters, i + 1));
  }

  lemma {:induction false} FilterBlockBegins(filters: seq<Bytes>, i: nat, j: nat)
    requires i <= j <= |Joined(filters)|
    ensures |Joined(filters)| <= |FilterBlockOf(filters)| && FilterBlockOf(filters)[i..j] == Joined(filters)[i..j]
  {
    hide Joined, Fixed;
  }

  lemma {:induction false} StartIsStored(filters: seq<Bytes>, i: nat)
    requires |Joined(filters)| < 0x1_0000_0000 && i <= |filters|
    ensures var c := FilterBlockOf(filters); var a := |Joined(filters)| + 4 * i;
      a + 4 <= |c| && Unfixed(c[a..a + 4]) == FilterStart(filters, i)
  {
    hide Joined, Fixed, Unfixed, Block.FixedAll;
    var c, all, starts := FilterBlockOf(filters), Joined(filters), FilterStarts(filters);
    var a := |all| + 4 * i;
    if i < |filters| {
      JoinedAt(filters, i);
      assert c[a..a + 4] == Block.FixedAll(starts)[4 * i..4 * i + 4];
      Block.FixedAt(starts, i);
    } else {
      assert filters[..i] == filters;
      assert c[a..a + 4] == Fixed(|all|, 4);
      Pow256Four();
      FixedRoundTrip(|all|, 4);
    }
  }
}

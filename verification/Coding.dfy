/**
 Fixed-width and variable-length integers and length-prefixed strings. A bitwise or of
 disjoint bit fields is written as their sum.
 */
module Coding {
  import opened InternalKeys

  // ------------------------------------------------------------------
  // Little-endian fixed-width integers.

  function Pow256(n: nat): (r: nat)
    ensures r > 0
  {
    if n == 0 then 1 else 256 * Pow256(n - 1)
  }

  function Fixed(v: nat, n: nat): (r: Bytes)
    ensures |r| == n
  {
    if n == 0 then [] else [v % 256] + Fixed(v / 256, n - 1)
  }

  function Unfixed(b: Bytes): nat
  {
    if b == [] then 0 else b[0] + 256 * Unfixed(b[1..])
  }

  lemma {:induction false} FixedRoundTrip(v: nat, n: nat)
    requires v < Pow256(n)
    ensures Unfixed(Fixed(v, n)) == v
  {
    if n > 0 {
      FixedRoundTrip(v / 256, n - 1);
    }
  }

  lemma {:induction false} UnfixedRoundTrip(b: Bytes)
    ensures Fixed(Unfixed(b), |b|) == b
  {
    if b != [] {
      UnfixedRoundTrip(b[1..]);
      assert Unfixed(b) % 256 == b[0] && Unfixed(b) / 256 == Unfixed(b[1..]);
    }
  }

  /** The bytes in numbers: the low byte comes first. */
  lemma {:induction false} FixedBytes(v: nat)
    ensures Fixed(v, 4) == [v % 256, v / 256 % 256, v / 65536 % 256, v / 16777216 % 256]
  {
    assert v / 256 / 256 == v / 65536 && v / 65536 / 256 == v / 16777216;
    assert Fixed(v / 65536, 2) == [v / 65536 % 256] + Fixed(v / 65536 / 256, 1);
  }

  lemma {:induction false} UnfixedBytes(b: Bytes)
    requires |b| == 4
    ensures Unfixed(b) == b[0] as int + 256 * b[1] as int + 65536 * b[2] as int + 16777216 * b[3] as int
  {
    var c := b[1..];
    var d := c[1..];
    var e := d[1..];
    assert Unfixed(e) == e[0] as int + 256 * Unfixed(e[1..]) && e[1..] == [];
    assert Unfixed(d) == d[0] as int + 256 * Unfixed(e);
  }

  lemma {:induction false} Pow256Four()
    ensures Pow256(4) == 0x1_0000_0000 && Pow256(8) == 0x1_0000_0000_0000_0000
  {
    assert Pow256(2) == 65536;
    assert Pow256(4) == 65536 * 65536;
    assert Pow256(6) == 65536 * Pow256(4);
    assert Pow256(8) == 65536 * Pow256(6);
  }

  /** A quotient is known by its remainder. */
  lemma {:induction false} Quotient(n: nat, d: nat, q: nat, r: nat)
    requires n == d * q + r && r < d
    ensures n / d == q
  {
    var e := n / d - q;
    assert d * (n / d) + n % d == n;
    assert d * e == d * (n / d) - d * q;
    assert e >= 1 ==> d * e >= d;
    assert e < 0 ==> d * e + d <= 0;
  }

  // ------------------------------------------------------------------
  // Variable-length integers.

  function Varint(v: nat): (r: Bytes)
    ensures |r| > 0
  {
    if v < 128 then [v] else [v % 128 + 128] + Varint(v / 128)
  }

  /** `EncodeVarint64`. */
  method EncodeVarint(value: nat) returns (r: Bytes)
    ensures r == Varint(value)
  {
    var v := value;
    r := [];
    while v >= 128
      invariant r + Varint(v) == Varint(value)
    {
      var b: byte := v % 128 + 128;
      assert Varint(v) == [b] + Varint(v / 128);
      assert r + [b] + Varint(v / 128) == r + Varint(v);
      r, v := r + [b], v / 128;
    }
    r := r + [v];
  }

  /** The low seven bits with the continuation bit. */
  function Low(v: nat): byte
  {
    v % 128 + 128
  }

  /** `EncodeVarint32`, which picks the length first. */
  method EncodeVarint32(v: nat) returns (r: Bytes)
    requires v < 0x1_0000_0000
    ensures r == Varint(v)
  {
    var v1 := v / 128;
    var v2 := v1 / 128;
    var v3 := v2 / 128;
    var v4 := v3 / 128;
    if v < 0x80 {
      r := [v];
    } else if v < 0x4000 {
      r := [Low(v), v1];
    } else if v < 0x20_0000 {
      VarintStep(v);
      r := [Low(v), Low(v1), v2];
    } else if v < 0x1000_0000 {
      VarintStep(v);
      VarintStep(v1);
      r := [Low(v), Low(v1), Low(v2), v3];
    } else {
      VarintStep(v);
      VarintStep(v1);
      VarintStep(v2);
      r := [Low(v), Low(v1), Low(v2), Low(v3), v4];
    }
  }

  lemma {:induction false} VarintStep(v: nat)
    requires v >= 128
    ensures Varint(v) == [Low(v)] + Varint(v / 128)
  {
  }

  function Pow128(n: nat): (r: nat)
    ensures r > 0
  {
    if n == 0 then 1 else 128 * Pow128(n - 1)
  }

  function Carry(b: nat, r: Option<(nat, Bytes)>): Option<(nat, Bytes)>
  {
    match r
    case None => None
    case Some((v, rest)) => Some((b + 128 * v, rest))
  }

  /** The groups of seven bits up to the first byte below 128, at most `groups` of them. */
  function ReadGroups(input: Bytes, groups: nat): Option<(nat, Bytes)>
  {
    if groups == 0 || input == [] then None
    else if input[0] < 128 then Some((input[0], input[1..]))
    else Carry(input[0] - 128, ReadGroups(input[1..], groups - 1))
  }

  /** A decoded integer and what is left of the input. */
  function GetVarint(input: Bytes, bits: nat): Option<(nat, Bytes)>
    requires bits == 32 || bits == 64
  {
    match ReadGroups(input, if bits == 32 then 5 else 10)
    case None => None
    case Some((v, rest)) => Some((v % Modulus(bits), rest))
  }

  function Modulus(bits: nat): nat
    requires bits == 32 || bits == 64
  {
    if bits == 32 then 0x1_0000_0000 else 0x1_0000_0000_0000_0000
  }

  /** `GetVarint32Ptr` and `GetVarint64Ptr`: the shift-and-or loop. */
  method DecodeVarint(input: Bytes, bits: nat) returns (r: Option<(nat, Bytes)>)
    requires bits == 32 || bits == 64
    ensures r == GetVarint(input, bits)
  {
    hide ReadGroups, Pow128;
    var result: nat, p, n := 0, 0, 0;
    var most := if bits == 32 then 5 else 10;
    Unshifted(ReadGroups(input, most));
    assert input[0..] == input;
    while n < most && p < |input|
      invariant n == p <= most && p <= |input|
      invariant ReadGroups(input, most) == Prepend(result, Pow128(n), ReadGroups(input[p..], most - n))
    {
      var b := input[p];
      ReadStep(input, p, most - n);
      if b >= 128 {
        Shifted(result, n, b - 128, ReadGroups(input[p + 1..], most - n - 1));
        result := result + (b - 128) * Pow128(n);
        p, n := p + 1, n + 1;
      } else {
        return Some(((result + b * Pow128(n)) % Modulus(bits), input[p + 1..]));
      }
    }
    NothingToRead(input[p..], most - n);
    return None;
  }

  lemma {:induction false} ReadStep(input: Bytes, p: nat, groups: nat)
    requires p < |input| && groups > 0
    ensures ReadGroups(input[p..], groups)
         == if input[p] < 128 then Some((input[p], input[p + 1..]))
            else Carry(input[p] - 128, ReadGroups(input[p + 1..], groups - 1))
  {
    assert input[p..][1..] == input[p + 1..];
  }

  lemma {:induction false} NothingToRead(input: Bytes, groups: nat)
    requires input == [] || groups == 0
    ensures ReadGroups(input, groups) == None
  {
  }

  lemma {:induction false} Unshifted(r: Option<(nat, Bytes)>)
    ensures Pow128(0) == 1 && Prepend(0, 1, r) == r
  {
  }

  function Prepend(low: nat, scale: nat, r: Option<(nat, Bytes)>): Option<(nat, Bytes)>
  {
    match r
    case None => None
    case Some((v, rest)) => Some((low + v * scale, rest))
  }

  lemma {:induction false} Shifted(low: nat, n: nat, b: nat, r: Option<(nat, Bytes)>)
    ensures Prepend(low, Pow128(n), Carry(b, r))
         == Prepend(low + b * Pow128(n), Pow128(n + 1), r)
  {
    if r.Some? {
      var v, p := r.value.0, Pow128(n);
      assert (b + 128 * v) * p == b * p + v * (128 * p);
    }
  }

  lemma {:induction false} GroupsRoundTrip(v: nat, groups: nat, rest: Bytes)
    requires groups > 0 && v < Pow128(groups)
    ensures ReadGroups(Varint(v) + rest, groups) == Some((v, rest))
  {
    var input := Varint(v) + rest;
    if v < 128 {
      assert input[1..] == rest;
    } else {
      assert input[1..] == Varint(v / 128) + rest;
      assert groups > 1;
      GroupsRoundTrip(v / 128, groups - 1, rest);
    }
  }

  lemma {:induction false} VarintRoundTrip(v: nat, bits: nat, rest: Bytes)
    requires (bits == 32 || bits == 64) && v < Modulus(bits)
    ensures GetVarint(Varint(v) + rest, bits) == Some((v, rest))
  {
    BigEnough();
    GroupsRoundTrip(v, if bits == 32 then 5 else 10, rest);
  }

  lemma {:induction false} BigEnough()
    ensures Pow128(5) >= Modulus(32) && Pow128(10) >= Modulus(64)
  {
    assert Pow128(2) == 16384;
    assert Pow128(4) == 16384 * Pow128(2);
    assert Pow128(6) == 16384 * Pow128(4);
    assert Pow128(8) == 16384 * Pow128(6);
    assert Pow128(10) == 16384 * Pow128(8);
  }

  /** A decoder consumes something whenever it succeeds. */
  lemma {:induction false} GroupsShrink(input: Bytes, groups: nat)
    ensures var r := ReadGroups(input, groups);
      r.Some? ==> |r.value.1| < |input| && r.value.1 == input[|input| - |r.value.1|..]
  {
    if groups > 0 && input != [] && input[0] >= 128 {
      GroupsShrink(input[1..], groups - 1);
    }
  }

  // ------------------------------------------------------------------
  // Length-prefixed strings.

  function Prefixed(s: Bytes): Bytes
  {
    Varint(|s|) + s
  }

  function GetPrefixed(input: Bytes): (r: Option<(Bytes, Bytes)>)
  {
    match GetVarint(input, 32)
    case None => None
    case Some((n, rest)) => if n <= |rest| then Some((rest[..n], rest[n..])) else None
  }

  lemma {:induction false} PrefixedRoundTrip(s: Bytes, rest: Bytes)
    requires |s| < 0x1_0000_0000
    ensures GetPrefixed(Prefixed(s) + rest) == Some((s, rest))
  {
    assert Prefixed(s) + rest == Varint(|s|) + (s + rest);
    VarintRoundTrip(|s|, 32, s + rest);
    assert (s + rest)[..|s|] == s && (s + rest)[|s|..] == rest;
  }

  lemma {:induction false} PrefixedShrinks(input: Bytes)
    ensures var r := GetPrefixed(input); r.Some? ==> |r.value.1| < |input|
  {
    GroupsShrink(input, 5);
  }
}

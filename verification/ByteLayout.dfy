/**
 Where numbers and strings lie in a byte string, said in numbers: the low byte or the low
 seven bits come first. The formats are described with these; that they are what the
 encoding functions write is proved here once.
 */
module ByteLayout {
  import opened InternalKeys
  import opened Coding

  /** `part` is in `b` at offset `at`. */
  predicate Holds(b: Bytes, at: nat, part: Bytes)
  {
    at + |part| <= |b| && b[at..at + |part|] == part
  }

  lemma {:induction false} HoldsBoth(b: Bytes, at: nat, x: Bytes, y: Bytes)
    ensures Holds(b, at, x + y) <==> Holds(b, at, x) && Holds(b, at + |x|, y)
  {
    if at + |x| + |y| <= |b| {
      assert b[at..at + |x + y|] == b[at..at + |x|] + b[at + |x|..at + |x| + |y|];
      assert (x + y)[..|x|] == x && (x + y)[|x|..] == y;
      assert b[at..at + |x + y|][..|x|] == b[at..at + |x|] && b[at..at + |x + y|][|x|..] == b[at + |x|..at + |x| + |y|];
    }
  }

  lemma {:induction false} HoldsAll(b: Bytes, part: Bytes)
    ensures b == part <==> Holds(b, 0, part) && |b| == |part|
  {
    assert b[0..|b|] == b;
  }

  lemma {:induction false} HoldsByte(b: Bytes, at: nat, x: byte)
    ensures Holds(b, at, [x]) <==> at < |b| && b[at] == x
  {
    if at < |b| {
      assert b[at..at + 1] == [b[at]];
    }
  }

  // ------------------------------------------------------------------
  // Fixed-width numbers.

  function Word(b0: byte, b1: byte, b2: byte, b3: byte): nat
  {
    b0 as int + 256 * b1 as int + 65536 * b2 as int + 16777216 * b3 as int
  }

  predicate WordAt(b: Bytes, at: nat, n: nat)
  {
    at + 4 <= |b| && Word(b[at], b[at + 1], b[at + 2], b[at + 3]) == n
  }

  predicate LongAt(b: Bytes, at: nat, n: nat)
  {
    && at + 8 <= |b|
    && Word(b[at], b[at + 1], b[at + 2], b[at + 3]) + 4294967296 * Word(b[at + 4], b[at + 5], b[at + 6], b[at + 7]) == n
  }

  /** Four bytes are those of the number exactly if they add up to it. */
  lemma {:induction false} FourBytes(n: nat, b: Bytes)
    requires n < 0x1_0000_0000 && |b| == 4
    ensures b == Fixed(n, 4) <==> Word(b[0], b[1], b[2], b[3]) == n
  {
    hide Fixed, Unfixed, Pow256;
    UnfixedBytes(b);
    UnfixedRoundTrip(b);
    Pow256Four();
    FixedRoundTrip(n, 4);
  }

  lemma {:induction false} WordIs(b: Bytes, at: nat, n: nat)
    requires n < 0x1_0000_0000
    ensures WordAt(b, at, n) <==> Holds(b, at, Fixed(n, 4))
  {
    hide Fixed, Word;
    if at + 4 <= |b| {
      FourBytes(n, b[at..at + 4]);
    }
  }

  lemma {:induction false} UnfixedConcat(x: Bytes, y: Bytes)
    ensures Unfixed(x + y) == Unfixed(x) + Pow256(|x|) * Unfixed(y)
  {
    if x == [] {
      assert x + y == y;
    } else {
      UnfixedConcat(x[1..], y);
      assert (x + y)[1..] == x[1..] + y;
      assert 256 * (Pow256(|x| - 1) * Unfixed(y)) == Pow256(|x|) * Unfixed(y);
    }
  }

  lemma {:induction false} TwoWords(n: nat)
    requires n < 0x1_0000_0000_0000_0000
    ensures Fixed(n, 8) == Fixed(n % 0x1_0000_0000, 4) + Fixed(n / 0x1_0000_0000, 4)
  {
    hide Fixed, Unfixed, Pow256;
    var lo, hi := n % 0x1_0000_0000, n / 0x1_0000_0000;
    Pow256Four();
    FixedRoundTrip(lo, 4);
    FixedRoundTrip(hi, 4);
    UnfixedConcat(Fixed(lo, 4), Fixed(hi, 4));
    UnfixedRoundTrip(Fixed(lo, 4) + Fixed(hi, 4));
  }

  lemma {:induction false} LongIs(b: Bytes, at: nat, n: nat)
    requires n < 0x1_0000_0000_0000_0000
    ensures LongAt(b, at, n) <==> Holds(b, at, Fixed(n, 8))
  {
    hide Fixed;
    var lo, hi := n % 0x1_0000_0000, n / 0x1_0000_0000;
    TwoWords(n);
    HoldsBoth(b, at, Fixed(lo, 4), Fixed(hi, 4));
    WordIs(b, at, lo);
    WordIs(b, at + 4, hi);
    if at + 8 <= |b| {
      HighAndLow(b, at, n);
    }
  }

  lemma {:induction false} HighAndLow(b: Bytes, at: nat, n: nat)
    requires at + 8 <= |b|
    ensures LongAt(b, at, n) <==> WordAt(b, at, n % 0x1_0000_0000) && WordAt(b, at + 4, n / 0x1_0000_0000)
  {
    var x, y := Word(b[at], b[at + 1], b[at + 2], b[at + 3]), Word(b[at + 4], b[at + 5], b[at + 6], b[at + 7]);
    assert x < 0x1_0000_0000;
    assert WordAt(b, at + 4, n / 0x1_0000_0000) <==> y == n / 0x1_0000_0000;
    hide Word;
    assert n == n / 0x1_0000_0000 * 0x1_0000_0000 + n % 0x1_0000_0000;
  }

  // ------------------------------------------------------------------
  // Variable-length numbers and strings.

  /** The number whose base-128 digits are the low seven bits of the bytes, the first the lowest. */
  function Digits(b: Bytes, at: nat, end: nat): nat
    requires at <= end <= |b|
    decreases end - at
  {
    if at == end then 0 else b[at] % 128 + 128 * Digits(b, at + 1, end)
  }

  /** A number from `at` to `end`: every byte but the last has its high bit set, and no digit is wasted. */
  predicate VarintAt(b: Bytes, at: nat, n: nat, end: nat)
  {
    && at < end <= |b|
    && (forall i :: at <= i < end ==> (b[i] >= 128 <==> i != end - 1))
    && (end > at + 1 ==> b[end - 1] > 0)
    && Digits(b, at, end) == n
  }

  lemma {:induction false} MoreDigits(b: Bytes, at: nat, n: nat, end: nat)
    requires at + 1 < end <= |b| && n >= 128
    ensures VarintAt(b, at, n, end) <==> b[at] >= 128 && b[at] - 128 == n % 128 && VarintAt(b, at + 1, n / 128, end)
  {
    var d := Digits(b, at + 1, end);
    assert Digits(b, at, end) == b[at] % 128 + 128 * d;
    assert b[at] >= 128 ==> (Digits(b, at, end) == n <==> b[at] - 128 == n % 128 && d == n / 128);
    if VarintAt(b, at + 1, n / 128, end) && end == at + 2 {
      OneDigit(b, at + 1, n / 128);
    }
  }

  lemma {:induction false} SomeDigit(b: Bytes, at: nat, end: nat)
    requires at < end <= |b| && b[end - 1] % 128 > 0
    ensures Digits(b, at, end) > 0
    decreases end - at
  {
    if at + 1 < end {
      SomeDigit(b, at + 1, end);
    }
  }

  lemma {:induction false} OneDigit(b: Bytes, at: nat, n: nat)
    requires at < |b|
    ensures VarintAt(b, at, n, at + 1) <==> b[at] == n && n < 128
  {
    assert Digits(b, at, at + 1) == b[at] % 128 + 128 * Digits(b, at + 1, at + 1);
  }

  /** More than one digit is a number of 128 or more. */
  lemma {:induction false} LongIsBig(b: Bytes, at: nat, n: nat, end: nat)
    requires VarintAt(b, at, n, end) && end > at + 1
    ensures n >= 128
  {
    SomeDigit(b, at + 1, end);
  }

  /** The digits of a number are the bytes written for it. */
  lemma {:induction false} VarintIs(b: Bytes, at: nat, n: nat, end: nat)
    ensures VarintAt(b, at, n, end) <==> end == at + |Varint(n)| && Holds(b, at, Varint(n))
    decreases n
  {
    if n < 128 {
      HoldsByte(b, at, n);
      if VarintAt(b, at, n, end) && end > at + 1 {
        LongIsBig(b, at, n, end);
      }
      if at < |b| {
        OneDigit(b, at, n);
      }
    } else {
      var head, tail := [n % 128 + 128], Varint(n / 128);
      HoldsBoth(b, at, head, tail);
      HoldsByte(b, at, n % 128 + 128);
      VarintIs(b, at + 1, n / 128, end);
      if at + 1 < end <= |b| {
        MoreDigits(b, at, n, end);
      }
      if VarintAt(b, at, n, end) && end == at + 1 {
        OneDigit(b, at, n);
      }
      hide Varint;
    }
  }

  /** A string after its length. */
  ghost predicate StringAt(b: Bytes, at: nat, s: Bytes, end: nat)
  {
    exists mid: nat :: VarintAt(b, at, |s|, mid) && end == mid + |s| && Holds(b, mid, s)
  }

  lemma {:induction false} StringIs(b: Bytes, at: nat, s: Bytes, end: nat)
    ensures StringAt(b, at, s, end) <==> end == at + |Prefixed(s)| && Holds(b, at, Prefixed(s))
  {
    hide Varint, VarintAt, Holds;
    var mid := at + |Varint(|s|)|;
    HoldsBoth(b, at, Varint(|s|), s);
    VarintIs(b, at, |s|, mid);
    if StringAt(b, at, s, end) {
      var m: nat :| VarintAt(b, at, |s|, m) && end == m + |s| && Holds(b, m, s);
      VarintIs(b, at, |s|, m);
    }
  }

  // ------------------------------------------------------------------
  // What is accepted when reading.

  /** A number as it is read: up to five or ten bytes, the last the first without its high bit, cut to the width. */
  predicate NumberAt(b: Bytes, at: nat, bits: nat, n: nat, end: nat)
    requires bits == 32 || bits == 64
  {
    && at < end <= |b| && end - at <= (if bits == 32 then 5 else 10)
    && (forall i :: at <= i < end ==> (b[i] >= 128 <==> i != end - 1))
    && n == Digits(b, at, end) % (if bits == 32 then 0x1_0000_0000 else 0x1_0000_0000_0000_0000)
  }

  lemma {:induction false} GroupsRead(b: Bytes, at: nat, groups: nat)
    requires at <= |b|
    ensures match ReadGroups(b[at..], groups)
      case Some((v, rest)) =>
        var end: int := |b| - |rest|;
        && at < end <= at + groups && rest == b[end..] && v == Digits(b, at, end)
        && forall i :: at <= i < end ==> (b[i] >= 128 <==> i != end - 1)
      case None => forall i :: at <= i < at + groups && i < |b| ==> b[i] >= 128
    decreases groups
  {
    if groups > 0 && at < |b| {
      assert b[at..][0] == b[at] && b[at..][1..] == b[at + 1..];
      if b[at] >= 128 {
        GroupsRead(b, at + 1, groups - 1);
      } else {
        assert Digits(b, at, at + 1) == b[at] + 128 * Digits(b, at + 1, at + 1);
      }
    }
  }

  /** Reading a number succeeds exactly where there is one, and gives that one. */
  lemma {:induction false} NumberRead(b: Bytes, at: nat, bits: nat)
    requires (bits == 32 || bits == 64) && at <= |b|
    ensures match GetVarint(b[at..], bits)
      case Some((n, rest)) => |rest| < |b| - at && rest == b[|b| - |rest|..] && NumberAt(b, at, bits, n, |b| - |rest|)
      case None => forall n: nat, end: nat :: !NumberAt(b, at, bits, n, end)
  {
    hide ReadGroups, Digits;
    var most := if bits == 32 then 5 else 10;
    GroupsRead(b, at, most);
    if GetVarint(b[at..], bits).None? {
      forall n: nat, end: nat
        ensures !NumberAt(b, at, bits, n, end)
      {
        assert at < end <= |b| && end <= at + most ==> b[end - 1] >= 128;
      }
    }
  }

  /** A string as it is read: a number and as many bytes. */
  ghost predicate TextAt(b: Bytes, at: nat, s: Bytes, end: nat)
  {
    exists mid: nat :: NumberAt(b, at, 32, |s|, mid) && end == mid + |s| && Holds(b, mid, s)
  }

  lemma {:induction false} OneNumber(b: Bytes, at: nat, bits: nat, n: nat, end: nat, n': nat, end': nat)
    requires (bits == 32 || bits == 64) && NumberAt(b, at, bits, n, end) && NumberAt(b, at, bits, n', end')
    ensures n == n' && end == end'
  {
    hide Digits;
    assert b[end - 1] < 128 && b[end' - 1] < 128;
  }

  /** Reading a string succeeds exactly where there is one, and gives that one. */
  lemma {:induction false} TextRead(b: Bytes, at: nat)
    requires at <= |b|
    ensures match GetPrefixed(b[at..])
      case Some((s, rest)) => |rest| < |b| - at && rest == b[|b| - |rest|..] && TextAt(b, at, s, |b| - |rest|)
      case None => forall s, end: nat :: !TextAt(b, at, s, end)
  {
    hide GetVarint, NumberAt;
    NumberRead(b, at, 32);
    match GetPrefixed(b[at..])
    case Some((s, rest)) =>
      var (n, after) := GetVarint(b[at..], 32).value;
      var mid := |b| - |after|;
      assert rest == b[mid..][n..] == b[mid + n..] && s == b[mid..][..n] == b[mid..mid + n];
    case None =>
      forall s, end: nat | TextAt(b, at, s, end)
        ensures false
      {
        var mid: nat :| NumberAt(b, at, 32, |s|, mid) && end == mid + |s| && Holds(b, mid, s);
        var (n, after) := GetVarint(b[at..], 32).value;
        OneNumber(b, at, 32, |s|, mid, n, |b| - |after|);
      }
  }

  lemma {:induction false} OneText(b: Bytes, at: nat, s: Bytes, end: nat, s': Bytes, end': nat)
    requires TextAt(b, at, s, end) && TextAt(b, at, s', end')
    ensures s == s' && end == end'
  {
    hide NumberAt;
    var m: nat :| NumberAt(b, at, 32, |s|, m) && end == m + |s| && Holds(b, m, s);
    var m': nat :| NumberAt(b, at, 32, |s'|, m') && end' == m' + |s'| && Holds(b, m', s');
    OneNumber(b, at, 32, |s|, m, |s'|, m');
  }

  lemma {:induction false} NumberFound(b: Bytes, at: nat, bits: nat, n: nat, end: nat)
    requires (bits == 32 || bits == 64) && NumberAt(b, at, bits, n, end)
    ensures at < end <= |b| && GetVarint(b[at..], bits) == Some((n, b[end..]))
  {
    hide GetVarint, Digits;
    NumberRead(b, at, bits);
    var (m, rest) := GetVarint(b[at..], bits).value;
    OneNumber(b, at, bits, n, end, m, |b| - |rest|);
  }

  lemma {:induction false} TextFound(b: Bytes, at: nat, s: Bytes, end: nat)
    requires TextAt(b, at, s, end)
    ensures at < end <= |b| && GetPrefixed(b[at..]) == Some((s, b[end..]))
  {
    hide GetPrefixed, NumberAt;
    var mid: nat :| NumberAt(b, at, 32, |s|, mid) && end == mid + |s| && Holds(b, mid, s);
    NumberFound(b, at, 32, |s|, mid);
    TextRead(b, at);
    var (t, rest) := GetPrefixed(b[at..]).value;
    OneText(b, at, s, end, t, |b| - |rest|);
  }
}

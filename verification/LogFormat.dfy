/**
 The bytes of a log file. Records are cut into fragments that never cross a 32 KB block; a
 fragment has a header of seven bytes: checksum, length and type. `Emit` and `LogOf` build
 the bytes fragment by fragment, `LaidOut` says in numbers where each byte of a record is,
 and the two are proved to be the same.
 */
module LogFormat {
  import opened InternalKeys
  import opened Coding
  import opened ByteLayout

  const BlockSize: nat := 32768
  const HeaderSize: nat := 7

  const FullType: byte := 1
  const FirstType: byte := 2
  const MiddleType: byte := 3
  const LastType: byte := 4

  // ------------------------------------------------------------------
  // Checksums.

  type Word = x: int | 0 <= x < 0x1_0000_0000

  /** `crc32c::Extend`: any function with the concatenation law will do. */
  type Extend = (Word, Bytes) -> Word

  ghost predicate ExtendsConcatenation(extend: Extend)
  {
    forall a: Bytes, b: Bytes :: extend(extend(0, a), b) == extend(0, a + b)
  }

  const MaskDelta: Word := 0xa282_ead8

  /** Rotate right by fifteen bits and add a constant. */
  function Mask(crc: Word): Word
  {
    (crc / 0x8000 + crc % 0x8000 * 0x2_0000 + MaskDelta) % 0x1_0000_0000
  }

  function Unmask(masked: Word): Word
  {
    var rot := (masked - MaskDelta) % 0x1_0000_0000;
    rot / 0x2_0000 + rot % 0x2_0000 * 0x8000
  }

  lemma {:induction false} UnmaskMask(crc: Word)
    ensures Unmask(Mask(crc)) == crc
  {
    var hi, lo := crc / 0x8000, crc % 0x8000;
    var rot := hi + lo * 0x2_0000;
    assert rot < 0x1_0000_0000;
    assert (Mask(crc) - MaskDelta) % 0x1_0000_0000 == rot;
    assert rot / 0x2_0000 == lo && rot % 0x2_0000 == hi;
  }

  lemma {:induction false} MaskUnmask(masked: Word)
    ensures Mask(Unmask(masked)) == masked
  {
    var rot := (masked - MaskDelta) % 0x1_0000_0000;
    var hi, lo := rot / 0x2_0000, rot % 0x2_0000;
    var crc := hi + lo * 0x8000;
    assert crc / 0x8000 == lo && crc % 0x8000 == hi;
    assert Mask(crc) == (rot + MaskDelta) % 0x1_0000_0000;
  }

  // ------------------------------------------------------------------
  // The format.

  /** The zero bytes that end a block too full for another header. */
  function Trailer(p: nat): (r: Bytes)
    ensures |r| < HeaderSize
    ensures BlockSize - (p + |r|) % BlockSize >= HeaderSize
  {
    var leftover := BlockSize - p % BlockSize;
    if leftover < HeaderSize then seq(leftover, _ => 0) else []
  }

  function Header(extend: Extend, kind: byte, data: Bytes): (r: Bytes)
    requires |data| < 65536
    ensures |r| == HeaderSize
  {
    Fixed(Mask(extend(0, [kind] + data)), 4) + [|data| % 256, |data| / 256, kind]
  }

  function Physical(extend: Extend, kind: byte, data: Bytes): (r: Bytes)
    requires |data| < 65536
    ensures |r| == HeaderSize + |data|
  {
    Header(extend, kind, data) + data
  }

  /** How much of `data` fits in the block once the trailer at `p` is written. */
  function Room(p: nat, data: Bytes): (n: nat)
    ensures n <= |data|
    ensures n < BlockSize
    ensures (p + |Trailer(p)|) % BlockSize + HeaderSize + n <= BlockSize
  {
    var avail := BlockSize - (p + |Trailer(p)|) % BlockSize - HeaderSize;
    if |data| < avail then |data| else avail
  }

  function FragmentType(begin: bool, end: bool): byte
  {
    if begin && end then FullType
    else if begin then FirstType
    else if end then LastType
    else MiddleType
  }

  /** The trailer and the first fragment that a record, or the rest of one, takes at file offset `p`. */
  function Piece(extend: Extend, p: nat, data: Bytes, begin: bool): (r: Bytes)
    ensures |r| == |Trailer(p)| + HeaderSize + Room(p, data)
  {
    var n := Room(p, data);
    Trailer(p) + Physical(extend, FragmentType(begin, n == |data|), data[..n])
  }

  /** Every byte written for a record, or the rest of one, at file offset `p`. */
  function Emit(extend: Extend, p: nat, data: Bytes, begin: bool): (r: Bytes)
    ensures |r| >= HeaderSize
    decreases |data|, if Room(p, data) == 0 then 1 else 0
  {
    var n, piece := Room(p, data), Piece(extend, p, data, begin);
    if n == |data| then piece
    else
      MoreRoomNext(p, data);
      piece + Emit(extend, p + |piece|, data[n..], false)
  }

  /** A fragment that is not the last fills its block, so the next one has room. */
  lemma {:induction false} MoreRoomNext(p: nat, data: Bytes)
    requires Room(p, data) < |data|
    ensures var p' := p + |Trailer(p)| + HeaderSize + Room(p, data);
            p' % BlockSize == 0 && Room(p', data[Room(p, data)..]) > 0
  {
    var q := p + |Trailer(p)|;
    var p' := q + HeaderSize + Room(p, data);
    assert Room(p, data) == BlockSize - q % BlockSize - HeaderSize;
    assert p' == q / BlockSize * BlockSize + BlockSize;
    MultipleOfBlock(q / BlockSize + 1);
    assert p' % BlockSize == 0;
    assert Trailer(p') == [];
  }

  lemma {:induction false} MultipleOfBlock(k: nat)
    ensures k * BlockSize % BlockSize == 0
  {
  }

  lemma {:induction false} EmitIsPieceAnd(extend: Extend, p: nat, left: Bytes, begin: bool)
    ensures var n, piece := Room(p, left), Piece(extend, p, left, begin);
      Emit(extend, p, left, begin) == piece + if n == |left| then [] else Emit(extend, p + |piece|, left[n..], false)
  {
    hide Room, Piece;
  }

  /** The log that holds `records`. */
  function LogOf(extend: Extend, records: seq<Bytes>): Bytes
  {
    if records == [] then []
    else
      var file := LogOf(extend, records[..|records| - 1]);
      file + Emit(extend, |file|, records[|records| - 1], true)
  }

  lemma {:induction false} LogPrefix(extend: Extend, records: seq<Bytes>, n: nat)
    requires n <= |records|
    ensures LogOf(extend, records[..n]) <= LogOf(extend, records)
  {
    if n < |records| {
      var init := records[..|records| - 1];
      LogPrefix(extend, init, n);
      assert init[..n] == records[..n];
    } else {
      assert records[..n] == records;
    }
  }

  /** Record `n` sits right after the log of the records before it. */
  lemma {:induction false} RecordAt(extend: Extend, records: seq<Bytes>, n: nat) returns (more: Bytes)
    requires n < |records|
    ensures var head := LogOf(extend, records[..n]);
      LogOf(extend, records) == head + Emit(extend, |head|, records[n], true) + more
  {
    hide Emit;
    var upto := records[..n + 1];
    LogPrefix(extend, records, n + 1);
    assert upto[..|upto| - 1] == records[..n];
    more := LogOf(extend, records)[|LogOf(extend, upto)|..];
  }

  // ------------------------------------------------------------------
  // The layout in numbers.

  /** Where the first header of a record written at offset `p` is: blocks have no room for one past byte 32761. */
  function FirstHeader(p: nat): nat
  {
    if p % 32768 > 32761 then (p / 32768 + 1) * 32768 else p
  }

  /** Where the header of its `b`-th fragment is: all but the first start a block. */
  function HeaderAt(p: nat, b: nat): nat
  {
    if b == 0 then FirstHeader(p) else (FirstHeader(p) / 32768 + b) * 32768
  }

  /** How many bytes of the record its first `b` fragments can take. */
  function Held(p: nat, b: nat): nat
  {
    if b == 0 then 0 else 32761 - FirstHeader(p) % 32768 + (b - 1) * 32761
  }

  /** The number of fragments of a record of `len` bytes: as few as can take it, and at least one. */
  function Count(p: nat, len: nat): nat
  {
    if len <= Held(p, 1) then 1 else 2 + (len - Held(p, 1) - 1) / 32761
  }

  /** The part of the record in its `b`-th fragment. */
  function Share(p: nat, record: Bytes, b: nat): Bytes
  {
    var lo, hi := Least(Held(p, b), |record|), Least(Held(p, b + 1), |record|);
    record[lo..hi]
  }

  function Least(a: nat, b: nat): nat
  {
    if a < b then a else b
  }

  /** 1 is a whole record, 2 the first of several fragments, 3 one in the middle, 4 the last. */
  function TypeByte(b: nat, n: nat): byte
  {
    if n == 1 then 1 else if b == 0 then 2 else if b < n - 1 then 3 else 4
  }

  /** The four checksum bytes, low byte first, hold the checksum rotated right by 15 bits plus 0xa282ead8. */
  predicate ChecksumBytes(crc: Word, b0: byte, b1: byte, b2: byte, b3: byte)
  {
    ByteLayout.Word(b0, b1, b2, b3)
      == (crc / 32768 + crc % 32768 * 131072 + 2726488792) % 4294967296
  }

  /** A header at `at` with the given type, and the data after it. */
  predicate FragmentBytes(extend: Extend, file: Bytes, at: nat, kind: byte, data: Bytes)
  {
    && at + 7 + |data| <= |file|
    && ChecksumBytes(extend(0, [kind] + data), file[at], file[at + 1], file[at + 2], file[at + 3])
    && file[at + 4] as int + 256 * file[at + 5] as int == |data|
    && file[at + 6] == kind
    && file[at + 7..at + 7 + |data|] == data
  }

  /** The record is in the file from offset `p` on: zeros up to the first header, then its fragments. */
  ghost predicate LaidOut(extend: Extend, file: Bytes, p: nat, record: Bytes)
  {
    var n := Count(p, |record|);
    && FirstHeader(p) <= |file| && (forall i :: p <= i < FirstHeader(p) ==> file[i] == 0)
    && forall b :: 0 <= b < n ==> FragmentBytes(extend, file, HeaderAt(p, b), TypeByte(b, n), Share(p, record, b))
  }

  /** Where the record ends. */
  function EndOf(p: nat, len: nat): nat
  {
    HeaderAt(p, Count(p, len) - 1) + 7 + (if len <= Held(p, 1) then len else (len - Held(p, 1) - 1) % 32761 + 1)
  }

  // ------------------------------------------------------------------
  // The bytes are where the layout says.

  /** The types of the fragments of a record, or of the rest of one. */
  function RestType(begin: bool, b: nat, n: nat): byte
  {
    if begin then TypeByte(b, n) else if b < n - 1 then 3 else 4
  }

  ghost predicate RestLaidOut(extend: Extend, file: Bytes, p: nat, data: Bytes, begin: bool)
  {
    var n := Count(p, |data|);
    && FirstHeader(p) <= |file| && (forall i :: p <= i < FirstHeader(p) ==> file[i] == 0)
    && forall b :: 0 <= b < n ==> FragmentBytes(extend, file, HeaderAt(p, b), RestType(begin, b, n), Share(p, data, b))
  }

  lemma {:induction false} MaskedIs(crc: Word)
    ensures Mask(crc) == (crc / 32768 + crc % 32768 * 131072 + 2726488792) % 4294967296
  {
  }

  lemma {:induction false} HeaderIsBytes(extend: Extend, file: Bytes, at: nat, kind: byte, data: Bytes)
    requires |data| < 65536 && at + 7 <= |file|
    ensures file[at..at + 7] == Header(extend, kind, data) <==>
      && ChecksumBytes(extend(0, [kind] + data), file[at], file[at + 1], file[at + 2], file[at + 3])
      && file[at + 4] as int + 256 * file[at + 5] as int == |data| && file[at + 6] == kind
  {
    hide Fixed, Mask, ByteLayout.Word;
    var h, crc := file[at..at + 7], extend(0, [kind] + data);
    var g := Header(extend, kind, data);
    MaskedIs(crc);
    FourBytes(Mask(crc), h[..4]);
    TwoBytes(|data|, h[4], h[5]);
    assert g[..4] == Fixed(Mask(crc), 4) && g[4..] == [|data| % 256, |data| / 256, kind];
    assert h == h[..4] + h[4..] && g == g[..4] + g[4..];
    assert h[4..] == [h[4], h[5], h[6]];
  }

  lemma {:induction false} TwoBytes(n: nat, b0: byte, b1: byte)
    requires n < 65536
    ensures b0 as int + 256 * b1 as int == n <==> b0 == n % 256 && b1 == n / 256
  {
  }

  lemma {:induction false} FragmentIsBytes(extend: Extend, file: Bytes, at: nat, kind: byte, data: Bytes)
    requires |data| < 65536
    ensures Holds(file, at, Physical(extend, kind, data)) <==> FragmentBytes(extend, file, at, kind, data)
  {
    hide Header, ChecksumBytes;
    HoldsBoth(file, at, Header(extend, kind, data), data);
    if at + 7 <= |file| {
      HeaderIsBytes(extend, file, at, kind, data);
    }
  }

  lemma {:induction false} TrailerIsZeros(file: Bytes, p: nat)
    ensures p + |Trailer(p)| == FirstHeader(p)
    ensures Holds(file, p, Trailer(p)) <==> FirstHeader(p) <= |file| && forall i :: p <= i < FirstHeader(p) ==> file[i] == 0
  {
    var t := Trailer(p);
    if p + |t| <= |file| {
      var found := file[p..p + |t|];
      if found == t {
        forall i | p <= i < p + |t|
          ensures file[i] == 0
        {
          assert file[i] == found[i - p] == t[i - p];
        }
      }
    }
  }

  /** The first fragment takes what fits. */
  lemma {:induction false} FirstShare(p: nat, data: Bytes)
    ensures Share(p, data, 0) == data[..Room(p, data)] && |Share(p, data, 0)| < 65536
    ensures Count(p, |data|) == 1 <==> Room(p, data) == |data|
    ensures Room(p, data) < |data| ==> Room(p, data) == Held(p, 1) && FirstHeader(p) + 7 + Held(p, 1) == HeaderAt(p, 1)
  {
    TrailerIsZeros([], p);
    hide Trailer;
    var q := FirstHeader(p);
    assert q == q / 32768 * 32768 + q % 32768;
  }

  lemma {:induction false} PieceIsBytes(extend: Extend, file: Bytes, p: nat, data: Bytes, begin: bool)
    ensures Holds(file, p, Piece(extend, p, data, begin)) <==>
      && FirstHeader(p) <= |file| && (forall i :: p <= i < FirstHeader(p) ==> file[i] == 0)
      && FragmentBytes(extend, file, HeaderAt(p, 0), RestType(begin, 0, Count(p, |data|)), Share(p, data, 0))
  {
    FirstShare(p, data);
    TrailerIsZeros(file, p);
    hide Trailer, Room, Share, Count, FragmentBytes, Physical, Holds;
    var kind := FragmentType(begin, Room(p, data) == |data|);
    assert kind == RestType(begin, 0, Count(p, |data|)) by {
      CountIsPositive(p, |data|);
    }
    HoldsBoth(file, p, Trailer(p), Physical(extend, kind, data[..Room(p, data)]));
    FragmentIsBytes(extend, file, FirstHeader(p), kind, Share(p, data, 0));
  }

  lemma {:induction false} CountIsPositive(p: nat, len: nat)
    ensures Count(p, len) >= 1
  {
  }

  /** After the first fragment the rest is laid out from the next block on. */
  lemma {:induction false} RestIsNext(p: nat, data: Bytes)
    requires Room(p, data) < |data|
    ensures var p', rest := HeaderAt(p, 1), data[Room(p, data)..];
      && FirstHeader(p') == p' && Count(p, |data|) == Count(p', |rest|) + 1 && EndOf(p', |rest|) == EndOf(p, |data|)
      && forall b: nat :: HeaderAt(p', b) == HeaderAt(p, b + 1) && Share(p', rest, b) == Share(p, data, b + 1)
  {
    FirstShare(p, data);
    var p', rest := HeaderAt(p, 1), data[Room(p, data)..];
    CountNext(p, p', |rest|);
    hide Room, Count, Share, EndOf, HeaderAt, FirstHeader, Held;
    forall b: nat
      ensures HeaderAt(p', b) == HeaderAt(p, b + 1) && Share(p', rest, b) == Share(p, data, b + 1)
    {
      HeldNext(p, p', b);
      ShareNext(p, p', data, b);
    }
  }

  lemma {:induction false} CountNext(p: nat, p': nat, n: nat)
    requires p' == HeaderAt(p, 1) && n > 0
    ensures FirstHeader(p') == p' && Count(p, Held(p, 1) + n) == Count(p', n) + 1
    ensures EndOf(p', n) == EndOf(p, Held(p, 1) + n)
  {
    HeldNext(p, p', 0);
    HeldNext(p, p', Count(p', n) - 1);
    hide FirstHeader, HeaderAt;
    assert Held(p', 1) == 32761;
    BlocksOf(n);
  }

  lemma {:induction false} BlocksOf(n: nat)
    requires n > 0
    ensures n > 32761 ==> (n - 1) / 32761 == 1 + (n - 32761 - 1) / 32761 && (n - 1) % 32761 == (n - 32761 - 1) % 32761
    ensures n <= 32761 ==> (n - 1) / 32761 == 0 && (n - 1) % 32761 == n - 1
  {
  }

  lemma {:induction false} ShareNext(p: nat, p': nat, data: Bytes, b: nat)
    requires p' == HeaderAt(p, 1) && Held(p, 1) <= |data|
    ensures Share(p', data[Held(p, 1)..], b) == Share(p, data, b + 1)
  {
    HeldNext(p, p', b);
    HeldNext(p, p', b + 1);
    hide FirstHeader, HeaderAt, Held;
  }

  lemma {:induction false} HeldNext(p: nat, p': nat, b: nat)
    requires p' == HeaderAt(p, 1)
    ensures p' % 32768 == 0 && FirstHeader(p') == p'
    ensures Held(p, b + 1) == Held(p, 1) + Held(p', b) && HeaderAt(p', b) == HeaderAt(p, b + 1)
  {
    MultipleOfBlock(FirstHeader(p) / 32768 + 1);
  }

  /** Every fragment from the `from`-th on is in the file. */
  ghost predicate FragmentsFrom(extend: Extend, file: Bytes, p: nat, data: Bytes, begin: bool, n: nat, from: nat)
  {
    forall b :: from <= b < n ==> FragmentBytes(extend, file, HeaderAt(p, b), RestType(begin, b, n), Share(p, data, b))
  }

  lemma {:induction false} FragmentsNext(extend: Extend, file: Bytes, p: nat, data: Bytes, begin: bool, n: nat, p': nat,
                                         rest: Bytes)
    requires n > 0
    requires forall b: nat :: HeaderAt(p', b) == HeaderAt(p, b + 1) && Share(p', rest, b) == Share(p, data, b + 1)
    ensures FragmentsFrom(extend, file, p, data, begin, n, 1) <==> FragmentsFrom(extend, file, p', rest, false, n - 1, 0)
  {
    hide FragmentBytes, HeaderAt, Share;
    if FragmentsFrom(extend, file, p, data, begin, n, 1) {
      forall b | 0 <= b < n - 1
        ensures FragmentBytes(extend, file, HeaderAt(p', b), RestType(false, b, n - 1), Share(p', rest, b))
      {
        assert FragmentBytes(extend, file, HeaderAt(p, b + 1), RestType(begin, b + 1, n), Share(p, data, b + 1));
      }
    }
    if FragmentsFrom(extend, file, p', rest, false, n - 1, 0) {
      forall b | 1 <= b < n
        ensures FragmentBytes(extend, file, HeaderAt(p, b), RestType(begin, b, n), Share(p, data, b))
      {
        var c := b - 1;
        assert FragmentBytes(extend, file, HeaderAt(p', c), RestType(false, c, n - 1), Share(p', rest, c));
        assert HeaderAt(p', c) == HeaderAt(p, c + 1) && Share(p', rest, c) == Share(p, data, c + 1);
      }
    }
  }

  lemma {:induction false} LayoutIs(extend: Extend, file: Bytes, p: nat, data: Bytes, begin: bool)
    ensures RestLaidOut(extend, file, p, data, begin) <==>
      && FirstHeader(p) <= |file| && (forall i :: p <= i < FirstHeader(p) ==> file[i] == 0)
      && FragmentBytes(extend, file, HeaderAt(p, 0), RestType(begin, 0, Count(p, |data|)), Share(p, data, 0))
      && FragmentsFrom(extend, file, p, data, begin, Count(p, |data|), 1)
  {
    CountIsPositive(p, |data|);
    hide FragmentBytes, Share, Count, FirstHeader, RestType;
  }

  /** The rest of a record is laid out as its first fragment and then what follows. */
  lemma {:induction false} LayoutStep(extend: Extend, file: Bytes, p: nat, data: Bytes, begin: bool)
    requires Room(p, data) < |data|
    ensures RestLaidOut(extend, file, p, data, begin) <==>
      && Holds(file, p, Piece(extend, p, data, begin))
      && RestLaidOut(extend, file, HeaderAt(p, 1), data[Room(p, data)..], false)
  {
    hide Room, Piece, FragmentBytes, Holds, Count, HeaderAt, Share, FirstHeader, RestLaidOut, FragmentsFrom;
    var p', rest := HeaderAt(p, 1), data[Room(p, data)..];
    PieceIsBytes(extend, file, p, data, begin);
    LayoutIs(extend, file, p, data, begin);
    RestIsNext(p, data);
    CountIsPositive(p, |data|);
    FragmentsNext(extend, file, p, data, begin, Count(p, |data|), p', rest);
    AllFragments(extend, file, p', rest);
  }

  /** A record that starts with a header needs nothing but its fragments. */
  lemma {:induction false} AllFragments(extend: Extend, file: Bytes, p: nat, data: Bytes)
    requires FirstHeader(p) == p
    ensures RestLaidOut(extend, file, p, data, false) <==> FragmentsFrom(extend, file, p, data, false, Count(p, |data|), 0)
  {
    hide FragmentBytes, Count, FirstHeader, Share;
    CountIsPositive(p, |data|);
    if FragmentsFrom(extend, file, p, data, false, Count(p, |data|), 0) {
      HeaderIsHolds(extend, file, HeaderAt(p, 0), RestType(false, 0, Count(p, |data|)), Share(p, data, 0));
    }
  }

  lemma {:induction false} HeaderIsHolds(extend: Extend, file: Bytes, at: nat, kind: byte, data: Bytes)
    requires FragmentBytes(extend, file, at, kind, data)
    ensures at <= |file|
  {
  }

  lemma {:induction false} OnePiece(extend: Extend, file: Bytes, p: nat, data: Bytes, begin: bool)
    requires Room(p, data) == |data|
    ensures RestLaidOut(extend, file, p, data, begin) <==> Holds(file, p, Piece(extend, p, data, begin))
    ensures p + |Piece(extend, p, data, begin)| == EndOf(p, |data|)
  {
    PieceIsBytes(extend, file, p, data, begin);
    FirstShare(p, data);
    TrailerIsZeros(file, p);
    hide Room, Piece, FragmentBytes, Holds, Share, FirstHeader, Trailer;
  }

  /** The bytes written for a record, or the rest of one, are its layout. */
  lemma {:induction false} EmitIsLayout(extend: Extend, file: Bytes, p: nat, data: Bytes, begin: bool)
    ensures p + |Emit(extend, p, data, begin)| == EndOf(p, |data|)
    ensures Holds(file, p, Emit(extend, p, data, begin)) <==> RestLaidOut(extend, file, p, data, begin)
    decreases |data|, if Room(p, data) == 0 then 1 else 0
  {
    EmitIsPieceAnd(extend, p, data, begin);
    hide Room, Piece, Holds, RestLaidOut, EndOf, Emit, Trailer, FirstHeader, HeaderAt, Count, Share;
    var n, piece := Room(p, data), Piece(extend, p, data, begin);
    if n == |data| {
      OnePiece(extend, file, p, data, begin);
      assert piece + [] == piece;
    } else {
      MoreRoomNext(p, data);
      FirstShare(p, data);
      RestIsNext(p, data);
      TrailerIsZeros(file, p);
      var rest := Emit(extend, p + |piece|, data[n..], false);
      EmitIsLayout(extend, file, p + |piece|, data[n..], false);
      HoldsBoth(file, p, piece, rest);
      LayoutStep(extend, file, p, data, begin);
    }
  }

  /** A record's bytes are in the file exactly if it is laid out there. */
  lemma {:induction false} RecordIsLayout(extend: Extend, file: Bytes, p: nat, record: Bytes)
    ensures p + |Emit(extend, p, record, true)| == EndOf(p, |record|)
    ensures Holds(file, p, Emit(extend, p, record, true)) <==> LaidOut(extend, file, p, record)
  {
    hide Emit, EndOf, Holds, FragmentBytes, Count, FirstHeader;
    EmitIsLayout(extend, file, p, record, true);
  }
  /** Where record `n` of a log starts, and the one before it ends. */
  function Boundary(records: seq<Bytes>, n: nat): nat
    requires n <= |records|
  {
    if n == 0 then 0 else EndOf(Boundary(records, n - 1), |records[n - 1]|)
  }

  /** The file holds the records one after the other, and nothing else. */
  ghost predicate LogLaidOut(extend: Extend, file: Bytes, records: seq<Bytes>)
  {
    && |file| == Boundary(records, |records|)
    && forall n :: 0 <= n < |records| ==> LaidOut(extend, file, Boundary(records, n), records[n])
  }

  lemma {:induction false} BoundaryIs(extend: Extend, records: seq<Bytes>, n: nat)
    requires n <= |records|
    ensures |LogOf(extend, records[..n])| == Boundary(records, n)
  {
    hide Emit, EndOf;
    if n > 0 {
      var upto := records[..n];
      BoundaryIs(extend, records, n - 1);
      assert upto[..n - 1] == records[..n - 1];
      RecordIsLayout(extend, [], Boundary(records, n - 1), records[n - 1]);
    }
  }

  /** Records end after they start. */
  lemma {:induction false} BoundariesGrow(records: seq<Bytes>, i: nat, j: nat)
    requires i < j <= |records|
    ensures Boundary(records, i) < Boundary(records, j)
  {
    hide EndOf;
    GrowsOne(Boundary(records, j - 1), |records[j - 1]|);
    if i < j - 1 {
      BoundariesGrow(records, i, j - 1);
    }
  }

  lemma {:induction false} GrowsOne(p: nat, len: nat)
    ensures p < EndOf(p, len)
  {
    if Count(p, len) > 1 {
      assert FirstHeader(p) == FirstHeader(p) / 32768 * 32768 + FirstHeader(p) % 32768;
    }
  }

  /** The log that holds the records is the file in which they are laid out. */
  lemma {:induction false} LogIsLayout(extend: Extend, file: Bytes, records: seq<Bytes>)
    ensures file == LogOf(extend, records) <==> LogLaidOut(extend, file, records)
  {
    hide Emit, LaidOut, EndOf;
    BoundaryIs(extend, records, |records|);
    assert records[..|records|] == records;
    if file == LogOf(extend, records) {
      forall n | 0 <= n < |records|
        ensures LaidOut(extend, file, Boundary(records, n), records[n])
      {
        BoundaryIs(extend, records, n);
        var more := RecordAt(extend, records, n);
        RecordIsLayout(extend, file, Boundary(records, n), records[n]);
      }
    }
    if LogLaidOut(extend, file, records) {
      UpTo(extend, file, records, |records|);
      assert file[..|file|] == file;
    }
  }

  lemma {:induction false} UpTo(extend: Extend, file: Bytes, records: seq<Bytes>, n: nat)
    requires LogLaidOut(extend, file, records) && n <= |records|
    ensures Boundary(records, n) <= |file| && file[..Boundary(records, n)] == LogOf(extend, records[..n])
  {
    hide Emit, LaidOut, EndOf;
    if n > 0 {
      var p, upto := Boundary(records, n - 1), records[..n];
      UpTo(extend, file, records, n - 1);
      assert upto[..n - 1] == records[..n - 1];
      assert LaidOut(extend, file, p, records[n - 1]);
      RecordIsLayout(extend, file, p, records[n - 1]);
      BoundaryIs(extend, records, n - 1);
      assert file[..p] + file[p..Boundary(records, n)] == file[..Boundary(records, n)];
    }
  }
}

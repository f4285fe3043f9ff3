/**
 The record log: written by `log::Writer` and read back by `log::Reader` from its beginning.

 `Reader.ReadAll` states crash safety: from a log cut at any byte the reader returns exactly
 the records that lie wholly before the cut.
 */
module Log {
  import opened InternalKeys
  import opened Coding
  import opened LogFormat
  import opened LogScan

  // ------------------------------------------------------------------
  // The writer.

  class Writer {
    const extend: Extend
    const typeCrc: seq<Word>
    var dest: Bytes
    var blockOffset: nat

    ghost predicate Valid()
      reads this
    {
      && ExtendsConcatenation(extend)
      && |typeCrc| == 5 && (forall t :: 0 <= t < 5 ==> typeCrc[t] == extend(0, [t]))
      && blockOffset <= BlockSize && blockOffset % BlockSize == |dest| % BlockSize
    }

    constructor (extend: Extend)
      requires ExtendsConcatenation(extend)
      ensures Valid() && dest == [] && this.extend == extend
    {
      this.extend := extend;
      typeCrc := seq(5, t requires 0 <= t < 5 => extend(0, [t]));
      dest := [];
      blockOffset := 0;
    }

    method EmitPhysicalRecord(kind: byte, data: Bytes)
      requires Valid() && kind < 5 && blockOffset + HeaderSize + |data| <= BlockSize
      modifies this
      ensures Valid() && dest == old(dest) + Physical(extend, kind, data)
    {
      hide Fixed, Mask, Header, ExtendsConcatenation;
      var crc := extend(typeCrc[kind], data);
      var buf := Fixed(Mask(crc), 4) + [|data| % 256, |data| / 256, kind];
      HeaderIs(extend, kind, data, crc);
      dest := dest + buf;
      dest := dest + data;
      SameRemainder(blockOffset, |old(dest)|, HeaderSize + |data|);
      blockOffset := blockOffset + HeaderSize + |data|;
    }

    /** The fragmenting loop appends exactly the record's bytes. */
    method AddRecord(record: Bytes)
      requires Valid()
      modifies this
      ensures Valid() && dest == old(dest) + Emit(extend, |old(dest)|, record, true)
      ensures LaidOut(extend, dest, |old(dest)|, record) && |dest| == EndOf(|old(dest)|, |record|)
    {
      hide Emit, Piece, Room, Trailer, ExtendsConcatenation, Physical, FragmentType, LaidOut, EndOf;
      var left, begin, more := record, true, true;
      while more
        invariant Valid()
        invariant more ==> dest + Emit(extend, |dest|, left, begin) == old(dest) + Emit(extend, |old(dest)|, record, true)
        invariant !more ==> dest == old(dest) + Emit(extend, |old(dest)|, record, true)
        decreases more, |left|, if Room(|dest|, left) == 0 then 1 else 0
      {
        ghost var before := dest;
        var leftover := BlockSize - blockOffset;
        if leftover < HeaderSize {
          if leftover > 0 {
            dest := dest + seq(leftover, _ => 0);
          }
          blockOffset := 0;
        }
        TrailerWritten(before, dest, leftover);
        var avail := BlockSize - blockOffset - HeaderSize;
        var n := if |left| < avail then |left| else avail;
        RoomIs(before, dest, blockOffset, left, n);
        var end := |left| == n;
        ghost var padded := dest;
        FewTypes(begin, end);
        EmitPhysicalRecord(FragmentType(begin, end), left[..n]);
        PieceIs(extend, before, padded, left, begin);
        EmitStep(extend, before, left, begin);
        left, begin, more := left[n..], false, !end;
      }
      RecordIsLayout(extend, dest, |old(dest)|, record);
    }
  }

  lemma {:induction false} FewTypes(begin: bool, end: bool)
    ensures FullType <= FragmentType(begin, end) <= LastType
  {
  }

  lemma {:induction false} HeaderIs(extend: Extend, kind: byte, data: Bytes, crc: Word)
    requires ExtendsConcatenation(extend) && |data| < 65536 && crc == extend(extend(0, [kind]), data)
    ensures Header(extend, kind, data) == Fixed(Mask(crc), 4) + [|data| % 256, |data| / 256, kind]
  {
    hide Fixed, Mask;
    assert crc == extend(0, [kind] + data);
  }

  lemma {:induction false} RoomIs(before: Bytes, padded: Bytes, blockOffset: nat, left: Bytes, n: nat)
    requires padded == before + Trailer(|before|) && blockOffset == |padded| % BlockSize
    requires n == if |left| < BlockSize - blockOffset - HeaderSize then |left| else BlockSize - blockOffset - HeaderSize
    ensures n == Room(|before|, left)
  {
  }

  lemma {:induction false} PieceIs(extend: Extend, before: Bytes, padded: Bytes, left: Bytes, begin: bool)
    requires padded == before + Trailer(|before|)
    ensures var n := Room(|before|, left);
      padded + Physical(extend, FragmentType(begin, |left| == n), left[..n]) == before + Piece(extend, |before|, left, begin)
  {
    hide Room, Trailer, Physical;
  }

  lemma {:induction false} EmitStep(extend: Extend, before: Bytes, left: Bytes, begin: bool)
    ensures var n, after := Room(|before|, left), before + Piece(extend, |before|, left, begin);
      if n == |left| then before + Emit(extend, |before|, left, begin) == after
      else
        && before + Emit(extend, |before|, left, begin) == after + Emit(extend, |after|, left[n..], false)
        && Room(|after|, left[n..]) > 0
  {
    hide Room, Trailer, Piece;
    var n, piece := Room(|before|, left), Piece(extend, |before|, left, begin);
    if n < |left| {
      MoreRoomNext(|before|, left);
      assert |before + piece| == |before| + |piece|;
      assert before + (piece + Emit(extend, |before| + |piece|, left[n..], false))
          == before + piece + Emit(extend, |before| + |piece|, left[n..], false);
    }
  }

  lemma {:induction false} SameRemainder(a: nat, b: nat, n: nat)
    requires a % BlockSize == b % BlockSize
    ensures (a + n) % BlockSize == (b + n) % BlockSize
  {
  }

  lemma {:induction false} TrailerWritten(before: Bytes, after: Bytes, leftover: nat)
    requires leftover <= BlockSize && (BlockSize - leftover) % BlockSize == |before| % BlockSize
    requires if 0 < leftover < HeaderSize then after == before + seq(leftover, _ => 0) else after == before
    ensures after == before + Trailer(|before|)
    ensures |after| % BlockSize == if leftover < HeaderSize then 0 else BlockSize - leftover
  {
    if 0 < leftover < HeaderSize {
      MultipleOfBlock(|before| / BlockSize + 1);
      assert |after| == (|before| / BlockSize + 1) * BlockSize;
    }
  }

  // ------------------------------------------------------------------
  // The reader.

  class Reader {
    const extend: Extend
    const file: Bytes
    const checksum: bool
    var buffer: Bytes
    var eof: bool
    var endOfBuffer: nat
    var dropped: seq<nat>
    ghost var start: nat

    /** The buffer is the unread end of the block that starts at `start`. */
    ghost predicate Valid()
      reads `buffer, `eof, `endOfBuffer, `start
    {
      && start % BlockSize == 0 && start + |buffer| <= endOfBuffer <= |file|
      && buffer == file[endOfBuffer - |buffer|..endOfBuffer]
      && (if eof then endOfBuffer == |file| && endOfBuffer < start + BlockSize
          else endOfBuffer == start + BlockSize || (endOfBuffer == start && buffer == []))
    }

    ghost function Position(): nat
      requires Valid()
      reads `buffer, `eof, `endOfBuffer, `start
    {
      endOfBuffer - |buffer|
    }

    /** What a scan from the reader's place finds next. */
    ghost function Ahead(): Option<Item>
      requires Valid()
      reads `buffer, `eof, `endOfBuffer, `start
    {
      Next(extend, file, checksum, Position())
    }

    constructor (extend: Extend, file: Bytes, checksum: bool)
      ensures Valid() && Position() == 0 && dropped == []
      ensures this.extend == extend && this.file == file && this.checksum == checksum
    {
      this.extend := extend;
      this.file := file;
      this.checksum := checksum;
      buffer, eof, endOfBuffer, dropped, start := [], false, 0, [], 0;
      new;
      assert buffer == this.file[0..0];
    }

    /** Gives up the rest of the buffer, reporting it or not. */
    method Discard(report: bool)
      requires Valid()
      modifies this`dropped, this`buffer
      ensures Valid() && Position() == endOfBuffer
      ensures dropped == if report then old(dropped) + [old(|buffer|)] else old(dropped)
    {
      if report {
        dropped := dropped + [|buffer|];
      }
      buffer := [];
    }

    /** Reads the next block of the file. */
    method Fill()
      requires Valid() && !eof
      modifies this`buffer, this`eof, this`endOfBuffer, this`start
      ensures Valid() && Position() == old(endOfBuffer)
      ensures eof || |buffer| == BlockSize
    {
      var n := if |file| - endOfBuffer < BlockSize then |file| - endOfBuffer else BlockSize;
      start := endOfBuffer;
      buffer := file[endOfBuffer..endOfBuffer + n];
      endOfBuffer := endOfBuffer + n;
      if n < BlockSize {
        eof := true;
      }
      AddBlock(old(start));
    }

    /** The part of `ReadPhysicalRecord` after the buffer is filled. */
    method ParseBuffer() returns (t: nat, fragment: Bytes)
      requires Valid() && |buffer| >= HeaderSize
      modifies this
      ensures Valid() && old(Ahead()) == Some(Item(t, fragment, Position()))
      ensures dropped == old(dropped) + Reported(extend, file, checksum, old(Position()))
      ensures t != BadRecord ==> dropped == old(dropped)
    {
      hide Next, Readable, Reported, Unfixed, Unmask;
      WhatIsAhead(extend, file, checksum, start, Position(), endOfBuffer);
      var length: nat := buffer[4] as int + 256 * buffer[5] as int;
      var found := buffer[6];
      if HeaderSize + length > |buffer| {
        Discard(true);
        return BadRecord, [];
      }
      if found == 0 && length == 0 {
        Discard(false);
        return BadRecord, [];
      }
      if checksum {
        var expected := Unmask(Unfixed(buffer[..4]) % 0x1_0000_0000);
        var actual := extend(0, buffer[6..HeaderSize + length]);
        if actual != expected {
          Discard(true);
          return BadRecord, [];
        }
      }
      // A type of 5 or 6 in the file reads as its end or as a bad record.
      t, fragment := found, buffer[HeaderSize..HeaderSize + length];
      buffer := buffer[HeaderSize + length..];
    }

    /** Finds what a scan finds, and reports what it passes over unread. */
    method ReadPhysicalRecord() returns (t: nat, fragment: Bytes)
      requires Valid()
      modifies this
      ensures Valid() && Position() >= old(Position())
      ensures old(Ahead()).Some? ==>
        && old(Ahead()) == Some(Item(t, fragment, Position()))
        && FirstHeader(old(Position())) + 7 <= |file|
        && dropped == old(dropped) + Reported(extend, file, checksum, FirstHeader(old(Position())))
        && (t != BadRecord ==> dropped == old(dropped))
      ensures old(Ahead()).None? ==>
        t == EofType && Position() == |file| && dropped == old(dropped) + Unread(|file|, old(Position()))
    {
      hide Next, Readable, Reported, Unread, FirstHeader;
      ghost var p := Position();
      while |buffer| < HeaderSize && !eof
        invariant Valid() && dropped == old(dropped)
        invariant Position() == p || (Position() == FirstHeader(p) && (eof || |buffer| >= HeaderSize))
        decreases |buffer| < HeaderSize && !eof
      {
        TrailerSkipped(start, p, endOfBuffer);
        Fill();
      }
      if |buffer| < HeaderSize {
        EndReached(extend, file, checksum, start, p, Position(), endOfBuffer);
        Discard(|buffer| > 0);
        return EofType, [];
      }
      SameAhead(extend, file, checksum, start, p, Position(), endOfBuffer);
      t, fragment := ParseBuffer();
    }

    /**
     On every file: returns the first record among the fragments that a scan from here finds,
     and nothing exactly if there is none; reports nothing if it starts with the first of them.
     Where a record begins, whole or cut, it returns that record if its last fragment ends
     within the file and nothing otherwise.
     */
    method ReadRecord(ghost record: Bytes, ghost more: Bytes) returns (r: Option<Bytes>)
      requires Valid()
      modifies this
      ensures Valid()
      ensures old(Position()) == |file| ==> r.None? && dropped == old(dropped)
      ensures r.Some? ==> Position() > old(Position())
      ensures var items := Items(extend, file, checksum, old(Position()));
        if r.None? then forall i: nat, j: nat :: !IsRun(items, i, j)
        else exists i: nat, j: nat :: FirstRun(items, i, j) && r.value == DataOf(items, i, j + 1) && Position() == items[j].end
                            && (i == 0 ==> dropped == old(dropped))
      ensures RecordBegins(extend, file, old(Position()), record, true, more) ==>
        var e := old(Position()) + |Emit(extend, old(Position()), record, true)|;
        if e <= |file| then r == Some(record) && Position() == e && dropped == old(dropped) else r.None?
      ensures LaidOut(extend, file, old(Position()), record) ==>
        r == Some(record) && Position() == EndOf(old(Position()), |record|) && dropped == old(dropped)
    {
      hide Emit, RecordBegins, LaidOut, EndOf, Items, Next, DataOf, IsRun, FirstRun;
      ghost var p := Position();
      ghost var i, j;
      r, i, j := Assemble();
      WrittenIsFound(extend, file, checksum, p, record, more, r, i, j);
    }

    /** The loop of `ReadRecord`; `i` and `j` are the first and the last fragment of the record. */
    method Assemble() returns (r: Option<Bytes>, ghost i: nat, ghost j: nat)
      requires Valid()
      modifies this
      ensures Valid()
      ensures old(Position()) == |file| ==> r.None? && dropped == old(dropped)
      ensures r.Some? ==> Position() > old(Position())
      ensures var items := Items(extend, file, checksum, old(Position()));
        if r.None? then forall i: nat, j: nat :: !IsRun(items, i, j)
        else FirstRun(items, i, j) && r.value == DataOf(items, i, j + 1) && Position() == items[j].end
             && (i == 0 ==> dropped == old(dropped))
    {
      hide Next, Items, FirstHeader, Readable, DataOf, IsRun, FirstRun, OpenRun, Gathered, Reported, Unread, From;
      var scratch: Bytes, inFragmentedRecord := [], false;
      ghost var items, k := Items(extend, file, checksum, Position()), 0;
      i, j := 0, 0;
      NoRunYet(items);
      FromStart(extend, file, checksum, Position());
      while true
        invariant Valid() && k <= |items| && From(extend, file, checksum, items, k, Position())
        invariant if k == 0 then Position() == old(Position()) else old(Position()) < Position()
        invariant Gathered(items, k, i, inFragmentedRecord, scratch)
        invariant k == 0 || (inFragmentedRecord && i == 0) ==> dropped == old(dropped)
        decreases |items| - k
      {
        ghost var q := Position();
        ItemsAt(extend, file, checksum, items, k, q);
        OpenIsBefore(items, k, i, inFragmentedRecord, scratch);
        var t, fragment := ReadPhysicalRecord();
        if t != EofType {
          GatherMore(items, k, i, inFragmentedRecord, scratch);
        }
        if t == FullType as nat {
          if inFragmentedRecord && scratch != [] {
            dropped := dropped + [|scratch|];
          }
          i, j := k, k;
          return Some(fragment), i, j;
        } else if t == FirstType as nat {
          if inFragmentedRecord && scratch != [] {
            dropped := dropped + [|scratch|];
          }
          scratch, inFragmentedRecord := fragment, true;
          i := k;
        } else if t == MiddleType as nat {
          if !inFragmentedRecord {
            dropped := dropped + [|fragment|];
          } else {
            scratch := scratch + fragment;
          }
        } else if t == LastType as nat {
          if !inFragmentedRecord {
            dropped := dropped + [|fragment|];
          } else {
            j := k;
            return Some(scratch + fragment), i, j;
          }
        } else if t == EofType {
          if inFragmentedRecord {
            dropped := dropped + [|scratch|];
          }
          NoneLeft(items, i, inFragmentedRecord, scratch);
          return None, 0, 0;
        } else if t == BadRecord {
          if inFragmentedRecord {
            dropped := dropped + [|scratch|];
          }
          scratch, inFragmentedRecord := [], false;
        } else {
          dropped := dropped + [|fragment| + if inFragmentedRecord then |scratch| else 0];
          scratch, inFragmentedRecord := [], false;
        }
        k := k + 1;
      }
    }
  }

  /** No record has ended among the first `k` items; one has begun with item `i`, or none. */
  ghost predicate Gathered(items: seq<Item>, k: nat, i: nat, inFragment: bool, scratch: Bytes)
    requires k <= |items|
  {
    && (forall a: nat, b: nat :: IsRun(items, a, b) ==> k <= b)
    && (if inFragment then OpenRun(items, i, k) && scratch == DataOf(items, i, k) else forall a: nat :: !OpenRun(items, a, k))
  }

  lemma {:induction false} NoRunYet(items: seq<Item>)
    ensures Gathered(items, 0, 0, false, [])
  {
  }

  lemma {:induction false} OpenIsBefore(items: seq<Item>, k: nat, i: nat, inFragment: bool, scratch: Bytes)
    requires k <= |items| && Gathered(items, k, i, inFragment, scratch)
    ensures inFragment ==> i < k
  {
  }

  lemma {:induction false} NoneLeft(items: seq<Item>, i: nat, inFragment: bool, scratch: Bytes)
    requires Gathered(items, |items|, i, inFragment, scratch)
    ensures forall a: nat, b: nat :: !IsRun(items, a, b)
  {
  }

  /** One item more. */
  lemma {:induction false} GatherMore(items: seq<Item>, k: nat, i: nat, inFragment: bool, scratch: Bytes)
    requires k < |items| && Gathered(items, k, i, inFragment, scratch)
    ensures var it := items[k]; match it.kind
      case 1 => FirstRun(items, k, k) && DataOf(items, k, k + 1) == it.data
      case 2 => Gathered(items, k + 1, k, true, it.data)
      case 3 => Gathered(items, k + 1, i, inFragment, if inFragment then scratch + it.data else scratch)
      case 4 =>
        if inFragment then FirstRun(items, i, k) && DataOf(items, i, k + 1) == scratch + it.data
        else Gathered(items, k + 1, i, false, scratch)
      case _ => Gathered(items, k + 1, i, false, [])
  {
    var it := items[k];
    assert DataOf(items, k, k) == [];
    if it.kind != 1 && !(it.kind == 4 && inFragment) {
      NoneEnds(items, k, i, inFragment, scratch);
    }
    if it.kind != 2 && !(it.kind == 3 && inFragment) {
      NoneOpen(items, k, k + 1, i, inFragment, scratch);
    }
  }

  lemma {:induction false} NoneEnds(items: seq<Item>, k: nat, i: nat, inFragment: bool, scratch: Bytes)
    requires k < |items| && Gathered(items, k, i, inFragment, scratch)
    requires items[k].kind != 1 && !(items[k].kind == 4 && inFragment)
    ensures forall a: nat, b: nat :: IsRun(items, a, b) ==> k + 1 <= b
  {
    forall a: nat, b: nat | IsRun(items, a, b)
      ensures b != k
    {
      assert a < b == k ==> OpenRun(items, a, k);
    }
  }

  lemma {:induction false} NoneOpen(items: seq<Item>, k: nat, n: nat, i: nat, inFragment: bool, scratch: Bytes)
    requires k < |items| && n == k + 1 && Gathered(items, k, i, inFragment, scratch)
    requires items[k].kind != 2 && !(items[k].kind == 3 && inFragment)
    ensures forall a: nat :: !OpenRun(items, a, n)
  {
    forall a: nat
      ensures !OpenRun(items, a, n)
    {
      assert OpenRun(items, a, n) && a < k ==> OpenRun(items, a, k);
    }
  }

  /** From the `k`-th on, the items are what a scan at `p` finds. */
  ghost predicate From(extend: Extend, file: Bytes, checksum: bool, items: seq<Item>, k: nat, p: nat)
    requires k <= |items|
  {
    items[k..] == Items(extend, file, checksum, p)
  }

  lemma {:induction false} FromStart(extend: Extend, file: Bytes, checksum: bool, p: nat)
    ensures From(extend, file, checksum, Items(extend, file, checksum, p), 0, p)
  {
  }

  /** The items from `p` on: what is found there first, and then the rest. */
  lemma {:induction false} ItemsAt(extend: Extend, file: Bytes, checksum: bool, items: seq<Item>, k: nat, p: nat)
    requires k <= |items| && From(extend, file, checksum, items, k, p)
    ensures var r := Next(extend, file, checksum, p);
      && (r.None? || r.value.kind == EofType ==> k == |items|)
      && (r.Some? && r.value.kind != EofType ==>
            k < |items| && items[k] == r.value && p < r.value.end && From(extend, file, checksum, items, k + 1, r.value.end))
    ensures p == |file| ==> Next(extend, file, checksum, p).None? && Unread(|file|, p) == []
  {
    var r := Next(extend, file, checksum, p);
    hide Next;
    assert items[k..] == Items(extend, file, checksum, p);
    if r.Some? && r.value.kind != EofType {
      assert items[k..][0] == items[k] && items[k..][1..] == items[k + 1..];
    }
    NoneAfter(extend, file, checksum, |file|);
  }

  lemma {:induction false} NoneAfter(extend: Extend, file: Bytes, checksum: bool, p: nat)
    requires p >= |file|
    ensures Next(extend, file, checksum, p).None? && Unread(|file|, p) == []
  {
  }

  /** A record that was written at `p` is the first among the items from there on. */
  lemma {:induction false} WrittenIsFound(extend: Extend, file: Bytes, checksum: bool, p: nat, record: Bytes, more: Bytes,
                                          r: Option<Bytes>, i: nat, j: nat)
    requires var items := Items(extend, file, checksum, p);
      if r.None? then forall i: nat, j: nat :: !IsRun(items, i, j)
      else FirstRun(items, i, j) && r.value == DataOf(items, i, j + 1)
    ensures p + |Emit(extend, p, record, true)| == EndOf(p, |record|)
    ensures var items := Items(extend, file, checksum, p); var e := EndOf(p, |record|);
      && (RecordBegins(extend, file, p, record, true, more) ==>
            if e <= |file| then r == Some(record) && i == 0 && j < |items| && items[j].end == e else r.None?)
      && (LaidOut(extend, file, p, record) ==> r == Some(record) && i == 0 && j < |items| && items[j].end == e)
  {
    hide Emit, RecordBegins, LaidOut, EndOf, Items, DataOf;
    var items, e := Items(extend, file, checksum, p), EndOf(p, |record|);
    var rest := WhatFollows(extend, file, p, record, more);
    if RecordBegins(extend, file, p, record, true, rest) {
      var n := RecordFound(extend, file, checksum, p, record, true, rest);
      if e <= |file| {
        assert IsRun(items, 0, n);
        FirstIsOnly(items, n, i, j);
      }
    }
  }

  /** What comes after a record that is laid out in the file; `more` if none is. */
  lemma {:induction false} WhatFollows(extend: Extend, file: Bytes, p: nat, record: Bytes, more: Bytes) returns (rest: Bytes)
    ensures p + |Emit(extend, p, record, true)| == EndOf(p, |record|)
    ensures RecordBegins(extend, file, p, record, true, more) ==> RecordBegins(extend, file, p, record, true, rest)
    ensures LaidOut(extend, file, p, record) ==> EndOf(p, |record|) <= |file| && RecordBegins(extend, file, p, record, true, rest)
  {
    hide Emit, LaidOut, EndOf;
    RecordIsLayout(extend, file, p, record);
    if LaidOut(extend, file, p, record) {
      rest := file[EndOf(p, |record|)..];
      assert file[p..] == file[p..EndOf(p, |record|)] + rest;
    } else {
      rest := more;
    }
  }

  /** Fewer than a header's bytes left of a whole block are its trailer. */
  lemma {:induction false} TrailerSkipped(start: nat, p: nat, end: nat)
    requires start % BlockSize == 0 && start <= p <= end && end - p < HeaderSize
    requires end == start + BlockSize || (end == start && p == end)
    ensures FirstHeader(p) == end
  {
    if p < end {
      assert p % BlockSize == p - start;
    } else {
      AddBlock(start);
    }
  }

  /** At a header, or at the trailer before it, the scan is at the same place. */
  lemma {:induction false} SameAhead(extend: Extend, file: Bytes, checksum: bool, start: nat, p: nat, q: nat, end: nat)
    requires start % BlockSize == 0 && start <= q && q + HeaderSize <= end <= start + BlockSize && end <= |file|
    requires q == p || q == FirstHeader(p)
    ensures q == FirstHeader(p) && Next(extend, file, checksum, p) == Next(extend, file, checksum, q)
  {
    assert q % BlockSize == q - start;
  }

  /** At the end of the file there is no room for a header after the trailer either. */
  lemma {:induction false} EndReached(extend: Extend, file: Bytes, checksum: bool, start: nat, p: nat, q: nat, end: nat)
    requires start % BlockSize == 0 && start <= q <= end == |file| && end < start + BlockSize && end - q < HeaderSize
    requires q == p || q == FirstHeader(p)
    ensures Next(extend, file, checksum, p).None? && Unread(|file|, p) == if q < end then [end - q] else []
  {
    assert q % BlockSize == q - start;
  }

  lemma {:induction false} InBlock(file: Bytes, start: nat, q: nat, end: nat)
    requires start % BlockSize == 0 && start <= q && q + HeaderSize <= end <= |file| && end <= start + BlockSize
    requires end == start + BlockSize || end == |file|
    ensures FirstHeader(q) == q && BlockEnd(file, q) == end
  {
    assert q % BlockSize == q - start && q / BlockSize * BlockSize == start;
  }

  lemma {:induction false} SliceOf(file: Bytes, q: nat, end: nat, a: nat, b: nat)
    requires a <= b && q + b <= end <= |file|
    ensures file[q..end][a..b] == file[q + a..q + b]
  {
    assert forall i :: 0 <= i < b - a ==> file[q..end][a..b][i] == file[q..end][a + i] == file[q + (a + i)];
  }

  /** What the scan finds at `q`, by the bytes from there to the end of the block. */
  lemma {:induction false} WhatIsAhead(extend: Extend, file: Bytes, checksum: bool, start: nat, q: nat, end: nat)
    requires start % BlockSize == 0 && start <= q && q + HeaderSize <= end <= |file| && end <= start + BlockSize
    requires end == start + BlockSize || end == |file|
    ensures var buf := file[q..end]; var n := buf[4] as int + 256 * buf[5] as int;
      var bad := HeaderSize + n > |buf| || (buf[6] == 0 && n == 0)
        || (checksum && Unmask(Unfixed(buf[..4]) % 0x1_0000_0000) != extend(0, buf[6..HeaderSize + n]));
      && Next(extend, file, checksum, q)
         == (if bad then Some(Item(BadRecord, [], end)) else Some(Item(buf[6], buf[HeaderSize..HeaderSize + n], q + HeaderSize + n)))
      && Reported(extend, file, checksum, q) == if bad && !(buf[6] == 0 && n == 0) then [|buf|] else []
  {
    hide ChecksumBytes, Unfixed, Unmask, FirstHeader, BlockEnd;
    InBlock(file, start, q, end);
    var buf := file[q..end];
    var n := buf[4] as int + 256 * buf[5] as int;
    assert n == LengthAt(file, q) && buf[6] == file[q + 6];
    if HeaderSize + n <= |buf| {
      SliceOf(file, q, end, 6, HeaderSize + n);
      SliceOf(file, q, end, HeaderSize, HeaderSize + n);
      StoredChecksum(extend(0, buf[6..HeaderSize + n]), buf[..4]);
    }
  }

  /** The checksum test of the reader is that of the layout. */
  lemma {:induction false} StoredChecksum(crc: Word, b: Bytes)
    requires |b| == 4
    ensures Unmask(Unfixed(b) % 0x1_0000_0000) == crc <==> ChecksumBytes(crc, b[0], b[1], b[2], b[3])
  {
    hide Unfixed, Unmask, Mask;
    UnfixedBytes(b);
    MaskedIs(crc);
    UnmaskMask(crc);
    MaskUnmask(Unfixed(b));
  }

  lemma {:induction false} AddBlock(start: nat)
    requires start % BlockSize == 0
    ensures (start + BlockSize) % BlockSize == 0
  {
  }

  // ------------------------------------------------------------------
  // Crash safety.

  /** The number of whole records in a log cut to `cut` bytes is `n`. */
  predicate WholeRecords(records: seq<Bytes>, cut: nat, n: nat)
  {
    && n <= |records| && Boundary(records, n) <= cut
    && (n < |records| ==> cut < Boundary(records, n + 1))
  }

  /** Adding the records one after the other writes the log that holds them. */
  method WriteAll(extend: Extend, records: seq<Bytes>) returns (file: Bytes)
    requires ExtendsConcatenation(extend)
    ensures file == LogOf(extend, records) && LogLaidOut(extend, file, records)
  {
    hide Emit, LogLaidOut, LaidOut, EndOf;
    var writer := new Writer(extend);
    for i := 0 to |records|
      invariant writer.Valid() && fresh(writer) && writer.extend == extend
      invariant writer.dest == LogOf(extend, records[..i])
    {
      assert records[..i + 1][..i] == records[..i];
      writer.AddRecord(records[i]);
    }
    assert records[..|records|] == records;
    file := writer.dest;
    LogIsLayout(extend, file, records);
  }

  /** From a log cut at any byte, the reader returns exactly the records that end before the cut. */
  method ReadAll(extend: Extend, file: Bytes, checksum: bool, ghost whole: Bytes, ghost records: seq<Bytes>)
      returns (out: seq<Bytes>, dropped: seq<nat>)
    requires LogLaidOut(extend, whole, records) && file <= whole
    ensures WholeRecords(records, |file|, |out|) && out == records[..|out|]
    ensures file == whole ==> out == records && dropped == []
  {
    hide Emit, LogLaidOut, LaidOut, EndOf, Boundary, RecordBegins, Items, IsRun, FirstRun, DataOf;
    LogStarts(records);
    LogLength(extend, whole, records);
    var reader := new Reader(extend, file, checksum);
    out := [];
    while true
      invariant reader.Valid() && reader.file == file && reader.extend == extend && fresh(reader)
      invariant |out| <= |records| && out == records[..|out|]
      invariant reader.Position() == Boundary(records, |out|)
      invariant reader.dropped == []
      decreases |records| - |out|
    {
      ghost var n, p := |out|, reader.Position();
      ghost var record, more := [], [];
      if n < |records| {
        record := records[n];
        more := NextRecord(extend, file, whole, records, n);
      }
      var r := reader.ReadRecord(record, more);
      if r.None? {
        return out, reader.dropped;
      }
      out := out + [r.value];
    }
  }

  lemma {:induction false} LogStarts(records: seq<Bytes>)
    ensures Boundary(records, 0) == 0
  {
  }

  lemma {:induction false} LogLength(extend: Extend, whole: Bytes, records: seq<Bytes>)
    requires LogLaidOut(extend, whole, records)
    ensures |whole| == Boundary(records, |records|)
  {
  }

  lemma {:induction false} NextRecord(extend: Extend, file: Bytes, whole: Bytes, records: seq<Bytes>, n: nat)
    returns (more: Bytes)
    requires LogLaidOut(extend, whole, records) && file <= whole && n < |records| && Boundary(records, n) <= |file|
    ensures var p := Boundary(records, n);
      && RecordBegins(extend, file, p, records[n], true, more)
      && Boundary(records, n + 1) == p + |Emit(extend, p, records[n], true)| <= |whole|
  {
    hide Emit, Boundary, LogLaidOut, LogOf;
    LogIsLayout(extend, whole, records);
    BoundaryIs(extend, records, n);
    more := RecordAt(extend, records, n);
    var head := LogOf(extend, records[..n]);
    var e := Emit(extend, |head|, records[n], true);
    assert head + e + more == head + (e + more);
    assert file[|head|..] <= whole[|head|..] == e + more;
    BoundaryStep(extend, records, n);
  }

  lemma {:induction false} BoundaryStep(extend: Extend, records: seq<Bytes>, n: nat)
    requires n < |records|
    ensures Boundary(records, n + 1) == Boundary(records, n) + |Emit(extend, Boundary(records, n), records[n], true)|
  {
    RecordIsLayout(extend, [], Boundary(records, n), records[n]);
  }
}

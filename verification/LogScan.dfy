/**
 What is in a log file, whatever its bytes: the fragments a scan finds, one after the other,
 and the records among them. A record is one fragment of type 1, or one of type 2, any
 number of type 3 and one of type 4, found right after each other.
 */
module LogScan {
  import opened InternalKeys
  import opened LogFormat

  /** One fragment with its type, or a stretch that is not readable, with type 6; and where the scan goes on. */
  datatype Item = Item(kind: nat, data: Bytes, end: nat)

  /** The types a scan gives besides those found in headers. */
  const EofType: nat := 5
  const BadRecord: nat := 6

  /** The end of the block that offset `q` is in, or of the file. */
  function BlockEnd(file: Bytes, q: nat): nat
  {
    Least((q / 32768 + 1) * 32768, |file|)
  }

  function LengthAt(file: Bytes, q: nat): nat
    requires q + 7 <= |file|
  {
    file[q + 4] as int + 256 * file[q + 5] as int
  }

  /** The header at `q` is for a fragment that fits its block and, if that is asked for, has its checksum. */
  predicate Readable(extend: Extend, file: Bytes, checksum: bool, q: nat)
    requires q + 7 <= |file|
  {
    var n := LengthAt(file, q);
    && q + 7 + n <= BlockEnd(file, q)
    && !(file[q + 6] == 0 && n == 0)
    && (checksum ==> ChecksumBytes(extend(0, file[q + 6..q + 7 + n]), file[q], file[q + 1], file[q + 2], file[q + 3]))
  }

  /** What a scan at offset `p` finds. After a header it cannot trust it goes on with the next block. */
  function Next(extend: Extend, file: Bytes, checksum: bool, p: nat): (r: Option<Item>)
    ensures r.Some? ==> p < r.value.end <= |file|
  {
    var q := FirstHeader(p);
    if q + 7 > |file| then None
    else if Readable(extend, file, checksum, q) then
      var e := q + 7 + LengthAt(file, q);
      Some(Item(file[q + 6], file[q + 7..e], e))
    else Some(Item(BadRecord, [], BlockEnd(file, q)))
  }

  /** What is reported when the scan passes over the header at `q` unread: the rest of the block, unless it is blank. */
  function Reported(extend: Extend, file: Bytes, checksum: bool, q: nat): seq<nat>
    requires q + 7 <= |file|
  {
    if Readable(extend, file, checksum, q) || (LengthAt(file, q) == 0 && file[q + 6] == 0) then []
    else [BlockEnd(file, q) - q]
  }

  /** What is reported at the end of the file: bytes too few for a header, unless they end their block. */
  function Unread(size: nat, p: nat): seq<nat>
  {
    var q := if FirstHeader(p) <= size then FirstHeader(p) else p;
    if q < size then [size - q] else []
  }

  /** All a scan from `p` on finds; a fragment of type 5 reads as the end of the file. */
  function Items(extend: Extend, file: Bytes, checksum: bool, p: nat): seq<Item>
    decreases |file| - p
  {
    match Next(extend, file, checksum, p)
    case None => []
    case Some(it) => if it.kind == EofType then [] else [it] + Items(extend, file, checksum, it.end)
  }

  /** The items from the `i`-th to the `j`-th are one record. */
  predicate IsRun(items: seq<Item>, i: nat, j: nat)
  {
    && i <= j < |items|
    && (if i == j then items[i].kind == 1
        else items[i].kind == 2 && items[j].kind == 4 && forall m :: i < m < j ==> items[m].kind == 3)
  }

  /** No record ends before this one. */
  ghost predicate FirstRun(items: seq<Item>, i: nat, j: nat)
  {
    IsRun(items, i, j) && forall i', j' :: IsRun(items, i', j') ==> j <= j'
  }

  /** The items from the `i`-th to before the `k`-th begin a record. */
  predicate OpenRun(items: seq<Item>, i: nat, k: nat)
  {
    i < k <= |items| && items[i].kind == 2 && forall m :: i < m < k ==> items[m].kind == 3
  }

  function DataOf(items: seq<Item>, i: nat, j: nat): Bytes
    requires i <= j <= |items|
  {
    if i == j then [] else DataOf(items, i, j - 1) + items[j - 1].data
  }

  // ------------------------------------------------------------------
  // Fragments that were written are found.

  /** The file, from offset `p` on, starts like the trailer and fragment, up to where it was cut. */
  ghost predicate FragmentAt(extend: Extend, file: Bytes, p: nat, kind: byte, data: Bytes, more: Bytes)
  {
    && p <= |file| && 1 <= kind <= 4 && |data| < BlockSize
    && FirstHeader(p) % BlockSize + HeaderSize + |data| <= BlockSize
    && file[p..] <= Trailer(p) + Physical(extend, kind, data) + more
  }

  /** The file, from offset `p` on, starts like the record, up to where it was cut. */
  ghost predicate RecordBegins(extend: Extend, file: Bytes, p: nat, data: Bytes, begin: bool, more: Bytes)
  {
    p <= |file| && file[p..] <= Emit(extend, p, data, begin) + more
  }

  lemma {:induction false} HeaderFound(extend: Extend, file: Bytes, p: nat, kind: byte, data: Bytes, more: Bytes)
    requires FragmentAt(extend, file, p, kind, data, more) && FirstHeader(p) + 7 <= |file|
    ensures var q := FirstHeader(p);
      && LengthAt(file, q) == |data| && file[q + 6] == kind
      && ChecksumBytes(extend(0, [kind] + data), file[q], file[q + 1], file[q + 2], file[q + 3])
      && (q + 7 + |data| <= |file| ==> file[q + 7..q + 7 + |data|] == data && file[q + 6..q + 7 + |data|] == [kind] + data)
  {
    hide Trailer, ChecksumBytes, Header, FirstHeader;
    var q := FirstHeader(p);
    AfterTrailer(extend, file, p, kind, data, more);
    HeaderIsBytes(extend, file, q, kind, data);
    if q + 7 + |data| <= |file| {
      assert file[q + 6..q + 7 + |data|] == [file[q + 6]] + file[q + 7..q + 7 + |data|];
    }
  }

  /** Past the trailer the file goes on with the header, and then the data. */
  lemma {:induction false} AfterTrailer(extend: Extend, file: Bytes, p: nat, kind: byte, data: Bytes, more: Bytes)
    requires FragmentAt(extend, file, p, kind, data, more) && FirstHeader(p) + 7 <= |file|
    ensures var q := FirstHeader(p);
      && file[q..q + 7] == Header(extend, kind, data)
      && (q + 7 + |data| <= |file| ==> file[q + 7..q + 7 + |data|] == data)
  {
    hide Trailer, Header, FirstHeader;
    var q := FirstHeader(p);
    TrailerIsZeros(file, p);
    var head, part := Header(extend, kind, data), Physical(extend, kind, data);
    assert Trailer(p) + part + more == Trailer(p) + (part + more);
    assert file[p..][|Trailer(p)|..] == file[q..];
    assert file[q..] <= part + more;
    assert file[q..q + 7] == file[q..][..7] == (part + more)[..7] == head;
    if q + 7 + |data| <= |file| {
      assert file[q + 7..q + 7 + |data|] == file[q..][7..7 + |data|] == (part + more)[7..7 + |data|];
      assert (part + more)[7..7 + |data|] == data;
    }
  }

  /** A written fragment is found whole, or as an end or an unreadable rest if the file ends within it. */
  lemma {:induction false} FragmentFound(extend: Extend, file: Bytes, checksum: bool, p: nat, kind: byte, data: Bytes,
                                         more: Bytes)
    requires FragmentAt(extend, file, p, kind, data, more)
    ensures var e := FirstHeader(p) + 7 + |data|; var r := Next(extend, file, checksum, p);
      if e <= |file| then r == Some(Item(kind, data, e))
      else r.None? || r == Some(Item(BadRecord, [], |file|))
  {
    hide ChecksumBytes, LengthAt, FirstHeader, BlockEnd, Trailer, Physical;
    var q := FirstHeader(p);
    FitsBlock(file, q, |data|);
    if q + 7 <= |file| {
      HeaderFound(extend, file, p, kind, data, more);
    }
  }

  /** A fragment that fits its block ends within the block, or the file ends first. */
  lemma {:induction false} FitsBlock(file: Bytes, q: nat, n: nat)
    requires q % 32768 + 7 + n <= 32768
    ensures if q + 7 + n <= |file| then q + 7 + n <= BlockEnd(file, q) else BlockEnd(file, q) == |file|
  {
    assert q == q / 32768 * 32768 + q % 32768;
  }

  // ------------------------------------------------------------------
  // Records that were written are found.

  /** The next fragment of a record, and the rest of the record after it. */
  lemma {:induction false} PieceStep(extend: Extend, file: Bytes, p: nat, left: Bytes, begin: bool, more: Bytes)
    returns (rest: Bytes)
    requires RecordBegins(extend, file, p, left, begin, more)
    ensures var n := Room(p, left); var q := FirstHeader(p) + HeaderSize + n;
      var e := p + |Emit(extend, p, left, begin)|;
      && FragmentAt(extend, file, p, FragmentType(begin, n == |left|), left[..n], rest)
      && q <= e && p < q && (n == |left| ==> e == q)
      && (n < |left| && q <= |file| ==>
            RecordBegins(extend, file, q, left[n..], false, more) && q + |Emit(extend, q, left[n..], false)| == e)
  {
    TrailerIsZeros(file, p);
    var n, piece, all := Room(p, left), Piece(extend, p, left, begin), Emit(extend, p, left, begin);
    EmitIsPieceAnd(extend, p, left, begin);
    hide Emit;
    rest := all[|piece|..] + more;
    assert all + more == piece + rest;
    hide Room, Trailer, Physical, FirstHeader;
    var q := p + |piece|;
    if n < |left| && q <= |file| {
      assert file[p..][|piece|..] == file[q..];
      assert all + more == piece + (Emit(extend, q, left[n..], false) + more);
      assert file[p..] <= all + more;
      assert file[q..] <= Emit(extend, q, left[n..], false) + more;
    }
  }

  /** The first `n + 1` items are a record, or the rest of one. */
  predicate RestRun(items: seq<Item>, begin: bool, n: nat)
  {
    && n < |items|
    && (if begin then IsRun(items, 0, n) else items[n].kind == 4 && forall m :: 0 <= m < n ==> items[m].kind == 3)
  }

  /** Nothing among the items ends a record. */
  predicate NoEnd(items: seq<Item>)
  {
    forall m :: 0 <= m < |items| ==> items[m].kind != 1 && items[m].kind != 4
  }

  lemma {:induction false} OneMoreData(it: Item, items: seq<Item>, n: nat)
    requires n <= |items|
    ensures DataOf([it] + items, 0, n + 1) == it.data + DataOf(items, 0, n)
  {
    if n > 0 {
      OneMoreData(it, items, n - 1);
      assert ([it] + items)[n] == items[n - 1];
    } else {
      assert DataOf([it] + items, 0, 0) == [];
    }
  }

  lemma {:induction false} NothingAtEnd(extend: Extend, file: Bytes, checksum: bool, p: nat)
    requires p >= |file|
    ensures Items(extend, file, checksum, p) == []
  {
  }

  lemma {:induction false} RunGoesOn(it: Item, items: seq<Item>, begin: bool, n: nat)
    requires RestRun(items, false, n) && it.kind == if begin then 2 else 3
    ensures RestRun([it] + items, begin, n + 1)
  {
    var all := [it] + items;
    forall m | 0 < m < n + 1
      ensures all[m].kind == 3
    {
      assert all[m] == items[m - 1];
    }
    assert all[n + 1] == items[n];
  }

  /** From where a record begins, the scan finds its fragments; if the file ends within it, nothing that ends a record. */
  lemma {:induction false} RecordFound(extend: Extend, file: Bytes, checksum: bool, p: nat, left: Bytes, begin: bool,
                                       more: Bytes) returns (n: nat)
    requires RecordBegins(extend, file, p, left, begin, more)
    ensures var items := Items(extend, file, checksum, p); var e := p + |Emit(extend, p, left, begin)|;
      if e <= |file| then RestRun(items, begin, n) && DataOf(items, 0, n + 1) == left && items[n].end == e
      else NoEnd(items)
    decreases |left|, if Room(p, left) == 0 then 1 else 0
  {
    hide Emit, Next, RecordBegins, FragmentAt, FirstHeader, Room, Trailer;
    var k, e := Room(p, left), p + |Emit(extend, p, left, begin)|;
    var kind := FragmentType(begin, k == |left|);
    var rest := PieceStep(extend, file, p, left, begin, more);
    FragmentFound(extend, file, checksum, p, kind, left[..k], rest);
    n := 0;
    var q := FirstHeader(p) + 7 + k;
    if q > |file| {
      NothingAtEnd(extend, file, checksum, |file|);
    } else {
      var it, after := Item(kind, left[..k], q), Items(extend, file, checksum, q);
      assert Items(extend, file, checksum, p) == [it] + after;
      OneMoreData(it, after, 0);
      if k == |left| {
        assert left[..k] == left;
      } else {
        TrailerIsZeros(file, p);
        MoreRoomNext(p, left);
        var m := RecordFound(extend, file, checksum, q, left[k..], false, more);
        n := m + 1;
        if e <= |file| {
          RunGoesOn(it, after, begin, m);
          OneMoreData(it, after, m + 1);
          assert left[..k] + left[k..] == left;
        }
      }
    }
  }

  /** A record at the start of the items is the first to end, and the only one to end there. */
  lemma {:induction false} FirstIsOnly(items: seq<Item>, n: nat, i: nat, j: nat)
    requires IsRun(items, 0, n) && FirstRun(items, i, j)
    ensures i == 0 && j == n
  {
  }
}

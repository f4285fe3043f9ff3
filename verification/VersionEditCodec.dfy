/**
 The manifest record format: `VersionEdit::EncodeTo` and `VersionEdit::DecodeFrom`.

 `Clear` leaves the compaction pointers alone, so decoding into a used object appends the
 decoded pointers to its old ones; everything else is the encoded edit exactly.
 */
module VersionEditCodec {
  import opened InternalKeys
  import opened Coding
  import opened ByteLayout
  import Versions

  const NumLevels: nat := Versions.NumLevels

  datatype FileMeta = FileMeta(number: nat, size: nat, smallest: Bytes, largest: Bytes)

  datatype Fields = Fields(
    comparator: Option<Bytes>,
    logNumber: Option<nat>,
    prevLogNumber: Option<nat>,
    nextFile: Option<nat>,
    lastSequence: Option<nat>,
    compactPointers: seq<(nat, Bytes)>,
    deleted: set<(nat, nat)>,
    newFiles: seq<(nat, FileMeta)>)

  const NoFields := Fields(None, None, None, None, None, [], {}, [])

  // ------------------------------------------------------------------
  // One tagged item.

  datatype Item =
    | Comparator(name: Bytes)
    | LogNumber(n: nat)
    | PrevLogNumber(n: nat)
    | NextFile(n: nat)
    | LastSequence(n: nat)
    | CompactPointer(level: nat, key: Bytes)
    | DeletedFile(level: nat, n: nat)
    | NewFile(level: nat, file: FileMeta)

  predicate Short(s: Bytes)
  {
    |s| < 0x1_0000_0000
  }

  predicate Long(n: nat)
  {
    n < 0x1_0000_0000_0000_0000
  }

  /** The values fit the widths the fields have in the source. */
  predicate Fits(item: Item)
  {
    match item
    case Comparator(name) => Short(name)
    case LogNumber(n) => Long(n)
    case PrevLogNumber(n) => Long(n)
    case NextFile(n) => Long(n)
    case LastSequence(n) => Long(n)
    case CompactPointer(level, key) => level < NumLevels && Short(key)
    case DeletedFile(level, n) => level < NumLevels && Long(n)
    case NewFile(level, f) => level < NumLevels && Long(f.number) && Long(f.size) && Short(f.smallest) && Short(f.largest)
  }

  function Tag(item: Item): nat
  {
    match item
    case Comparator(_) => 1
    case LogNumber(_) => 2
    case NextFile(_) => 3
    case LastSequence(_) => 4
    case CompactPointer(_, _) => 5
    case DeletedFile(_, _) => 6
    case NewFile(_, _) => 7
    case PrevLogNumber(_) => 9
  }

  function Payload(item: Item): Bytes
  {
    match item
    case Comparator(name) => Prefixed(name)
    case LogNumber(n) => Varint(n)
    case PrevLogNumber(n) => Varint(n)
    case NextFile(n) => Varint(n)
    case LastSequence(n) => Varint(n)
    case CompactPointer(level, key) => Varint(level) + Prefixed(key)
    case DeletedFile(level, n) => Varint(level) + Varint(n)
    case NewFile(level, f) =>
      Varint(level) + (Varint(f.number) + (Varint(f.size) + (Prefixed(f.smallest) + Prefixed(f.largest))))
  }

  function GetLevel(input: Bytes): Option<(nat, Bytes)>
  {
    match GetVarint(input, 32)
    case None => None
    case Some((v, rest)) => if v < NumLevels then Some((v, rest)) else None
  }

  /** The fields of a new-file entry after its level. */
  function GetFile(input: Bytes): Option<(FileMeta, Bytes)>
  {
    match GetVarint(input, 64)
    case None => None
    case Some((number, i1)) =>
      match GetVarint(i1, 64)
      case None => None
      case Some((size, i2)) =>
        match GetPrefixed(i2)
        case None => None
        case Some((smallest, i3)) =>
          match GetPrefixed(i3)
          case None => None
          case Some((largest, i4)) => Some((FileMeta(number, size, smallest, largest), i4))
  }

  function Wrap(r: Option<(nat, Bytes)>, f: nat -> Item): Option<(Item, Bytes)>
  {
    match r
    case None => None
    case Some((n, rest)) => Some((f(n), rest))
  }

  /** The switch of the decoding loop: what follows `tag`. */
  function GetItem(tag: nat, input: Bytes): Option<(Item, Bytes)>
  {
    if tag == 1 then
      match GetPrefixed(input)
      case None => None
      case Some((s, rest)) => Some((Comparator(s), rest))
    else if tag == 2 then Wrap(GetVarint(input, 64), (n: nat) => LogNumber(n))
    else if tag == 9 then Wrap(GetVarint(input, 64), (n: nat) => PrevLogNumber(n))
    else if tag == 3 then Wrap(GetVarint(input, 64), (n: nat) => NextFile(n))
    else if tag == 4 then Wrap(GetVarint(input, 64), (n: nat) => LastSequence(n))
    else if tag == 5 then
      match GetLevel(input)
      case None => None
      case Some((level, rest)) =>
        match GetPrefixed(rest)
        case None => None
        case Some((key, rest')) => Some((CompactPointer(level, key), rest'))
    else if tag == 6 then
      match GetLevel(input)
      case None => None
      case Some((level, rest)) => Wrap(GetVarint(rest, 64), (n: nat) => DeletedFile(level, n))
    else if tag == 7 then
      match GetLevel(input)
      case None => None
      case Some((level, rest)) =>
        match GetFile(rest)
        case None => None
        case Some((file, rest')) => Some((NewFile(level, file), rest'))
    else None
  }

  lemma {:induction false} LevelRoundTrip(level: nat, rest: Bytes)
    requires level < NumLevels
    ensures GetLevel(Varint(level) + rest) == Some((level, rest))
  {
    VarintRoundTrip(level, 32, rest);
  }

  lemma {:induction false} FileRoundTrip(level: nat, f: FileMeta, rest: Bytes)
    requires Fits(NewFile(level, f))
    ensures GetFile((Varint(f.number) + (Varint(f.size) + (Prefixed(f.smallest) + Prefixed(f.largest)))) + rest)
         == Some((f, rest))
  {
    var i3 := Prefixed(f.largest) + rest;
    var i2 := Prefixed(f.smallest) + i3;
    var i1 := Varint(f.size) + i2;
    var i0 := Varint(f.number) + i1;
    assert (Varint(f.number) + (Varint(f.size) + (Prefixed(f.smallest) + Prefixed(f.largest)))) + rest == i0;
    VarintRoundTrip(f.number, 64, i1);
    VarintRoundTrip(f.size, 64, i2);
    PrefixedRoundTrip(f.smallest, i3);
    PrefixedRoundTrip(f.largest, rest);
  }

  /** Every item reads back, whatever follows it. */
  lemma {:induction false} ItemRoundTrip(item: Item, rest: Bytes)
    requires Fits(item)
    ensures GetItem(Tag(item), Payload(item) + rest) == Some((item, rest))
  {
    hide Varint, GetVarint, GetPrefixed, Prefixed, GetFile, GetLevel;
    match item
    case Comparator(name) => PrefixedRoundTrip(name, rest);
    case LogNumber(n) => VarintRoundTrip(n, 64, rest);
    case PrevLogNumber(n) => VarintRoundTrip(n, 64, rest);
    case NextFile(n) => VarintRoundTrip(n, 64, rest);
    case LastSequence(n) => VarintRoundTrip(n, 64, rest);
    case CompactPointer(level, key) =>
      assert Payload(item) + rest == Varint(level) + (Prefixed(key) + rest);
      LevelRoundTrip(level, Prefixed(key) + rest);
      PrefixedRoundTrip(key, rest);
    case DeletedFile(level, n) =>
      assert Payload(item) + rest == Varint(level) + (Varint(n) + rest);
      LevelRoundTrip(level, Varint(n) + rest);
      VarintRoundTrip(n, 64, rest);
    case NewFile(level, f) =>
      var tail := Varint(f.number) + (Varint(f.size) + (Prefixed(f.smallest) + Prefixed(f.largest)));
      assert Payload(item) + rest == Varint(level) + (tail + rest);
      LevelRoundTrip(level, tail + rest);
      FileRoundTrip(level, f, rest);
  }

  // ------------------------------------------------------------------
  // A whole edit.

  function EncodeItem(item: Item): Bytes
  {
    Varint(Tag(item)) + Payload(item)
  }

  function EncodeItems(items: seq<Item>): Bytes
  {
    if items == [] then [] else EncodeItem(items[0]) + EncodeItems(items[1..])
  }

  function Apply(f: Fields, item: Item): Fields
  {
    match item
    case Comparator(name) => f.(comparator := Some(name))
    case LogNumber(n) => f.(logNumber := Some(n))
    case PrevLogNumber(n) => f.(prevLogNumber := Some(n))
    case NextFile(n) => f.(nextFile := Some(n))
    case LastSequence(n) => f.(lastSequence := Some(n))
    case CompactPointer(level, key) => f.(compactPointers := f.compactPointers + [(level, key)])
    case DeletedFile(level, n) => f.(deleted := f.deleted + {(level, n)})
    case NewFile(level, file) => f.(newFiles := f.newFiles + [(level, file)])
  }

  function ApplyItems(f: Fields, items: seq<Item>): Fields
    decreases |items|
  {
    if items == [] then f else ApplyItems(Apply(f, items[0]), items[1..])
  }

  lemma {:induction false} EncodeConcat(a: seq<Item>, b: seq<Item>)
    ensures EncodeItems(a + b) == EncodeItems(a) + EncodeItems(b)
  {
    hide EncodeItem;
    if a == [] {
      assert a + b == b;
    } else {
      EncodeConcat(a[1..], b);
      assert (a + b)[1..] == a[1..] + b;
    }
  }

  lemma {:induction false} ApplyConcat(f: Fields, a: seq<Item>, b: seq<Item>)
    ensures ApplyItems(f, a + b) == ApplyItems(ApplyItems(f, a), b)
    decreases |a|
  {
    if a == [] {
      assert a + b == b;
    } else {
      ApplyConcat(Apply(f, a[0]), a[1..], b);
      assert (a + b)[1..] == a[1..] + b;
    }
  }

  // The items of an edit, in the order they are written.

  function Numbers(f: Fields): seq<Item>
  {
    (if f.comparator.Some? then [Comparator(f.comparator.value)] else []) +
    (if f.logNumber.Some? then [LogNumber(f.logNumber.value)] else []) +
    (if f.prevLogNumber.Some? then [PrevLogNumber(f.prevLogNumber.value)] else []) +
    (if f.nextFile.Some? then [NextFile(f.nextFile.value)] else []) +
    (if f.lastSequence.Some? then [LastSequence(f.lastSequence.value)] else [])
  }

  function Pointers(ps: seq<(nat, Bytes)>): seq<Item>
  {
    seq(|ps|, i requires 0 <= i < |ps| => CompactPointer(ps[i].0, ps[i].1))
  }

  function Deletions(ds: seq<(nat, nat)>): seq<Item>
  {
    seq(|ds|, i requires 0 <= i < |ds| => DeletedFile(ds[i].0, ds[i].1))
  }

  function Additions(fs: seq<(nat, FileMeta)>): seq<Item>
  {
    seq(|fs|, i requires 0 <= i < |fs| => NewFile(fs[i].0, fs[i].1))
  }

  function ItemsOf(f: Fields, order: seq<(nat, nat)>): seq<Item>
  {
    Numbers(f) + Pointers(f.compactPointers) + Deletions(order) + Additions(f.newFiles)
  }

  predicate Precedes(a: (nat, nat), b: (nat, nat))
  {
    a.0 < b.0 || (a.0 == b.0 && a.1 < b.1)
  }

  /** The order in which `std::set` hands out its elements. */
  ghost predicate Listing(order: seq<(nat, nat)>, s: set<(nat, nat)>)
  {
    && (forall i, j :: 0 <= i < j < |order| ==> Precedes(order[i], order[j]))
    && (forall p :: p in order <==> p in s)
  }

  // ------------------------------------------------------------------
  // The bytes in numbers.

  /** One field: a tag byte and what belongs to it. */
  ghost predicate ItemAt(b: Bytes, at: nat, item: Item, end: nat)
  {
    && at < |b|
    && match item
       case Comparator(name) => b[at] == 1 && StringAt(b, at + 1, name, end)
       case LogNumber(n) => b[at] == 2 && VarintAt(b, at + 1, n, end)
       case NextFile(n) => b[at] == 3 && VarintAt(b, at + 1, n, end)
       case LastSequence(n) => b[at] == 4 && VarintAt(b, at + 1, n, end)
       case PrevLogNumber(n) => b[at] == 9 && VarintAt(b, at + 1, n, end)
       case CompactPointer(level, key) =>
         b[at] == 5 && exists m: nat :: VarintAt(b, at + 1, level, m) && StringAt(b, m, key, end)
       case DeletedFile(level, n) =>
         b[at] == 6 && exists m: nat :: VarintAt(b, at + 1, level, m) && VarintAt(b, m, n, end)
       case NewFile(level, f) =>
         b[at] == 7 && exists m: nat :: VarintAt(b, at + 1, level, m) && FileAt(b, m, f, end)
  }

  /** Number, size, smallest and largest key. */
  ghost predicate FileAt(b: Bytes, at: nat, f: FileMeta, end: nat)
  {
    exists m: nat, k: nat, l: nat ::
      && VarintAt(b, at, f.number, m) && VarintAt(b, m, f.size, k)
      && StringAt(b, k, f.smallest, l) && StringAt(b, l, f.largest, end)
  }

  ghost predicate ItemsAt(b: Bytes, at: nat, items: seq<Item>, end: nat)
    decreases |items|
  {
    if items == [] then at == end
    else exists m: nat :: ItemAt(b, at, items[0], m) && ItemsAt(b, m, items[1..], end)
  }

  lemma {:induction false} FileIs(b: Bytes, at: nat, f: FileMeta, end: nat)
    ensures FileAt(b, at, f, end) <==>
      var part := Varint(f.number) + (Varint(f.size) + (Prefixed(f.smallest) + Prefixed(f.largest)));
      end == at + |part| && Holds(b, at, part)
  {
    hide Varint, Prefixed, VarintAt, StringAt, Holds;
    var n, s, x, y := Varint(f.number), Varint(f.size), Prefixed(f.smallest), Prefixed(f.largest);
    var m := at + |n|;
    var k := m + |s|;
    var l := k + |x|;
    HoldsBoth(b, at, n, s + (x + y));
    HoldsBoth(b, m, s, x + y);
    HoldsBoth(b, k, x, y);
    VarintIs(b, at, f.number, m);
    VarintIs(b, m, f.size, k);
    StringIs(b, k, f.smallest, l);
    StringIs(b, l, f.largest, end);
    if FileAt(b, at, f, end) {
      var m', k', l' :| VarintAt(b, at, f.number, m') && VarintAt(b, m', f.size, k')
                        && StringAt(b, k', f.smallest, l') && StringAt(b, l', f.largest, end);
      VarintIs(b, at, f.number, m');
      VarintIs(b, m', f.size, k');
      StringIs(b, k', f.smallest, l');
    }
  }

  lemma {:induction false} OneByteTag(item: Item)
    ensures Tag(item) < 128 && EncodeItem(item) == [Tag(item)] + Payload(item)
  {
    hide Payload;
  }

  lemma {:induction false} ItemIs(b: Bytes, at: nat, item: Item, end: nat)
    ensures ItemAt(b, at, item, end) <==> end == at + |EncodeItem(item)| && Holds(b, at, EncodeItem(item))
  {
    hide Varint, Prefixed, VarintAt, StringAt, Holds, FileAt, EncodeItem;
    OneByteTag(item);
    HoldsBoth(b, at, [Tag(item)], Payload(item));
    HoldsByte(b, at, Tag(item));
    match item
    case Comparator(name) => StringIs(b, at + 1, name, end);
    case LogNumber(n) => VarintIs(b, at + 1, n, end);
    case NextFile(n) => VarintIs(b, at + 1, n, end);
    case LastSequence(n) => VarintIs(b, at + 1, n, end);
    case PrevLogNumber(n) => VarintIs(b, at + 1, n, end);
    case CompactPointer(level, key) =>
      HoldsBoth(b, at + 1, Varint(level), Prefixed(key));
      LevelIs(b, at + 1, level);
      StringIs(b, at + 1 + |Varint(level)|, key, end);
    case DeletedFile(level, n) =>
      HoldsBoth(b, at + 1, Varint(level), Varint(n));
      LevelIs(b, at + 1, level);
      VarintIs(b, at + 1 + |Varint(level)|, n, end);
    case NewFile(level, f) =>
      HoldsBoth(b, at + 1, Varint(level), Varint(f.number) + (Varint(f.size) + (Prefixed(f.smallest) + Prefixed(f.largest))));
      LevelIs(b, at + 1, level);
      FileIs(b, at + 1 + |Varint(level)|, f, end);
  }

  lemma {:induction false} LevelIs(b: Bytes, at: nat, level: nat)
    ensures forall m: nat :: VarintAt(b, at, level, m) <==> m == at + |Varint(level)| && Holds(b, at, Varint(level))
  {
    forall m: nat
      ensures VarintAt(b, at, level, m) <==> m == at + |Varint(level)| && Holds(b, at, Varint(level))
    {
      VarintIs(b, at, level, m);
    }
  }

  /** The bytes of a record are the layout of its fields. */
  lemma {:induction false} ItemsAre(b: Bytes, at: nat, items: seq<Item>, end: nat)
    requires at <= |b|
    ensures ItemsAt(b, at, items, end) <==> end == at + |EncodeItems(items)| && Holds(b, at, EncodeItems(items))
    decreases |items|
  {
    hide ItemAt, EncodeItem;
    if items != [] {
      var x, y := EncodeItem(items[0]), EncodeItems(items[1..]);
      HoldsBoth(b, at, x, y);
      ItemIs(b, at, items[0], at + |x|);
      if at + |x| <= |b| {
        ItemsAre(b, at + |x|, items[1..], end);
      }
      if ItemsAt(b, at, items, end) {
        var m: nat :| ItemAt(b, at, items[0], m) && ItemsAt(b, m, items[1..], end);
        ItemIs(b, at, items[0], m);
      }
    }
  }

  /** Fields are written in this order of their tags: 1, 2, 9, 3, 4, 5, 6, 7. */
  function Place(item: Item): nat
  {
    match item
    case Comparator(_) => 1
    case LogNumber(_) => 2
    case PrevLogNumber(_) => 3
    case NextFile(_) => 4
    case LastSequence(_) => 5
    case CompactPointer(_, _) => 6
    case DeletedFile(_, _) => 7
    case NewFile(_, _) => 8
  }

  ghost predicate InOrder(items: seq<Item>)
  {
    forall i, j :: 0 <= i < j < |items| ==> Place(items[i]) <= Place(items[j])
  }

  lemma {:induction false} ItemsInOrder(f: Fields, order: seq<(nat, nat)>)
    ensures InOrder(ItemsOf(f, order))
  {
    var a, b, c, d := Numbers(f), Pointers(f.compactPointers), Deletions(order), Additions(f.newFiles);
    NumbersInOrder(f);
    hide Numbers;
    assert forall i :: 0 <= i < |b| ==> Place(b[i]) == 6;
    assert forall i :: 0 <= i < |c| ==> Place(c[i]) == 7;
    assert forall i :: 0 <= i < |d| ==> Place(d[i]) == 8;
  }

  lemma {:induction false} NumbersInOrder(f: Fields)
    ensures InOrder(Numbers(f)) && forall i :: 0 <= i < |Numbers(f)| ==> Place(Numbers(f)[i]) <= 5
  {
  }

  // ------------------------------------------------------------------
  // What is accepted when reading.

  ghost predicate LevelAt(b: Bytes, at: nat, level: nat, end: nat)
  {
    NumberAt(b, at, 32, level, end) && level < 7
  }

  /** What follows the tag `tag`. */
  ghost predicate FieldAt(b: Bytes, at: nat, tag: nat, item: Item, end: nat)
  {
    match item
    case Comparator(name) => tag == 1 && TextAt(b, at, name, end)
    case LogNumber(n) => tag == 2 && NumberAt(b, at, 64, n, end)
    case NextFile(n) => tag == 3 && NumberAt(b, at, 64, n, end)
    case LastSequence(n) => tag == 4 && NumberAt(b, at, 64, n, end)
    case PrevLogNumber(n) => tag == 9 && NumberAt(b, at, 64, n, end)
    case CompactPointer(level, key) => tag == 5 && exists m: nat :: LevelAt(b, at, level, m) && TextAt(b, m, key, end)
    case DeletedFile(level, n) => tag == 6 && exists m: nat :: LevelAt(b, at, level, m) && NumberAt(b, m, 64, n, end)
    case NewFile(level, f) => tag == 7 && exists m: nat :: LevelAt(b, at, level, m) && FileRead(b, m, f, end)
  }

  ghost predicate FileRead(b: Bytes, at: nat, f: FileMeta, end: nat)
  {
    exists m: nat :: NumberAt(b, at, 64, f.number, m) && FileRest(b, m, f, end)
  }

  ghost predicate FileRest(b: Bytes, at: nat, f: FileMeta, end: nat)
  {
    exists m: nat :: NumberAt(b, at, 64, f.size, m) && KeysRead(b, m, f, end)
  }

  ghost predicate KeysRead(b: Bytes, at: nat, f: FileMeta, end: nat)
  {
    exists m: nat :: TextAt(b, at, f.smallest, m) && TextAt(b, m, f.largest, end)
  }

  ghost predicate ItemRead(b: Bytes, at: nat, item: Item, end: nat)
  {
    exists tag: nat, m: nat :: NumberAt(b, at, 32, tag, m) && FieldAt(b, m, tag, item, end)
  }

  ghost predicate ItemsRead(b: Bytes, at: nat, items: seq<Item>, end: nat)
    decreases |items|
  {
    if items == [] then at == end
    else exists m: nat :: ItemRead(b, at, items[0], m) && ItemsRead(b, m, items[1..], end)
  }

  // ------------------------------------------------------------------
  // Reading the items back rebuilds the edit.

  lemma {:induction false} ApplyPointers(f: Fields, ps: seq<(nat, Bytes)>)
    ensures ApplyItems(f, Pointers(ps)) == f.(compactPointers := f.compactPointers + ps)
    decreases |ps|
  {
    if ps == [] {
      assert f.compactPointers + ps == f.compactPointers;
    } else {
      var g := f.(compactPointers := f.compactPointers + [ps[0]]);
      ApplyPointers(g, ps[1..]);
      assert Pointers(ps)[1..] == Pointers(ps[1..]);
      assert f.compactPointers + [ps[0]] + ps[1..] == f.compactPointers + ps;
    }
  }

  lemma {:induction false} ApplyDeletions(f: Fields, ds: seq<(nat, nat)>)
    ensures ApplyItems(f, Deletions(ds)) == f.(deleted := f.deleted + set p | p in ds)
    decreases |ds|
  {
    if ds == [] {
      assert f.deleted + (set p | p in ds) == f.deleted;
    } else {
      var g := f.(deleted := f.deleted + {ds[0]});
      ApplyDeletions(g, ds[1..]);
      assert Deletions(ds)[1..] == Deletions(ds[1..]);
      assert ds == [ds[0]] + ds[1..];
      assert f.deleted + {ds[0]} + (set p | p in ds[1..]) == f.deleted + set p | p in ds;
    }
  }

  lemma {:induction false} ApplyAdditions(f: Fields, fs: seq<(nat, FileMeta)>)
    ensures ApplyItems(f, Additions(fs)) == f.(newFiles := f.newFiles + fs)
    decreases |fs|
  {
    if fs == [] {
      assert f.newFiles + fs == f.newFiles;
    } else {
      var g := f.(newFiles := f.newFiles + [fs[0]]);
      ApplyAdditions(g, fs[1..]);
      assert Additions(fs)[1..] == Additions(fs[1..]);
      assert f.newFiles + [fs[0]] + fs[1..] == f.newFiles + fs;
    }
  }

  lemma {:induction false} ApplyNumbers(f: Fields, start: Fields)
    requires start == NoFields.(compactPointers := start.compactPointers)
    ensures ApplyItems(start, Numbers(f)) == f.(compactPointers := start.compactPointers, deleted := {}, newFiles := [])
  {
    var a := if f.comparator.Some? then [Comparator(f.comparator.value)] else [];
    var b := if f.logNumber.Some? then [LogNumber(f.logNumber.value)] else [];
    var c := if f.prevLogNumber.Some? then [PrevLogNumber(f.prevLogNumber.value)] else [];
    var d := if f.nextFile.Some? then [NextFile(f.nextFile.value)] else [];
    var e := if f.lastSequence.Some? then [LastSequence(f.lastSequence.value)] else [];
    assert Numbers(f) == a + b + c + d + e;
    ApplyConcat(start, a + b + c + d, e);
    ApplyConcat(start, a + b + c, d);
    ApplyConcat(start, a + b, c);
    ApplyConcat(start, a, b);
  }

  lemma {:induction false} RebuiltFields(f: Fields, order: seq<(nat, nat)>, start: Fields)
    requires Listing(order, f.deleted) && start == NoFields.(compactPointers := start.compactPointers)
    ensures ApplyItems(start, ItemsOf(f, order)) == f.(compactPointers := start.compactPointers + f.compactPointers)
  {
    hide Numbers;
    var a, b, c, d := Numbers(f), Pointers(f.compactPointers), Deletions(order), Additions(f.newFiles);
    ApplyConcat(start, a + b + c, d);
    ApplyConcat(start, a + b, c);
    ApplyConcat(start, a, b);
    ApplyNumbers(f, start);
    var f1 := f.(compactPointers := start.compactPointers, deleted := {}, newFiles := []);
    ApplyPointers(f1, f.compactPointers);
    var f2 := f1.(compactPointers := start.compactPointers + f.compactPointers);
    ApplyDeletions(f2, order);
    assert (set p | p in order) == f.deleted;
    var f3 := f2.(deleted := f.deleted);
    ApplyAdditions(f3, f.newFiles);
    assert {} + f.deleted == f.deleted && [] + f.newFiles == f.newFiles;
  }

  // ------------------------------------------------------------------
  // Decoding.

  lemma {:induction false} GetVarintShrinks(input: Bytes, bits: nat)
    requires bits == 32 || bits == 64
    ensures var r := GetVarint(input, bits); r.Some? ==> |r.value.1| < |input|
  {
    GroupsShrink(input, if bits == 32 then 5 else 10);
  }

  lemma {:induction false} GetFileShrinks(input: Bytes)
    ensures var r := GetFile(input); r.Some? ==> |r.value.1| < |input|
  {
    hide GetVarint, GetPrefixed;
    GetVarintShrinks(input, 64);
    if GetVarint(input, 64).Some? {
      var i1 := GetVarint(input, 64).value.1;
      GetVarintShrinks(i1, 64);
      if GetVarint(i1, 64).Some? {
        var i2 := GetVarint(i1, 64).value.1;
        PrefixedShrinks(i2);
        if GetPrefixed(i2).Some? {
          PrefixedShrinks(GetPrefixed(i2).value.1);
        }
      }
    }
  }

  lemma {:induction false} GetItemShrinks(tag: nat, input: Bytes)
    ensures var r := GetItem(tag, input); r.Some? ==> |r.value.1| < |input|
  {
    hide GetVarint, GetPrefixed, GetFile;
    GetVarintShrinks(input, 32);
    GetVarintShrinks(input, 64);
    PrefixedShrinks(input);
    if GetLevel(input).Some? {
      var rest := GetLevel(input).value.1;
      GetVarintShrinks(rest, 64);
      PrefixedShrinks(rest);
      GetFileShrinks(rest);
    }
  }

  /** Whether the input is a sound record, and the fields read from it up to where it is not. */
  function Decode(f: Fields, input: Bytes): (bool, Fields)
    decreases |input|
  {
    match GetVarint(input, 32)
    case None => (input == [], f)
    case Some((tag, rest)) =>
      GetVarintShrinks(input, 32);
      GetItemShrinks(tag, rest);
      match GetItem(tag, rest)
      case None => (false, f)
      case Some((item, rest')) => Decode(Apply(f, item), rest')
  }

  lemma {:induction false} DecodeItems(f: Fields, items: seq<Item>)
    requires forall i :: 0 <= i < |items| ==> Fits(items[i])
    ensures Decode(f, EncodeItems(items)) == (true, ApplyItems(f, items))
    decreases |items|
  {
    hide GetVarint, Payload, GetItem, Fits;
    if items == [] {
      EmptyHasNoTag();
    } else {
      var item, rest := items[0], EncodeItems(items[1..]);
      assert EncodeItems(items) == Varint(Tag(item)) + (Payload(item) + rest);
      VarintRoundTrip(Tag(item), 32, Payload(item) + rest);
      ItemRoundTrip(item, rest);
      DecodeItems(Apply(f, item), items[1..]);
    }
  }

  lemma {:induction false} EmptyHasNoTag()
    ensures GetVarint([], 32) == None
  {
  }

  // ------------------------------------------------------------------
  // Decoding accepts exactly the lists of fields.

  lemma {:induction false} FileFound(b: Bytes, at: nat, f: FileMeta, end: nat)
    requires at <= |b| && FileRead(b, at, f, end)
    ensures end <= |b| && GetFile(b[at..]) == Some((f, b[end..]))
  {
    hide GetVarint, GetPrefixed, NumberAt, TextAt;
    var m: nat :| NumberAt(b, at, 64, f.number, m) && FileRest(b, m, f, end);
    var k: nat :| NumberAt(b, m, 64, f.size, k) && KeysRead(b, k, f, end);
    var l: nat :| TextAt(b, k, f.smallest, l) && TextAt(b, l, f.largest, end);
    NumberFound(b, at, 64, f.number, m);
    NumberFound(b, m, 64, f.size, k);
    TextFound(b, k, f.smallest, l);
    TextFound(b, l, f.largest, end);
  }

  lemma {:induction false} FileIsRead(b: Bytes, at: nat)
    requires at <= |b| && GetFile(b[at..]).Some?
    ensures var (f, rest) := GetFile(b[at..]).value;
      |rest| < |b| - at && rest == b[|b| - |rest|..] && FileRead(b, at, f, |b| - |rest|)
  {
    hide GetVarint, GetPrefixed, NumberAt, TextAt;
    var (f, rest) := GetFile(b[at..]).value;
    NumberRead(b, at, 64);
    var m := |b| - |GetVarint(b[at..], 64).value.1|;
    NumberRead(b, m, 64);
    var k := |b| - |GetVarint(b[m..], 64).value.1|;
    TextRead(b, k);
    var l := |b| - |GetPrefixed(b[k..]).value.1|;
    TextRead(b, l);
    assert KeysRead(b, k, f, |b| - |rest|);
    assert FileRest(b, m, f, |b| - |rest|);
  }

  lemma {:induction false} LevelFound(b: Bytes, at: nat, level: nat, end: nat)
    requires at <= |b| && LevelAt(b, at, level, end)
    ensures end <= |b| && GetLevel(b[at..]) == Some((level, b[end..]))
  {
    hide GetVarint, NumberAt;
    NumberFound(b, at, 32, level, end);
  }

  lemma {:induction false} LevelIsRead(b: Bytes, at: nat)
    requires at <= |b| && GetLevel(b[at..]).Some?
    ensures var (level, rest) := GetLevel(b[at..]).value;
      |rest| < |b| - at && rest == b[|b| - |rest|..] && LevelAt(b, at, level, |b| - |rest|)
  {
    hide GetVarint, NumberAt;
    NumberRead(b, at, 32);
  }

  lemma {:induction false} FieldFound(b: Bytes, at: nat, tag: nat, item: Item, end: nat)
    requires at <= |b| && FieldAt(b, at, tag, item, end)
    ensures end <= |b| && GetItem(tag, b[at..]) == Some((item, b[end..]))
  {
    hide GetVarint, GetPrefixed, NumberAt, TextAt, GetLevel, GetFile, LevelAt, FileRead;
    match item
    case Comparator(name) => TextFound(b, at, name, end);
    case LogNumber(n) => NumberFound(b, at, 64, n, end);
    case NextFile(n) => NumberFound(b, at, 64, n, end);
    case LastSequence(n) => NumberFound(b, at, 64, n, end);
    case PrevLogNumber(n) => NumberFound(b, at, 64, n, end);
    case CompactPointer(level, key) =>
      var m: nat :| LevelAt(b, at, level, m) && TextAt(b, m, key, end);
      LevelFound(b, at, level, m);
      TextFound(b, m, key, end);
    case DeletedFile(level, n) =>
      var m: nat :| LevelAt(b, at, level, m) && NumberAt(b, m, 64, n, end);
      LevelFound(b, at, level, m);
      NumberFound(b, m, 64, n, end);
    case NewFile(level, f) =>
      var m: nat :| LevelAt(b, at, level, m) && FileRead(b, m, f, end);
      LevelFound(b, at, level, m);
      FileFound(b, m, f, end);
  }

  lemma {:induction false} FieldIsRead(b: Bytes, at: nat, tag: nat)
    requires at <= |b| && GetItem(tag, b[at..]).Some?
    ensures var (item, rest) := GetItem(tag, b[at..]).value;
      |rest| < |b| - at && rest == b[|b| - |rest|..] && FieldAt(b, at, tag, item, |b| - |rest|)
  {
    hide GetVarint, GetPrefixed, NumberAt, TextAt, GetLevel, GetFile, LevelAt, FileRead;
    if tag == 1 {
      TextRead(b, at);
    } else if tag == 2 || tag == 3 || tag == 4 || tag == 9 {
      NumberRead(b, at, 64);
    } else {
      LevelIsRead(b, at);
      var m := |b| - |GetLevel(b[at..]).value.1|;
      if tag == 5 {
        TextRead(b, m);
      } else if tag == 6 {
        NumberRead(b, m, 64);
      } else {
        FileIsRead(b, m);
      }
    }
  }

  lemma {:induction false} ItemFound(b: Bytes, at: nat, item: Item, end: nat)
    requires ItemRead(b, at, item, end)
    ensures at < end <= |b|
    ensures GetVarint(b[at..], 32).Some?
    ensures var (tag, rest) := GetVarint(b[at..], 32).value; GetItem(tag, rest) == Some((item, b[end..]))
  {
    hide GetVarint, NumberAt, FieldAt, GetItem;
    var tag: nat, m: nat :| NumberAt(b, at, 32, tag, m) && FieldAt(b, m, tag, item, end);
    NumberFound(b, at, 32, tag, m);
    FieldFound(b, m, tag, item, end);
    GetItemShrinks(tag, b[m..]);
  }

  /** The fields found up to the end are applied, each to what those before it left. */
  lemma {:induction false} ReadingDecodes(f: Fields, b: Bytes, at: nat, items: seq<Item>)
    requires at <= |b| && ItemsRead(b, at, items, |b|)
    ensures Decode(f, b[at..]) == (true, ApplyItems(f, items))
    decreases |items|
  {
    hide GetVarint, GetItem, ItemRead;
    if items == [] {
      EmptyHasNoTag();
    } else {
      var m: nat :| ItemRead(b, at, items[0], m) && ItemsRead(b, m, items[1..], |b|);
      ItemFound(b, at, items[0], m);
      ReadingDecodes(Apply(f, items[0]), b, m, items[1..]);
    }
  }

  lemma {:induction false} DecodingReads(f: Fields, b: Bytes, at: nat) returns (items: seq<Item>)
    requires at <= |b| && Decode(f, b[at..]).0
    ensures ItemsRead(b, at, items, |b|) && Decode(f, b[at..]).1 == ApplyItems(f, items)
    decreases |b| - at
  {
    hide GetItem, NumberAt, FieldAt, GetVarint, ItemRead;
    NumberRead(b, at, 32);
    match GetVarint(b[at..], 32)
    case None => items := [];
    case Some((tag, rest)) =>
      var m := |b| - |rest|;
      FieldIsRead(b, m, tag);
      var (item, rest') := GetItem(tag, rest).value;
      var k := |b| - |rest'|;
      IsItem(b, at, tag, m, item, k);
      var more := DecodingReads(Apply(f, item), b, k);
      items := [item] + more;
      assert items[1..] == more;
  }

  /** A record is accepted exactly if it is a list of fields, which are then applied in turn. */
  lemma {:induction false} DecodesOrNot(f: Fields, src: Bytes)
    ensures Decode(f, src).0 <==> exists items :: ItemsRead(src, 0, items, |src|)
    ensures forall items :: ItemsRead(src, 0, items, |src|) ==> Decode(f, src).1 == ApplyItems(f, items)
  {
    hide Decode, ItemsRead, ApplyItems;
    assert src[0..] == src;
    if Decode(f, src).0 {
      var items := DecodingReads(f, src, 0);
    }
    forall items | ItemsRead(src, 0, items, |src|)
      ensures Decode(f, src) == (true, ApplyItems(f, items))
    {
      ReadingDecodes(f, src, 0, items);
    }
  }

  lemma {:induction false} IsItem(b: Bytes, at: nat, tag: nat, m: nat, item: Item, end: nat)
    requires NumberAt(b, at, 32, tag, m) && FieldAt(b, m, tag, item, end)
    ensures ItemRead(b, at, item, end)
  {
  }

  ghost predicate FieldsFit(f: Fields)
  {
    && (f.comparator.Some? ==> Fits(Comparator(f.comparator.value)))
    && (f.logNumber.Some? ==> Long(f.logNumber.value)) && (f.prevLogNumber.Some? ==> Long(f.prevLogNumber.value))
    && (f.nextFile.Some? ==> Long(f.nextFile.value)) && (f.lastSequence.Some? ==> Long(f.lastSequence.value))
    && (forall p :: p in f.compactPointers ==> Fits(CompactPointer(p.0, p.1)))
    && (forall p :: p in f.deleted ==> Fits(DeletedFile(p.0, p.1)))
    && (forall p :: p in f.newFiles ==> Fits(NewFile(p.0, p.1)))
  }

  /** The record of an edit decodes, into any object, to that edit after the object's own pointers. */
  lemma {:induction false} EditRoundTrip(f: Fields, order: seq<(nat, nat)>, start: Fields)
    requires FieldsFit(f) && Listing(order, f.deleted) && start == NoFields.(compactPointers := start.compactPointers)
    ensures Decode(start, EncodeItems(ItemsOf(f, order)))
         == (true, f.(compactPointers := start.compactPointers + f.compactPointers))
  {
    var items := ItemsOf(f, order);
    forall i | 0 <= i < |items|
      ensures Fits(items[i])
    {
      ItemFits(f, order, items[i]);
    }
    DecodeItems(start, items);
    RebuiltFields(f, order, start);
  }

  /** Decoding gives back the edit exactly if the object had no pointers left from before. */
  lemma {:induction false} RoundTripIsExact(f: Fields, order: seq<(nat, nat)>, start: Fields)
    requires FieldsFit(f) && Listing(order, f.deleted) && start == NoFields.(compactPointers := start.compactPointers)
    ensures Decode(start, EncodeItems(ItemsOf(f, order))) == (true, f) <==> start.compactPointers == []
  {
    EditRoundTrip(f, order, start);
    var pointers := start.compactPointers + f.compactPointers;
    assert |pointers| == |f.compactPointers| <==> start.compactPointers == [];
    assert start.compactPointers == [] ==> pointers == f.compactPointers;
  }

  lemma {:induction false} ItemFits(f: Fields, order: seq<(nat, nat)>, item: Item)
    requires FieldsFit(f) && Listing(order, f.deleted) && item in ItemsOf(f, order)
    ensures Fits(item)
  {
    if item in Pointers(f.compactPointers) {
      var i :| 0 <= i < |f.compactPointers| && item == Pointers(f.compactPointers)[i];
      assert f.compactPointers[i] in f.compactPointers;
    } else if item in Deletions(order) {
      var i :| 0 <= i < |order| && item == Deletions(order)[i];
      assert order[i] in order;
    } else if item in Additions(f.newFiles) {
      var i :| 0 <= i < |f.newFiles| && item == Additions(f.newFiles)[i];
      assert f.newFiles[i] in f.newFiles;
    }
  }

  // ------------------------------------------------------------------
  // The object.

  /** A set of pairs has a first element in the order. */
  lemma {:induction false} FirstPair(s: set<(nat, nat)>) returns (p: (nat, nat))
    requires s != {}
    ensures p in s && forall q :: q in s && q != p ==> Precedes(p, q)
  {
    var a :| a in s;
    p := a;
    if s != {a} {
      var b := FirstPair(s - {a});
      p := if Precedes(b, a) then b else a;
      forall q | q in s && q != p
        ensures Precedes(p, q)
      {
        assert q == a || q in s - {a};
      }
    }
  }

  class VersionEdit {
    var comparator: Option<Bytes>
    var logNumber: Option<nat>
    var prevLogNumber: Option<nat>
    var nextFile: Option<nat>
    var lastSequence: Option<nat>
    var compactPointers: seq<(nat, Bytes)>
    var deleted: set<(nat, nat)>
    var newFiles: seq<(nat, FileMeta)>

    function Contents(): Fields
      reads this
    {
      Fields(comparator, logNumber, prevLogNumber, nextFile, lastSequence, compactPointers, deleted, newFiles)
    }

    /** Everything but the compaction pointers is reset. */
    method Clear()
      modifies this
      ensures Contents() == NoFields.(compactPointers := old(compactPointers))
    {
      comparator, logNumber, prevLogNumber, nextFile, lastSequence := None, None, None, None, None;
      deleted, newFiles := {}, [];
    }

    /** The scalar fields that are set. */
    method EncodeNumbers() returns (dst: Bytes)
      ensures dst == EncodeItems(Numbers(Contents()))
    {
      hide EncodeItem;
      dst := [];
      ghost var done := [];
      if comparator.Some? {
        OneMore(done, Comparator(comparator.value));
        dst, done := dst + EncodeItem(Comparator(comparator.value)), done + [Comparator(comparator.value)];
      }
      if logNumber.Some? {
        OneMore(done, LogNumber(logNumber.value));
        dst, done := dst + EncodeItem(LogNumber(logNumber.value)), done + [LogNumber(logNumber.value)];
      }
      if prevLogNumber.Some? {
        OneMore(done, PrevLogNumber(prevLogNumber.value));
        dst, done := dst + EncodeItem(PrevLogNumber(prevLogNumber.value)), done + [PrevLogNumber(prevLogNumber.value)];
      }
      if nextFile.Some? {
        OneMore(done, NextFile(nextFile.value));
        dst, done := dst + EncodeItem(NextFile(nextFile.value)), done + [NextFile(nextFile.value)];
      }
      if lastSequence.Some? {
        OneMore(done, LastSequence(lastSequence.value));
        dst, done := dst + EncodeItem(LastSequence(lastSequence.value)), done + [LastSequence(lastSequence.value)];
      }
      assert done == Numbers(Contents());
    }

    method EncodeTo() returns (dst: Bytes, ghost order: seq<(nat, nat)>)
      ensures Listing(order, deleted) && dst == EncodeItems(ItemsOf(Contents(), order))
      ensures ItemsAt(dst, 0, ItemsOf(Contents(), order), |dst|) && InOrder(ItemsOf(Contents(), order))
    {
      dst := EncodeNumbers();
      hide EncodeItem, EncodeItems;
      hide Numbers;
      ghost var done := Numbers(Contents());
      for i := 0 to |compactPointers|
        invariant done == Numbers(Contents()) + Pointers(compactPointers[..i]) && dst == EncodeItems(done)
      {
        var item := CompactPointer(compactPointers[i].0, compactPointers[i].1);
        OneMore(done, item);
        assert Pointers(compactPointers[..i + 1]) == Pointers(compactPointers[..i]) + [item];
        dst, done := dst + EncodeItem(item), done + [item];
      }
      assert compactPointers[..|compactPointers|] == compactPointers;
      ghost var before := done;
      order := [];
      var rest := deleted;
      while rest != {}
        invariant done == before + Deletions(order) && dst == EncodeItems(done)
        invariant Listing(order, deleted - rest) && rest <= deleted
        invariant forall p, q :: p in order && q in rest ==> Precedes(p, q)
        decreases rest
      {
        ghost var first := FirstPair(rest);
        var p :| p in rest && forall q :: q in rest && q != p ==> Precedes(p, q);
        var item := DeletedFile(p.0, p.1);
        OneMore(done, item);
        assert Deletions(order + [p]) == Deletions(order) + [item];
        dst, done, rest := dst + EncodeItem(item), done + [item], rest - {p};
        order := order + [p];
      }
      before := done;
      for i := 0 to |newFiles|
        invariant done == before + Additions(newFiles[..i]) && dst == EncodeItems(done)
      {
        var item := NewFile(newFiles[i].0, newFiles[i].1);
        OneMore(done, item);
        assert Additions(newFiles[..i + 1]) == Additions(newFiles[..i]) + [item];
        dst, done := dst + EncodeItem(item), done + [item];
      }
      assert newFiles[..|newFiles|] == newFiles;
      ItemsAre(dst, 0, ItemsOf(Contents(), order), |dst|);
      ItemsInOrder(Contents(), order);
    }

    method Set(item: Item)
      modifies this
      ensures Contents() == Apply(old(Contents()), item)
    {
      match item {
        case Comparator(name) => comparator := Some(name);
        case LogNumber(n) => logNumber := Some(n);
        case PrevLogNumber(n) => prevLogNumber := Some(n);
        case NextFile(n) => nextFile := Some(n);
        case LastSequence(n) => lastSequence := Some(n);
        case CompactPointer(level, key) => compactPointers := compactPointers + [(level, key)];
        case DeletedFile(level, n) => deleted := deleted + {(level, n)};
        case NewFile(level, file) => newFiles := newFiles + [(level, file)];
      }
    }

    /** The decoding loop, which ends at the first thing it cannot read. */
    method DecodeFrom(src: Bytes) returns (ok: bool)
      modifies this
      ensures (ok, Contents()) == Decode(NoFields.(compactPointers := old(compactPointers)), src)
      ensures ok <==> exists items :: ItemsRead(src, 0, items, |src|)
      ensures forall items :: ItemsRead(src, 0, items, |src|) ==>
        Contents() == ApplyItems(NoFields.(compactPointers := old(compactPointers)), items)
    {
      hide GetVarint, GetItem, Apply, ItemsRead, ApplyItems;
      Clear();
      ghost var start := Contents();
      DecodesOrNot(start, src);
      var input := src;
      while GetVarint(input, 32).Some?
        invariant Decode(Contents(), input) == Decode(start, src)
        decreases |input|
      {
        var (tag, rest) := GetVarint(input, 32).value;
        GetVarintShrinks(input, 32);
        GetItemShrinks(tag, rest);
        var r := GetItem(tag, rest);
        if r.None? {
          return false;
        }
        Set(r.value.0);
        input := r.value.1;
      }
      ok := input == [];
    }
  }

  lemma {:induction false} OneMore(done: seq<Item>, item: Item)
    ensures EncodeItems(done + [item]) == EncodeItems(done) + EncodeItem(item)
  {
    hide EncodeItem;
    EncodeConcat(done, [item]);
    assert EncodeItems([item]) == EncodeItem(item);
  }

  /** An edit object that was used for one record keeps its pointer when it decodes the next, which has none. */
  method ReusedEditKeepsPointer() returns (ok: bool, pointers: seq<(nat, Bytes)>)
    ensures ok && pointers == [(1, [7])]
  {
    var edit := new VersionEdit;
    edit.compactPointers := [];
    edit.Clear();
    edit.Set(CompactPointer(1, [7]));
    DecodeItems(NoFields.(compactPointers := edit.compactPointers), []);
    ok := edit.DecodeFrom([]);
    pointers := edit.compactPointers;
  }
}

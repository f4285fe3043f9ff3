/**
 The bytes of a write batch: a sequence number, a count and the operations. What `Put`,
 `Delete` and `Append` write, `Iterate` reads back, and `Append` joins the operations of
 two batches.
 */
module WriteBatchCodec {
  import opened InternalKeys
  import opened Coding
  import opened ByteLayout

  const HeaderSize: nat := 12

  datatype Op = Put(key: Bytes, value: Bytes) | Delete(key: Bytes)

  function EncodeOp(op: Op): (r: Bytes)
    ensures |r| > 0
  {
    match op
    case Put(key, value) => [1] + Prefixed(key) + Prefixed(value)
    case Delete(key) => [0] + Prefixed(key)
  }

  function Body(ops: seq<Op>): Bytes
  {
    if ops == [] then [] else EncodeOp(ops[0]) + Body(ops[1..])
  }

  function RepOf(sequence: nat, ops: seq<Op>): Bytes
  {
    Fixed(sequence, 8) + Fixed(|ops|, 4) + Body(ops)
  }

  lemma {:induction false} BodyConcat(a: seq<Op>, b: seq<Op>)
    ensures Body(a + b) == Body(a) + Body(b)
  {
    hide EncodeOp;
    if a == [] {
      assert a + b == b;
    } else {
      BodyConcat(a[1..], b);
      assert (a + b)[1..] == a[1..] + b;
    }
  }

  // ------------------------------------------------------------------
  // Reading.

  /** One operation and what follows it. */
  function GetOp(input: Bytes): Option<(Op, Bytes)>
    requires input != []
  {
    if input[0] == 1 then
      match GetPrefixed(input[1..])
      case None => None
      case Some((key, rest)) =>
        match GetPrefixed(rest)
        case None => None
        case Some((value, rest')) => Some((Put(key, value), rest'))
    else if input[0] == 0 then
      match GetPrefixed(input[1..])
      case None => None
      case Some((key, rest)) => Some((Delete(key), rest))
    else None
  }

  lemma {:induction false} GetOpShrinks(input: Bytes)
    requires input != []
    ensures var r := GetOp(input); r.Some? ==> |r.value.1| < |input|
  {
    hide GetPrefixed;
    PrefixedShrinks(input[1..]);
    if GetPrefixed(input[1..]).Some? {
      PrefixedShrinks(GetPrefixed(input[1..]).value.1);
    }
  }

  /** All operations, or none if anything does not parse. */
  function GetOps(input: Bytes): Option<seq<Op>>
    decreases |input|
  {
    if input == [] then Some([])
    else
      GetOpShrinks(input);
      match GetOp(input)
      case None => None
      case Some((op, rest)) =>
        match GetOps(rest)
        case None => None
        case Some(ops) => Some([op] + ops)
  }

  /** What `Iterate` hands to its handler when it succeeds. */
  function Decode(rep: Bytes): Option<seq<Op>>
  {
    if |rep| < HeaderSize then None
    else
      match GetOps(rep[HeaderSize..])
      case None => None
      case Some(ops) => if |ops| == Unfixed(rep[8..HeaderSize]) then Some(ops) else None
  }

  predicate OpFits(op: Op)
  {
    match op
    case Put(key, value) => |key| < 0x1_0000_0000 && |value| < 0x1_0000_0000
    case Delete(key) => |key| < 0x1_0000_0000
  }

  lemma {:induction false} OpRoundTrip(op: Op, rest: Bytes)
    requires OpFits(op)
    ensures GetOp(EncodeOp(op) + rest) == Some((op, rest))
  {
    hide Prefixed, GetPrefixed;
    var input := EncodeOp(op) + rest;
    match op
    case Put(key, value) =>
      assert input[1..] == Prefixed(key) + (Prefixed(value) + rest);
      PrefixedRoundTrip(key, Prefixed(value) + rest);
      PrefixedRoundTrip(value, rest);
    case Delete(key) =>
      assert input[1..] == Prefixed(key) + rest;
      PrefixedRoundTrip(key, rest);
  }

  lemma {:induction false} BodyRoundTrip(ops: seq<Op>)
    requires forall i :: 0 <= i < |ops| ==> OpFits(ops[i])
    ensures GetOps(Body(ops)) == Some(ops)
  {
    hide EncodeOp, GetOp;
    if ops != [] {
      BodyRoundTrip(ops[1..]);
      OpRoundTrip(ops[0], Body(ops[1..]));
      assert [ops[0]] + ops[1..] == ops;
    }
  }

  /** Every batch reads back as the operations put into it. */
  lemma {:induction false} BatchRoundTrip(sequence: nat, ops: seq<Op>)
    requires |ops| < 0x1_0000_0000 && forall i :: 0 <= i < |ops| ==> OpFits(ops[i])
    ensures Decode(RepOf(sequence, ops)) == Some(ops)
  {
    hide Body, Fixed, Unfixed, GetOps, OpFits;
    var rep := RepOf(sequence, ops);
    assert rep[HeaderSize..] == Body(ops) && rep[8..HeaderSize] == Fixed(|ops|, 4);
    Pow256Four();
    FixedRoundTrip(|ops|, 4);
    BodyRoundTrip(ops);
  }

  // ------------------------------------------------------------------
  // The bytes in numbers.

  /** A put is a byte 1, the key and the value; a delete a byte 0 and the key. */
  ghost predicate OpAt(rep: Bytes, at: nat, op: Op, end: nat)
  {
    && at < |rep|
    && match op
       case Put(key, value) =>
         rep[at] == 1 && exists mid: nat :: StringAt(rep, at + 1, key, mid) && StringAt(rep, mid, value, end)
       case Delete(key) => rep[at] == 0 && StringAt(rep, at + 1, key, end)
  }

  ghost predicate OpsAt(rep: Bytes, at: nat, ops: seq<Op>, end: nat)
    decreases |ops|
  {
    if ops == [] then at == end
    else exists mid: nat :: OpAt(rep, at, ops[0], mid) && OpsAt(rep, mid, ops[1..], end)
  }

  /** Eight bytes of sequence number, four of count, and the operations up to the end. */
  ghost predicate RepLaidOut(rep: Bytes, sequence: nat, ops: seq<Op>)
  {
    LongAt(rep, 0, sequence) && WordAt(rep, 8, |ops|) && OpsAt(rep, 12, ops, |rep|)
  }

  lemma {:induction false} OpIs(rep: Bytes, at: nat, op: Op, end: nat)
    ensures OpAt(rep, at, op, end) <==> end == at + |EncodeOp(op)| && Holds(rep, at, EncodeOp(op))
  {
    hide StringAt, Holds, Prefixed;
    match op
    case Put(key, value) =>
      var a, b := Prefixed(key), Prefixed(value);
      HoldsBoth(rep, at, [1], a + b);
      HoldsBoth(rep, at + 1, a, b);
      HoldsByte(rep, at, 1);
      assert EncodeOp(op) == [1] + (a + b);
      StringIs(rep, at + 1, key, at + 1 + |a|);
      StringIs(rep, at + 1 + |a|, value, end);
      if OpAt(rep, at, op, end) {
        var mid: nat :| StringAt(rep, at + 1, key, mid) && StringAt(rep, mid, value, end);
        StringIs(rep, at + 1, key, mid);
      }
    case Delete(key) =>
      HoldsBoth(rep, at, [0], Prefixed(key));
      HoldsByte(rep, at, 0);
      StringIs(rep, at + 1, key, end);
  }

  lemma {:induction false} OpsAre(rep: Bytes, at: nat, ops: seq<Op>, end: nat)
    requires at <= |rep|
    ensures OpsAt(rep, at, ops, end) <==> end == at + |Body(ops)| && Holds(rep, at, Body(ops))
    decreases |ops|
  {
    hide OpAt, EncodeOp;
    if ops != [] {
      var a, b := EncodeOp(ops[0]), Body(ops[1..]);
      HoldsBoth(rep, at, a, b);
      OpIs(rep, at, ops[0], at + |a|);
      if at + |a| <= |rep| {
        OpsAre(rep, at + |a|, ops[1..], end);
      }
      if OpsAt(rep, at, ops, end) {
        var mid: nat :| OpAt(rep, at, ops[0], mid) && OpsAt(rep, mid, ops[1..], end);
        OpIs(rep, at, ops[0], mid);
      }
    }
  }

  /** The bytes of a batch are its layout. */
  lemma {:induction false} RepIsLayout(rep: Bytes, sequence: nat, ops: seq<Op>)
    requires sequence < 0x1_0000_0000_0000_0000 && |ops| < 0x1_0000_0000
    ensures rep == RepOf(sequence, ops) <==> RepLaidOut(rep, sequence, ops)
  {
    hide Body, Fixed, Holds, LongAt, WordAt, OpsAt;
    var a, b, c := Fixed(sequence, 8), Fixed(|ops|, 4), Body(ops);
    HoldsAll(rep, RepOf(sequence, ops));
    HoldsBoth(rep, 0, a + b, c);
    HoldsBoth(rep, 0, a, b);
    LongIs(rep, 0, sequence);
    WordIs(rep, 8, |ops|);
    if |rep| >= 12 {
      OpsAre(rep, 12, ops, |rep|);
    } else {
      TooShort(rep, sequence, ops);
    }
  }

  lemma {:induction false} TooShort(rep: Bytes, sequence: nat, ops: seq<Op>)
    requires |rep| < 12
    ensures !RepLaidOut(rep, sequence, ops) && rep != RepOf(sequence, ops)
  {
    hide Body, Fixed;
  }

  lemma {:induction false} EmptyRep()
    ensures var rep := Fixed(0, 8) + Fixed(0, 4); rep == RepOf(0, []) && RepLaidOut(rep, 0, [])
  {
    hide RepLaidOut, Fixed;
    RepIsLayout(RepOf(0, []), 0, []);
  }

  ghost predicate AllFit(ops: seq<Op>)
  {
    |ops| < 0x1_0000_0000 && forall i :: 0 <= i < |ops| ==> OpFits(ops[i])
  }

  /** A batch laid out as the format says reads back. */
  lemma {:induction false} LayoutReadsBack(rep: Bytes, sequence: nat, ops: seq<Op>)
    requires RepLaidOut(rep, sequence, ops) && AllFit(ops)
    ensures Decode(rep) == Some(ops) && Reads(rep, ops)
  {
    hide Decode, OpsAt, OpFits, Reads;
    SequenceFits(rep, sequence);
    RepIsLayout(rep, sequence, ops);
    BatchRoundTrip(sequence, ops);
    DecodeIsReading(rep);
  }

  lemma {:induction false} SequenceFits(rep: Bytes, sequence: nat)
    requires LongAt(rep, 0, sequence)
    ensures sequence < 0x1_0000_0000_0000_0000
  {
  }

  // ------------------------------------------------------------------
  // What is accepted when reading.

  ghost predicate OpRead(rep: Bytes, at: nat, op: Op, end: nat)
  {
    && at < |rep|
    && match op
       case Put(key, value) =>
         rep[at] == 1 && exists mid: nat :: TextAt(rep, at + 1, key, mid) && TextAt(rep, mid, value, end)
       case Delete(key) => rep[at] == 0 && TextAt(rep, at + 1, key, end)
  }

  ghost predicate OpsRead(rep: Bytes, at: nat, ops: seq<Op>, end: nat)
    decreases |ops|
  {
    if ops == [] then at == end
    else exists mid: nat :: OpRead(rep, at, ops[0], mid) && OpsRead(rep, mid, ops[1..], end)
  }

  /** The batch is operations from its twelfth byte to its end, as many as its count says. */
  ghost predicate Reads(rep: Bytes, ops: seq<Op>)
  {
    |rep| >= 12 && WordAt(rep, 8, |ops|) && OpsRead(rep, 12, ops, |rep|)
  }

  lemma {:induction false} TextInside(rep: Bytes, at: nat, s: Bytes, end: nat)
    requires TextAt(rep, at, s, end)
    ensures at < end <= |rep|
  {
  }

  lemma {:induction false} OneOp(rep: Bytes, at: nat, op: Op, end: nat, op': Op, end': nat)
    requires OpRead(rep, at, op, end) && OpRead(rep, at, op', end')
    ensures op == op' && at < end == end' <= |rep|
  {
    hide TextAt;
    match op
    case Put(key, value) =>
      var m: nat :| TextAt(rep, at + 1, key, m) && TextAt(rep, m, value, end);
      var m': nat :| TextAt(rep, at + 1, op'.key, m') && TextAt(rep, m', op'.value, end');
      OneText(rep, at + 1, key, m, op'.key, m');
      OneText(rep, m, value, end, op'.value, end');
      TextInside(rep, at + 1, key, m);
      TextInside(rep, m, value, end);
    case Delete(key) =>
      OneText(rep, at + 1, key, end, op'.key, end');
      TextInside(rep, at + 1, key, end);
  }

  /** An operation is read exactly where there is one. */
  lemma {:induction false} OpIsRead(rep: Bytes, at: nat)
    requires at < |rep|
    ensures match GetOp(rep[at..])
      case Some((op, rest)) => |rest| < |rep| - at && rest == rep[|rep| - |rest|..] && OpRead(rep, at, op, |rep| - |rest|)
      case None => forall op, end: nat :: !OpRead(rep, at, op, end)
  {
    hide GetPrefixed, TextAt;
    var input := rep[at..];
    assert input[0] == rep[at] && input[1..] == rep[at + 1..];
    TextRead(rep, at + 1);
    var first := GetPrefixed(rep[at + 1..]);
    if first.Some? {
      var mid := |rep| - |first.value.1|;
      TextRead(rep, mid);
      if GetOp(input).None? {
        forall op, end: nat | OpRead(rep, at, op, end)
          ensures false
        {
          if op.Put? {
            var m: nat :| TextAt(rep, at + 1, op.key, m) && TextAt(rep, m, op.value, end);
            OneText(rep, at + 1, op.key, m, first.value.0, mid);
          }
        }
      }
    }
  }

  lemma {:induction false} OneList(rep: Bytes, at: nat, ops: seq<Op>, ops': seq<Op>)
    requires OpsRead(rep, at, ops, |rep|) && OpsRead(rep, at, ops', |rep|)
    ensures ops == ops'
    decreases |ops|
  {
    hide OpRead;
    if ops != [] && ops' != [] {
      var m: nat :| OpRead(rep, at, ops[0], m) && OpsRead(rep, m, ops[1..], |rep|);
      var m': nat :| OpRead(rep, at, ops'[0], m') && OpsRead(rep, m', ops'[1..], |rep|);
      OneOp(rep, at, ops[0], m, ops'[0], m');
      OneList(rep, m, ops[1..], ops'[1..]);
      assert ops == [ops[0]] + ops[1..] && ops' == [ops'[0]] + ops'[1..];
    } else if ops != [] {
      var m: nat :| OpRead(rep, at, ops[0], m) && OpsRead(rep, m, ops[1..], |rep|);
      NotAtEnd(rep, at, ops[0], m);
    } else if ops' != [] {
      var m: nat :| OpRead(rep, at, ops'[0], m) && OpsRead(rep, m, ops'[1..], |rep|);
      NotAtEnd(rep, at, ops'[0], m);
    }
  }

  lemma {:induction false} NotAtEnd(rep: Bytes, at: nat, op: Op, end: nat)
    requires OpRead(rep, at, op, end)
    ensures at < |rep|
  {
  }

  lemma {:induction false} OpsAreRead(rep: Bytes, at: nat)
    requires at <= |rep|
    ensures match GetOps(rep[at..])
      case Some(ops) => OpsRead(rep, at, ops, |rep|)
      case None => forall ops :: !OpsRead(rep, at, ops, |rep|)
    decreases |rep| - at
  {
    hide OpRead, GetOp;
    if at < |rep| {
      OpIsRead(rep, at);
      var r := GetOp(rep[at..]);
      if r.Some? {
        var (op, rest) := r.value;
        var mid := |rep| - |rest|;
        OpsAreRead(rep, mid);
        if GetOps(rest).Some? {
          var more := GetOps(rest).value;
          assert ([op] + more)[1..] == more;
          assert OpRead(rep, at, op, mid) && OpsRead(rep, mid, more, |rep|);
        }
      }
      if GetOps(rep[at..]).None? {
        forall ops
          ensures !OpsRead(rep, at, ops, |rep|)
        {
          if OpsRead(rep, at, ops, |rep|) {
            var m: nat :| OpRead(rep, at, ops[0], m) && OpsRead(rep, m, ops[1..], |rep|);
            OneOp(rep, at, ops[0], m, r.value.0, |rep| - |r.value.1|);
            assert false;
          }
        }
      }
    }
  }

  /** A batch is accepted exactly if it is such a list, and gives that list. */
  lemma {:induction false} DecodeIsReading(rep: Bytes)
    ensures match Decode(rep)
      case Some(ops) => Reads(rep, ops) && forall xs :: Reads(rep, xs) ==> xs == ops
      case None => forall ops :: !Reads(rep, ops)
  {
    hide GetOps, OpsRead, Unfixed;
    if |rep| >= 12 {
      UnfixedBytes(rep[8..12]);
      OpsAreRead(rep, 12);
      forall xs, ys | OpsRead(rep, 12, xs, |rep|) && OpsRead(rep, 12, ys, |rep|)
        ensures xs == ys
      {
        OneList(rep, 12, xs, ys);
      }
    }
  }

  // ------------------------------------------------------------------
  // The batch.

  class WriteBatch {
    var rep: Bytes
    ghost var ops: seq<Op>
    ghost var sequence: nat

    ghost predicate Valid()
      reads this
    {
      rep == RepOf(sequence, ops) && |ops| < 0x1_0000_0000 && sequence < 0x1_0000_0000_0000_0000
    }

    constructor ()
      ensures Valid() && ops == [] && RepLaidOut(rep, 0, [])
    {
      hide RepLaidOut, Fixed;
      rep, ops, sequence := Fixed(0, 8) + Fixed(0, 4), [], 0;
      EmptyRep();
    }

    method Count() returns (n: nat)
      requires Valid()
      ensures n == |ops|
    {
      Parts(sequence, ops);
      n := Unfixed(rep[8..HeaderSize]);
    }

    /** Appends encoded operations and sets the count. */
    method Extend(body: Bytes, n: nat, ghost more: seq<Op>)
      requires Valid() && body == Body(more) && n == |ops| + |more| < 0x1_0000_0000
      modifies this
      ensures Valid() && ops == old(ops) + more && sequence == old(sequence)
    {
      hide Body, Fixed, Unfixed;
      Parts(sequence, ops);
      BodyConcat(ops, more);
      rep := rep[..8] + Fixed(n, 4) + rep[HeaderSize..];
      rep := rep + body;
      ops := ops + more;
    }

    method Add(op: Op)
      requires Valid() && |ops| + 1 < 0x1_0000_0000
      modifies this
      ensures Valid() && ops == old(ops) + [op] && sequence == old(sequence) && RepLaidOut(rep, sequence, ops)
    {
      hide EncodeOp, RepLaidOut, RepOf;
      var n := Count();
      assert Body([op]) == EncodeOp(op) + Body([]);
      Extend(EncodeOp(op), n + 1, [op]);
      RepIsLayout(rep, sequence, ops);
    }

    method Append(src: WriteBatch)
      requires Valid() && src.Valid() && src != this && |ops| + |src.ops| < 0x1_0000_0000
      modifies this
      ensures Valid() && ops == old(ops) + src.ops && sequence == old(sequence) && RepLaidOut(rep, sequence, ops)
    {
      hide RepLaidOut;
      var n := Count();
      var k := src.Count();
      Parts(src.sequence, src.ops);
      Extend(src.rep[HeaderSize..], n + k, src.ops);
      RepIsLayout(rep, sequence, ops);
    }

    method SetSequence(s: nat)
      requires Valid() && s < 0x1_0000_0000_0000_0000
      modifies this
      ensures Valid() && ops == old(ops) && sequence == s && RepLaidOut(rep, s, ops)
    {
      hide Body, Fixed, Unfixed, RepLaidOut;
      Parts(sequence, ops);
      rep := Fixed(s, 8) + rep[8..];
      sequence := s;
      RepIsLayout(rep, s, ops);
    }
  }

  lemma {:induction false} Parts(sequence: nat, ops: seq<Op>)
    requires |ops| < 0x1_0000_0000
    ensures var rep := RepOf(sequence, ops);
      && |rep| >= HeaderSize && rep[..8] == Fixed(sequence, 8) && rep[8..HeaderSize] == Fixed(|ops|, 4)
      && rep[8..] == Fixed(|ops|, 4) + Body(ops) && rep[HeaderSize..] == Body(ops) && Unfixed(rep[8..HeaderSize]) == |ops|
  {
    hide Body, Fixed, Unfixed;
    Pow256Four();
    FixedRoundTrip(|ops|, 4);
    var rep := RepOf(sequence, ops);
    assert rep[8..HeaderSize] == Fixed(|ops|, 4);
  }

  /** `Iterate`: hands out the operations one by one; the verdict is whether all of it was sound. */
  method Iterate(rep: Bytes) returns (ok: bool, ops: seq<Op>)
    ensures ok <==> Decode(rep).Some?
    ensures ok ==> ops == Decode(rep).value
    ensures if ok then Reads(rep, ops) else forall xs :: !Reads(rep, xs)
  {
    hide GetOp, Unfixed, Reads;
    DecodeIsReading(rep);
    ops := [];
    if |rep| < HeaderSize {
      return false, [];
    }
    var input := rep[HeaderSize..];
    PrependNone(GetOps(input));
    while input != []
      invariant Prepended(ops, GetOps(input)) == GetOps(rep[HeaderSize..])
      decreases |input|
    {
      GetOpShrinks(input);
      var r := GetOp(input);
      if r.None? {
        return false, ops;
      }
      PrependMore(ops, r.value.0, GetOps(r.value.1));
      ops := ops + [r.value.0];
      input := r.value.1;
    }
    ok := |ops| == Unfixed(rep[8..HeaderSize]);
  }

  function Prepended(ops: seq<Op>, r: Option<seq<Op>>): Option<seq<Op>>
  {
    match r
    case None => None
    case Some(more) => Some(ops + more)
  }

  lemma {:induction false} PrependNone(r: Option<seq<Op>>)
    ensures Prepended([], r) == r
  {
    if r.Some? {
      assert [] + r.value == r.value;
    }
  }

  lemma {:induction false} PrependMore(ops: seq<Op>, op: Op, r: Option<seq<Op>>)
    ensures Prepended(ops + [op], r)
         == Prepended(ops, match r case None => None case Some(more) => Some([op] + more))
  {
    if r.Some? {
      assert ops + [op] + r.value == ops + ([op] + r.value);
    }
  }
}

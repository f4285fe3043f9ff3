/**
 The bytewise comparator, the internal-key comparator built on it, and the short keys both
 make up for index blocks.
 */
module Comparators {
  import opened InternalKeys

  // ------------------------------------------------------------------
  // Bytes in lexicographic order.

  predicate Less(a: Bytes, b: Bytes)
  {
    b != [] && (a == [] || a[0] < b[0] || (a[0] == b[0] && Less(a[1..], b[1..])))
  }

  lemma {:induction false} LessIrreflexive(a: Bytes)
    ensures !Less(a, a)
  {
    if a != [] {
      LessIrreflexive(a[1..]);
    }
  }

  lemma {:induction false} LessTotal(a: Bytes, b: Bytes)
    ensures a == b || Less(a, b) || Less(b, a)
  {
    if a != [] && b != [] && a[0] == b[0] {
      LessTotal(a[1..], b[1..]);
      assert a == [a[0]] + a[1..] && b == [b[0]] + b[1..];
    }
  }

  lemma {:induction false} LessTransitive(a: Bytes, b: Bytes, c: Bytes)
    requires Less(a, b) && Less(b, c)
    ensures Less(a, c)
  {
    if a != [] && a[0] == b[0] && b[0] == c[0] {
      LessTransitive(a[1..], b[1..], c[1..]);
    }
  }

  /** The first difference decides. */
  lemma {:induction false} LessAt(a: Bytes, b: Bytes, n: nat)
    requires n < |b| && n <= |a| && a[..n] == b[..n]
    requires n == |a| || a[n] < b[n]
    ensures Less(a, b)
  {
    if n > 0 {
      assert a[0] == a[..n][0] && b[0] == b[..n][0];
      assert a[1..][..n - 1] == a[..n][1..] && b[1..][..n - 1] == b[..n][1..];
      LessAt(a[1..], b[1..], n - 1);
    }
  }

  /** The strings first differ at `i`, and there is a byte between theirs. */
  predicate RoomAt(start: Bytes, limit: Bytes, i: nat)
  {
    i < |start| && i < |limit| && start[..i] == limit[..i] && start[i] as int + 1 < limit[i] as int
  }

  lemma {:induction false} OneRoom(start: Bytes, limit: Bytes, i: nat, j: nat)
    requires RoomAt(start, limit, i) && j <= |start| && j <= |limit| && start[..j] == limit[..j]
    requires j < |start| && j < |limit| ==> start[j] != limit[j]
    ensures i == j
  {
    SameBytes(start, limit, i);
    SameBytes(start, limit, j);
  }

  lemma {:induction false} SameBytes(a: Bytes, b: Bytes, n: nat)
    requires n <= |a| && n <= |b| && a[..n] == b[..n]
    ensures forall k :: 0 <= k < n ==> a[k] == b[k]
  {
    forall k | 0 <= k < n
      ensures a[k] == b[k]
    {
      assert a[..n][k] == a[k] && b[..n][k] == b[k];
    }
  }

  predicate AtLeast(s: Bytes, t: Bytes)
  {
    s == t || Less(t, s)
  }

  /** Whatever lies between two strings is longer than what they share. */
  lemma {:induction false} BetweenIsLonger(start: Bytes, limit: Bytes, i: nat, s: Bytes)
    requires i < |start| && i <= |limit| && start[..i] == limit[..i] && AtLeast(s, start) && Less(s, limit)
    ensures |s| > i
  {
    if i > 0 {
      assert start[0] == start[..i][0] == limit[..i][0] == limit[0];
      assert start[1..][..i - 1] == start[..i][1..] && limit[1..][..i - 1] == limit[..i][1..];
      assert s != [] && s[0] == start[0];
      assert AtLeast(s[1..], start[1..]);
      BetweenIsLonger(start[1..], limit[1..], i - 1, s[1..]);
    }
  }

  /**
   A string in [start, limit), and `start` itself unless the bytes where they first differ
   leave room between them; then it is as short as any string in [start, limit).
   */
  method FindShortestSeparator(start: Bytes, limit: Bytes) returns (r: Bytes)
    ensures AtLeast(r, start) && |r| <= |start|
    ensures Less(start, limit) ==> Less(r, limit)
    ensures r != start ==> Less(start, limit)
    ensures r != start <==> exists i: nat :: RoomAt(start, limit, i)
    ensures forall i: nat :: RoomAt(start, limit, i) ==> |r| == i + 1
    ensures r != start ==> forall s :: AtLeast(s, start) && Less(s, limit) ==> |s| >= |r|
  {
    hide Less;
    var minLength := if |start| < |limit| then |start| else |limit|;
    var i := 0;
    while i < minLength && start[i] == limit[i]
      invariant i <= minLength && start[..i] == limit[..i]
    {
      i := i + 1;
    }
    forall j: nat | RoomAt(start, limit, j)
      ensures j == i
    {
      OneRoom(start, limit, j, i);
    }
    r := start;
    if i < minLength {
      var b := start[i];
      if b < 0xff && b + 1 < limit[i] {
        r := start[..i] + [b + 1];
        LessAt(start, r, i);
        LessAt(r, limit, i);
        LessAt(start, limit, i);
        assert RoomAt(start, limit, i) && r[i] != start[i];
        forall s | AtLeast(s, start) && Less(s, limit)
          ensures |s| >= |r|
        {
          BetweenIsLonger(start, limit, i, s);
        }
      }
    }
  }

  /** Nothing at or after a string that starts with bytes 0xff is shorter than those. */
  lemma {:induction false} NoShorter(key: Bytes, i: nat, s: Bytes)
    requires i < |key| && (forall j :: 0 <= j < i ==> key[j] == 0xff) && AtLeast(s, key)
    ensures |s| > i
  {
    if i > 0 {
      assert s != [] && s[0] == 0xff && AtLeast(s[1..], key[1..]);
      NoShorter(key[1..], i - 1, s[1..]);
    }
  }

  /** A string at or after `key`: `key` itself if all its bytes are 0xff, else as short as any string at or after it. */
  method FindShortSuccessor(key: Bytes) returns (r: Bytes)
    ensures AtLeast(r, key) && |r| <= |key|
    ensures r == key <==> forall i :: 0 <= i < |key| ==> key[i] == 0xff
    ensures r != key ==> key[|r| - 1] != 0xff && forall i :: 0 <= i < |r| - 1 ==> key[i] == 0xff
    ensures r != key ==> forall s :: AtLeast(s, key) ==> |s| >= |r|
  {
    hide Less;
    for i := 0 to |key|
      invariant forall j :: 0 <= j < i ==> key[j] == 0xff
    {
      if key[i] != 0xff {
        r := key[..i] + [key[i] + 1];
        LessAt(key, r, i);
        assert r[i] != key[i];
        forall s | AtLeast(s, key)
          ensures |s| >= |r|
        {
          NoShorter(key, i, s);
        }
        return;
      }
    }
    r := key;
  }

  // ------------------------------------------------------------------
  // Internal keys: a user key and the packed sequence number and type.

  datatype Key = Key(user: Bytes, tag: nat)

  /** The sequence number and type that sort first for a user key. */
  const MaxTag: nat := 0xffff_ffff_ffff_ff01

  predicate KeyLess(a: Key, b: Key)
  {
    Less(a.user, b.user) || (a.user == b.user && a.tag > b.tag)
  }

  lemma {:induction false} KeyLessTransitive(a: Key, b: Key, c: Key)
    requires KeyLess(a, b) && KeyLess(b, c)
    ensures KeyLess(a, c)
  {
    if Less(a.user, b.user) && Less(b.user, c.user) {
      LessTransitive(a.user, b.user, c.user);
    }
  }

  lemma {:induction false} KeyLessTotal(a: Key, b: Key)
    ensures a == b || KeyLess(a, b) || KeyLess(b, a)
    ensures !(KeyLess(a, b) && KeyLess(b, a)) && !KeyLess(a, a)
  {
    LessTotal(a.user, b.user);
    LessIrreflexive(a.user);
    LessIrreflexive(b.user);
    if Less(a.user, b.user) && Less(b.user, a.user) {
      LessTransitive(a.user, b.user, a.user);
    }
  }

  /** The key is shortened exactly if the user key can be cut before its last byte; then it has the greatest tag. */
  ghost predicate IsSeparator(start: Key, limit: Key, sep: Key)
  {
    && (sep != start <==> exists i: nat :: i + 1 < |start.user| && RoomAt(start.user, limit.user, i))
    && (sep != start ==> |sep.user| < |start.user| && sep.tag == 0xffff_ffff_ffff_ff01)
  }

  ghost predicate IsSuccessor(key: Key, sep: Key)
  {
    && (sep != key <==> exists i :: 0 <= i < |key.user| - 1 && key.user[i] != 0xff)
    && (sep != key ==> |sep.user| < |key.user| && sep.tag == 0xffff_ffff_ffff_ff01)
  }

  /**
   A key in [start, limit). If it is not `start` itself, its user key lies strictly between
   theirs and is shorter, so no lookup of a user key can fall between it and an entry of that
   user key; and it sorts before every entry of its own user key.
   */
  method FindSeparator(start: Key, limit: Key) returns (r: Key)
    requires KeyLess(start, limit)
    ensures r == start || (Less(start.user, r.user) && Less(r.user, limit.user))
    ensures r == start || KeyLess(start, r)
    ensures KeyLess(r, limit)
    ensures IsSeparator(start, limit, r)
  {
    var tmp := FindShortestSeparator(start.user, limit.user);
    r := start;
    if |tmp| < |start.user| && Less(start.user, tmp) {
      LessIrreflexive(start.user);
      r := Key(tmp, MaxTag);
    }
  }

  /** A key at or after the given one: with a shorter, later user key if some byte but the last is not 0xff. */
  method FindSuccessor(key: Key) returns (r: Key)
    ensures r == key || (Less(key.user, r.user) && KeyLess(key, r))
    ensures IsSuccessor(key, r)
  {
    var tmp := FindShortSuccessor(key.user);
    r := key;
    if |tmp| < |key.user| && Less(key.user, tmp) {
      r := Key(tmp, MaxTag);
    }
  }
}

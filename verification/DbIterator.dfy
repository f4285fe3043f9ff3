/**
 `DBIter`: the user-level iterator over a sorted run of internal entries. Whatever mix of
 seeks and moves it is given, it stands where a plain cursor over the map of user keys
 visible at its sequence number would stand.
 */
module DbIterator {
  import opened InternalKeys
  import opened Versions

  /** Entry `i` is what a reader at snapshot `s` sees for its user key. */
  ghost predicate Shown(es: seq<Entry>, s: nat, i: nat)
  {
    && i < |es| && es[i].seqno <= s && es[i].kind.Value?
    && forall j :: 0 <= j < i && es[j].key == es[i].key ==> es[j].seqno > s
  }

  /** `r` is the first shown entry at or after `from`, or the end. */
  ghost predicate FirstShown(es: seq<Entry>, s: nat, from: nat, r: nat)
  {
    && (if r < |es| then from <= r && Shown(es, s, r) else r == |es|)
    && forall j :: from <= j < r ==> !Shown(es, s, j)
  }

  /** `r` is the last shown entry before `to`; the end stands for none. */
  ghost predicate LastShown(es: seq<Entry>, s: nat, to: nat, r: nat)
  {
    if r < |es| then r < to && Shown(es, s, r) && forall j :: r < j < to ==> !Shown(es, s, j)
    else r == |es| && forall j :: 0 <= j < to ==> !Shown(es, s, j)
  }

  ghost predicate KeysUp(es: seq<Entry>)
  {
    forall i, j :: 0 <= i < j < |es| ==> es[i].key <= es[j].key
  }

  lemma {:induction false} SortedKeysUp(es: seq<Entry>)
    requires Sorted(es)
    ensures KeysUp(es)
  {
    forall i, j | 0 <= i < j < |es|
      ensures es[i].key <= es[j].key
    {
      assert Before(es[i], es[j]);
    }
  }

  /** Going forward from `p`: only user keys up to `skip` are hidden, and nothing visible is before `skip`. */
  ghost predicate Covered(es: seq<Entry>, s: nat, p: nat, skip: Option<UserKey>)
  {
    && (forall j, k :: 0 <= j < p <= k < |es| && es[j].key == es[k].key && es[j].seqno <= s ==>
          skip.Some? && es[k].key <= skip.value)
    && (skip.Some? ==> forall k :: p <= k < |es| && es[k].seqno <= s ==> es[k].key >= skip.value)
  }

  /** Entries from `from` to below `to` that are shown have user keys up to `skip`. */
  ghost predicate OnlySkipped(es: seq<Entry>, s: nat, from: nat, to: nat, skip: Option<UserKey>)
  {
    forall j :: from <= j < to && Shown(es, s, j) ==> skip.Some? && es[j].key <= skip.value
  }

  /** What one step of the forward scan keeps: the entry at `p` is not the one to yield. */
  lemma {:induction false} StepForward(es: seq<Entry>, s: nat, from: nat, p: nat, skip0: Option<UserKey>,
                                       skip: Option<UserKey>)
    requires KeysUp(es) && from <= p < |es| && Covered(es, s, p, skip)
    requires OnlySkipped(es, s, from, p, skip0) && StillHidden(es, s, p, skip0, skip)
    requires es[p].seqno <= s && es[p].kind.Value? ==> skip.Some? && es[p].key <= skip.value
    ensures var skip' := if es[p].seqno <= s && es[p].kind.Deletion? then Some(es[p].key) else skip;
      && Covered(es, s, p + 1, skip') && OnlySkipped(es, s, from, p + 1, skip0) && StillHidden(es, s, p + 1, skip0, skip')
  {
    assert es[p].seqno <= s && es[p].kind.Value? && Shown(es, s, p) ==> skip0.Some? && es[p].key <= skip0.value;
  }

  /** Hiding keys up to `skip` hides, from `p` on, no shown entry that `skip0` does not hide. */
  ghost predicate StillHidden(es: seq<Entry>, s: nat, p: nat, skip0: Option<UserKey>, skip: Option<UserKey>)
  {
    && (skip0.Some? ==> skip.Some? && skip.value >= skip0.value)
    && (skip.Some? ==> forall k :: p <= k < |es| && es[k].key <= skip.value && Shown(es, s, k) ==>
          skip0.Some? && es[k].key <= skip0.value)
  }

  /** An entry the forward scan stops at is shown. */
  lemma {:induction false} StopForward(es: seq<Entry>, s: nat, p: nat, skip0: Option<UserKey>, skip: Option<UserKey>)
    requires p < |es| && Covered(es, s, p, skip) && StillHidden(es, s, p, skip0, skip)
    requires es[p].seqno <= s && es[p].kind.Value? && (skip.Some? ==> es[p].key > skip.value)
    ensures Shown(es, s, p) && (skip0.Some? ==> es[p].key > skip0.value)
  {
  }

  lemma {:induction false} OnlySkippedNothing(es: seq<Entry>, s: nat, p: nat, skip: Option<UserKey>)
    ensures OnlySkipped(es, s, p, p, skip) && StillHidden(es, s, p, skip, skip)
  {
  }

  // ------------------------------------------------------------------
  // The iterator.

  datatype Direction = Forward | Reverse

  class DbIter {
    const es: seq<Entry>
    const sequence: nat
    // The inner iterator; its end stands for "not valid", whichever side it ran off.
    var pos: nat
    var direction: Direction
    var valid: bool
    var savedKey: Option<UserKey>
    var savedValue: Bytes
    ghost var cur: nat

    ghost predicate Inv()
      reads this
    {
      && Sorted(es) && pos <= |es| && cur <= |es|
      && (valid <==> cur < |es|)
      && (valid ==> Shown(es, sequence, cur))
      && (valid && direction.Forward? ==> pos == cur)
      && (valid && direction.Reverse? ==>
            && savedKey == Some(es[cur].key) && savedValue == es[cur].value
            && (pos < |es| ==> pos < cur)
            && forall j :: (if pos < |es| then pos + 1 else 0) <= j < cur ==> es[j].seqno > sequence)
    }

    constructor (es: seq<Entry>, sequence: nat)
      requires Sorted(es)
      ensures Inv() && !valid && this.es == es && this.sequence == sequence
    {
      this.es := es;
      this.sequence := sequence;
      pos, direction, valid, savedKey, savedValue, cur := |es|, Forward, false, None, [], |es|;
    }

    /** The user key of the current entry. */
    method Key() returns (k: UserKey)
      requires Inv() && valid
      ensures k == es[cur].key
    {
      k := if direction.Forward? then es[pos].key else savedKey.value;
    }

    method Value() returns (v: Bytes)
      requires Inv() && valid
      ensures v == es[cur].value
    {
      v := if direction.Forward? then es[pos].value else savedValue;
    }

    method FindNextUserEntry(skip0: Option<UserKey>)
      requires Sorted(es) && pos < |es| && direction.Forward? && Covered(es, sequence, pos, skip0)
      modifies this
      ensures Inv() && direction.Forward?
      ensures old(pos) <= cur && (valid && skip0.Some? ==> es[cur].key > skip0.value)
      ensures OnlySkipped(es, sequence, old(pos), cur, skip0)
    {
      hide Sorted, KeysUp, Covered, Shown, OnlySkipped, StillHidden;
      SortedKeysUp(es);
      var skip := skip0;
      OnlySkippedNothing(es, sequence, pos, skip0);
      while pos < |es|
        invariant old(pos) <= pos <= |es| && direction.Forward?
        invariant Covered(es, sequence, pos, skip)
        invariant OnlySkipped(es, sequence, old(pos), pos, skip0)
        invariant StillHidden(es, sequence, pos, skip0, skip)
        decreases |es| - pos
      {
        var e := es[pos];
        if e.seqno <= sequence && e.kind.Value? && !(skip.Some? && e.key <= skip.value) {
          StopForward(es, sequence, pos, skip0, skip);
          valid, savedKey, cur := true, None, pos;
          return;
        }
        StepForward(es, sequence, old(pos), pos, skip0, skip);
        if e.seqno <= sequence && e.kind.Deletion? {
          skip := Some(e.key);
        }
        pos := pos + 1;
      }
      savedKey, valid, cur := None, false, |es|;
    }

    /** Scanning back from `pos`, or from nowhere. */
    method FindPrevUserEntry(ghost to: nat)
      requires Sorted(es) && to <= |es| && direction.Reverse?
      requires if to == 0 then pos == |es| else pos == to - 1
      modifies this
      ensures Inv() && LastShown(es, sequence, to, cur)
    {
      SortedKeysUp(es);
      var kind := Deletion;
      cur := |es|;
      ghost var from := to;
      while pos < |es|
        invariant from <= to && pos <= |es| && (if from == 0 then pos == |es| else pos == from - 1) && direction.Reverse?
        invariant kind.Deletion? ==> cur == |es| && forall j :: from <= j < to ==> !Shown(es, sequence, j)
        invariant kind.Value? ==>
          && from <= cur < to && es[cur].kind.Value? && es[cur].seqno <= sequence
          && savedKey == Some(es[cur].key) && savedValue == es[cur].value
          && (forall j :: from <= j < cur ==> es[j].seqno > sequence)
          && (forall j :: cur < j < to ==> !Shown(es, sequence, j))
        decreases from
      {
        var e := es[pos];
        if e.seqno <= sequence {
          if kind.Value? && e.key < savedKey.value {
            break;
          }
          kind := e.kind;
          if kind.Deletion? {
            savedKey, savedValue := None, [];
            cur := |es|;
          } else {
            savedKey, savedValue := Some(e.key), e.value;
            cur := pos;
          }
        }
        pos := if pos == 0 then |es| else pos - 1;
        from := from - 1;
      }
      if kind.Deletion? {
        valid, savedKey, savedValue, direction := false, None, [], Forward;
      } else {
        valid := true;
      }
    }

    method SeekToFirst()
      requires Inv()
      modifies this
      ensures Inv() && FirstShown(es, sequence, 0, cur)
    {
      direction, savedValue := Forward, [];
      pos := 0;
      if pos < |es| {
        FindNextUserEntry(None);
      } else {
        valid, cur := false, |es|;
      }
    }

    method SeekToLast()
      requires Inv()
      modifies this
      ensures Inv() && LastShown(es, sequence, |es|, cur)
    {
      direction, savedValue := Reverse, [];
      pos := if |es| == 0 then 0 else |es| - 1;
      FindPrevUserEntry(|es|);
    }

    /** The first shown entry whose user key is at or after `target`. */
    method Seek(target: UserKey)
      requires Inv()
      modifies this
      ensures Inv() && cur <= |es| && (valid ==> es[cur].key >= target)
      ensures forall j :: 0 <= j < cur ==> !(Shown(es, sequence, j) && es[j].key >= target)
    {
      direction, savedValue, savedKey := Forward, [], None;
      pos := SeekIndex(es, SeekKey(target, sequence));
      SortedKeysUp(es);
      if pos < |es| {
        FindNextUserEntry(None);
      } else {
        valid, cur := false, |es|;
      }
    }

    method Next()
      requires Inv() && valid
      modifies this
      ensures Inv() && FirstShown(es, sequence, old(cur) + 1, cur)
    {
      SortedKeysUp(es);
      ghost var c := cur;
      if direction.Reverse? {
        direction := Forward;
        pos := if pos == |es| then 0 else pos + 1;
      } else {
        savedKey := Some(es[pos].key);
      }
      FindNextUserEntry(savedKey);
    }

    method Prev()
      requires Inv() && valid
      modifies this
      ensures Inv() && LastShown(es, sequence, old(cur), cur)
    {
      SortedKeysUp(es);
      ghost var c := cur;
      ghost var bound := if direction.Forward? then c else if pos < |es| then pos + 1 else 0;
      if direction.Forward? {
        var key := es[pos].key;
        savedKey := Some(key);
        while true
          invariant pos == bound <= c < |es|
          invariant forall j :: bound <= j <= c ==> es[j].key == key
          decreases bound
        {
          pos := if pos == 0 then |es| else pos - 1;
          if pos == |es| {
            valid, savedKey, savedValue, cur := false, None, [], |es|;
            return;
          }
          if es[pos].key < key {
            break;
          }
          bound := bound - 1;
        }
        direction := Reverse;
      }
      assert forall j :: bound <= j < c ==> !Shown(es, sequence, j);
      FindPrevUserEntry(bound);
    }
  }

  // ------------------------------------------------------------------
  // The plain cursor.

  type Pair = (UserKey, Bytes)

  datatype Bounds = All | From(k: UserKey) | Above(k: UserKey) | Below(k: UserKey)

  predicate Within(b: Bounds, k: UserKey)
  {
    match b
    case All => true
    case From(l) => l <= k
    case Above(l) => l < k
    case Below(l) => k < l
  }

  /** The pair with the least user key within the bounds, if there is one. */
  ghost predicate Least(view: iset<Pair>, b: Bounds, r: Option<Pair>)
  {
    match r
    case None => forall p :: p in view ==> !Within(b, p.0)
    case Some(q) => q in view && Within(b, q.0) && forall p :: p in view && Within(b, p.0) ==> q.0 <= p.0
  }

  ghost predicate Greatest(view: iset<Pair>, b: Bounds, r: Option<Pair>)
  {
    match r
    case None => forall p :: p in view ==> !Within(b, p.0)
    case Some(q) => q in view && Within(b, q.0) && forall p :: p in view && Within(b, p.0) ==> p.0 <= q.0
  }

  datatype Command = First | Last | SeekTo(k: UserKey) | Forth | Back

  /** How one command moves a cursor over the map; moves of a cursor that stands nowhere do nothing. */
  ghost predicate Moves(view: iset<Pair>, before: Option<Pair>, c: Command, after: Option<Pair>)
  {
    match c
    case First => Least(view, All, after)
    case Last => Greatest(view, All, after)
    case SeekTo(k) => Least(view, From(k), after)
    case Forth => if before.Some? then Least(view, Above(before.value.0), after) else after == before
    case Back => if before.Some? then Greatest(view, Below(before.value.0), after) else after == before
  }

  // ------------------------------------------------------------------
  // Shown entries are the map.

  /** Shown entries come in strictly increasing order of user keys. */
  lemma {:induction false} ShownKeysUp(es: seq<Entry>, s: nat, i: nat, j: nat)
    requires Sorted(es) && Shown(es, s, i) && Shown(es, s, j)
    ensures i < j <==> es[i].key < es[j].key
  {
    SortedKeysUp(es);
  }

  lemma {:induction false} ShownIsVisible(es: seq<Entry>, s: nat, i: nat)
    requires Sorted(es) && Shown(es, s, i)
    ensures (es[i].key, es[i].value) in View(SetOf(es), s)
  {
    forall d | d in SetOf(es) && Matches(d, es[i].key, s)
      ensures d.seqno <= es[i].seqno
    {
      var j :| 0 <= j < |es| && es[j] == d;
      assert j > i ==> Before(es[i], es[j]);
    }
    assert IsNewest(SetOf(es), es[i].key, s, es[i]);
  }

  lemma {:induction false} VisibleIsShown(es: seq<Entry>, s: nat, p: Pair) returns (i: nat)
    requires Sorted(es) && Unique(SetOf(es)) && p in View(SetOf(es), s)
    ensures Shown(es, s, i) && p == (es[i].key, es[i].value)
  {
    var e :| IsNewest(SetOf(es), p.0, s, e) && e.kind.Value? && e.value == p.1;
    i :| 0 <= i < |es| && es[i] == e;
    forall j | 0 <= j < i && es[j].key == es[i].key
      ensures es[j].seqno > s
    {
      assert Before(es[j], es[i]);
      if es[j].seqno <= s {
        assert es[j] in SetOf(es) && Matches(es[j], p.0, s);
      }
    }
  }

  ghost function PairAt(es: seq<Entry>, i: nat): Option<Pair>
  {
    if i < |es| then Some((es[i].key, es[i].value)) else None
  }

  /** The first shown entry within lower bounds is the least pair within them. */
  lemma {:induction false} LeastByIndex(es: seq<Entry>, s: nat, b: Bounds, r: nat)
    requires Sorted(es) && Unique(SetOf(es)) && r <= |es|
    requires r < |es| ==> Shown(es, s, r) && Within(b, es[r].key)
    requires forall j :: 0 <= j < r && Shown(es, s, j) ==> !Within(b, es[j].key)
    ensures Least(View(SetOf(es), s), b, PairAt(es, r))
  {
    if r < |es| {
      ShownIsVisible(es, s, r);
    }
    forall p | p in View(SetOf(es), s) && Within(b, p.0)
      ensures r < |es| && es[r].key <= p.0
    {
      var i := VisibleIsShown(es, s, p);
      if r < |es| {
        ShownKeysUp(es, s, i, r);
      }
    }
  }

  lemma {:induction false} GreatestByIndex(es: seq<Entry>, s: nat, b: Bounds, r: nat)
    requires Sorted(es) && Unique(SetOf(es)) && r <= |es|
    requires r < |es| ==> Shown(es, s, r) && Within(b, es[r].key)
    requires forall j :: 0 <= j < |es| && (r < |es| ==> r < j) && Shown(es, s, j) ==> !Within(b, es[j].key)
    ensures Greatest(View(SetOf(es), s), b, PairAt(es, r))
  {
    if r < |es| {
      ShownIsVisible(es, s, r);
    }
    forall p | p in View(SetOf(es), s) && Within(b, p.0)
      ensures r < |es| && p.0 <= es[r].key
    {
      var i := VisibleIsShown(es, s, p);
      if r < |es| {
        ShownKeysUp(es, s, r, i);
      }
    }
  }

  lemma {:induction false} NextPair(es: seq<Entry>, s: nat, c: nat, r: nat)
    requires Sorted(es) && Unique(SetOf(es)) && Shown(es, s, c) && FirstShown(es, s, c + 1, r)
    ensures Least(View(SetOf(es), s), Above(es[c].key), PairAt(es, r))
  {
    forall j | 0 <= j <= r && Shown(es, s, j)
      ensures Within(Above(es[c].key), es[j].key) <==> j == r
    {
      ShownKeysUp(es, s, c, j);
    }
    LeastByIndex(es, s, Above(es[c].key), r);
  }

  lemma {:induction false} PrevPair(es: seq<Entry>, s: nat, c: nat, r: nat)
    requires Sorted(es) && Unique(SetOf(es)) && Shown(es, s, c) && LastShown(es, s, c, r)
    ensures Greatest(View(SetOf(es), s), Below(es[c].key), PairAt(es, r))
  {
    forall j | 0 <= j < |es| && Shown(es, s, j)
      ensures Within(Below(es[c].key), es[j].key) <==> j < c
    {
      ShownKeysUp(es, s, j, c);
    }
    GreatestByIndex(es, s, Below(es[c].key), r);
  }

  // ------------------------------------------------------------------
  // Any run of commands.

  function Previous(out: seq<Option<Pair>>, i: nat): Option<Pair>
    requires i <= |out|
  {
    if i == 0 then None else out[i - 1]
  }

  /** The answers are those of a cursor that starts nowhere and obeys the commands. */
  ghost predicate Follows(view: iset<Pair>, commands: seq<Command>, out: seq<Option<Pair>>)
  {
    |out| <= |commands| && forall i :: 0 <= i < |out| ==> Moves(view, Previous(out, i), commands[i], out[i])
  }

  lemma {:induction false} OneMoreAnswer(view: iset<Pair>, commands: seq<Command>, out: seq<Option<Pair>>,
                                         r: Option<Pair>)
    requires Follows(view, commands, out) && |out| < |commands|
    requires Moves(view, Previous(out, |out|), commands[|out|], r)
    ensures Follows(view, commands, out + [r])
  {
    hide Moves;
    var out' := out + [r];
    forall i | 0 <= i < |out'|
      ensures Moves(view, Previous(out', i), commands[i], out'[i])
    {
      assert Previous(out', i) == Previous(out, i);
    }
  }

  /** The iterator answers any list of commands as a cursor over the visible map does. */
  method Drive(es: seq<Entry>, sequence: nat, commands: seq<Command>) returns (out: seq<Option<Pair>>)
    requires Sorted(es) && Unique(SetOf(es))
    ensures |out| == |commands| && Follows(View(SetOf(es), sequence), commands, out)
  {
    hide View, Unique, SetOf, Follows;
    var it := new DbIter(es, sequence);
    out := [];
    NoAnswers(View(SetOf(es), sequence), commands);
    for i := 0 to |commands|
      invariant it.Inv() && fresh(it) && it.es == es && it.sequence == sequence && |out| == i
      invariant PairAt(es, it.cur) == Previous(out, i)
      invariant Follows(View(SetOf(es), sequence), commands, out)
    {
      var answer := Obey(it, commands[i]);
      OneMoreAnswer(View(SetOf(es), sequence), commands, out, answer);
      out := out + [answer];
    }
  }

  lemma {:induction false} NoAnswers(view: iset<Pair>, commands: seq<Command>)
    ensures Follows(view, commands, [])
  {
  }

  method Obey(it: DbIter, c: Command) returns (r: Option<Pair>)
    requires it.Inv() && Unique(SetOf(it.es))
    modifies it
    ensures it.Inv() && r == PairAt(it.es, it.cur)
    ensures Moves(View(SetOf(it.es), it.sequence), old(PairAt(it.es, it.cur)), c, r)
  {
    hide View, Unique, SetOf;
    ghost var es, s, before := it.es, it.sequence, it.cur;
    match c {
      case First =>
        it.SeekToFirst();
        LeastByIndex(es, s, All, it.cur);
      case Last =>
        it.SeekToLast();
        GreatestByIndex(es, s, All, it.cur);
      case SeekTo(k) =>
        it.Seek(k);
        LeastByIndex(es, s, From(k), it.cur);
      case Forth =>
        if it.valid {
          it.Next();
          NextPair(es, s, before, it.cur);
        }
      case Back =>
        if it.valid {
          it.Prev();
          PrevPair(es, s, before, it.cur);
        }
    }
    if it.valid {
      var k := it.Key();
      var v := it.Value();
      r := Some((k, v));
    } else {
      r := None;
    }
  }
}

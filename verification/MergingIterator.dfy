/**
 `MergingIterator` over any number of sorted children. Entries that the order does not tell
 apart are yielded once for each child that has one, as long as the direction stays; where it
 turns, the twins of the current entry are passed over.
 */
module MergingIterator {
  import opened InternalKeys
  import opened Versions

  type Runs = seq<seq<Entry>>

  ghost predicate AllSorted(runs: Runs)
  {
    forall i :: 0 <= i < |runs| ==> Sorted(runs[i])
  }

  // ------------------------------------------------------------------
  // The places of the union and their order.

  datatype Place = Place(child: nat, pos: nat)

  predicate On(runs: Runs, p: Place)
  {
    p.child < |runs| && p.pos < |runs[p.child]|
  }

  function At(runs: Runs, p: Place): Entry
    requires On(runs, p)
  {
    runs[p.child][p.pos]
  }

  predicate Same(a: Entry, b: Entry)
  {
    !Before(a, b) && !Before(b, a)
  }

  /** By entry; twins in the order of their children. */
  predicate Precedes(runs: Runs, p: Place, q: Place)
    requires On(runs, p) && On(runs, q)
  {
    Before(At(runs, p), At(runs, q)) || (Same(At(runs, p), At(runs, q)) && p.child < q.child)
  }

  lemma {:induction false} PlacesInLine(runs: Runs, p: Place, q: Place)
    requires AllSorted(runs) && On(runs, p) && On(runs, q)
    ensures p == q <==> !Precedes(runs, p, q) && !Precedes(runs, q, p)
    ensures Precedes(runs, p, q) ==> !Precedes(runs, q, p)
    ensures p.child == q.child ==> (Precedes(runs, p, q) <==> p.pos < q.pos)
  {
    if p.child == q.child {
      assert Sorted(runs[p.child]);
    }
  }

  lemma {:induction false} Transitive(runs: Runs, p: Place, q: Place, r: Place)
    requires On(runs, p) && On(runs, q) && On(runs, r) && Precedes(runs, p, q) && Precedes(runs, q, r)
    ensures Precedes(runs, p, r)
  {
  }

  // ------------------------------------------------------------------
  // The plain cursor over the union.

  datatype Bounds = All | From(e: Entry) | Above(e: Entry) | Below(e: Entry)
                  | Onward(p: Place) | After(p: Place) | Ahead(p: Place)

  predicate Within(runs: Runs, b: Bounds, p: Place)
    requires On(runs, p)
  {
    match b
    case All => true
    case From(t) => !Before(At(runs, p), t)
    case Above(t) => Before(t, At(runs, p))
    case Below(t) => Before(At(runs, p), t)
    case Onward(q) => On(runs, q) && !Precedes(runs, p, q)
    case After(q) => On(runs, q) && Precedes(runs, q, p)
    case Ahead(q) => On(runs, q) && Precedes(runs, p, q)
  }

  ghost predicate Least(runs: Runs, b: Bounds, r: Option<Place>)
  {
    match r
    case None => forall p :: On(runs, p) ==> !Within(runs, b, p)
    case Some(q) =>
      On(runs, q) && Within(runs, b, q) && forall p :: On(runs, p) && Within(runs, b, p) ==> !Precedes(runs, p, q)
  }

  ghost predicate Greatest(runs: Runs, b: Bounds, r: Option<Place>)
  {
    match r
    case None => forall p :: On(runs, p) ==> !Within(runs, b, p)
    case Some(q) =>
      On(runs, q) && Within(runs, b, q) && forall p :: On(runs, p) && Within(runs, b, p) ==> !Precedes(runs, q, p)
  }

  // ------------------------------------------------------------------
  // Positions that cut the children at a bound.

  ghost predicate Cuts(runs: Runs, cut: seq<nat>)
  {
    |cut| == |runs| && forall i :: 0 <= i < |runs| ==> cut[i] <= |runs[i]|
  }

  /** In each child, exactly the entries from the cut on are within the bounds. */
  ghost predicate CutsUp(runs: Runs, cut: seq<nat>, b: Bounds)
  {
    Cuts(runs, cut) && forall p :: On(runs, p) ==> (Within(runs, b, p) <==> cut[p.child] <= p.pos)
  }

  /** In each child, exactly the entries before the cut are within the bounds. */
  ghost predicate CutsDown(runs: Runs, cut: seq<nat>, b: Bounds)
  {
    Cuts(runs, cut) && forall p :: On(runs, p) ==> (Within(runs, b, p) <==> p.pos < cut[p.child])
  }

  /** The place a child stands at; the end of the child stands for none. */
  function PlaceAt(runs: Runs, at: seq<nat>, current: Option<nat>): (r: Option<Place>)
    requires |at| == |runs|
    ensures r.Some? ==> On(runs, r.value)
  {
    if current.Some? && current.value < |runs| && at[current.value] < |runs[current.value]|
    then Some(Place(current.value, at[current.value])) else None
  }

  ghost predicate IsHead(runs: Runs, at: seq<nat>, p: Place)
    requires |at| == |runs|
  {
    On(runs, p) && at[p.child] == p.pos
  }

  /** Of the places the children stand at, the first; none if no child stands anywhere. */
  ghost predicate SmallestHead(runs: Runs, at: seq<nat>, current: Option<nat>)
    requires |at| == |runs|
  {
    match current
    case None => forall p :: !IsHead(runs, at, p)
    case Some(c) =>
      && c < |runs| && at[c] < |runs[c]|
      && forall p :: IsHead(runs, at, p) ==> !Precedes(runs, p, Place(c, at[c]))
  }

  /** The last of them. */
  ghost predicate LargestHead(runs: Runs, at: seq<nat>, current: Option<nat>)
    requires |at| == |runs|
  {
    match current
    case None => forall p :: !IsHead(runs, at, p)
    case Some(c) =>
      && c < |runs| && at[c] < |runs[c]|
      && forall p :: IsHead(runs, at, p) ==> !Precedes(runs, Place(c, at[c]), p)
  }

  predicate Upward(b: Bounds)
  {
    !b.Below? && !b.Ahead?
  }

  predicate Downward(b: Bounds)
  {
    b.All? || b.Below? || b.Ahead?
  }

  lemma {:induction false} OutsideIsBelow(runs: Runs, b: Bounds, p: Place, q: Place)
    requires AllSorted(runs) && On(runs, p) && On(runs, q) && !Within(runs, b, p) && Within(runs, b, q) && Upward(b)
    requires b.Onward? || b.After? ==> On(runs, b.p)
    ensures Precedes(runs, p, q)
  {
    if b.Onward? || b.After? {
      PlacesInLine(runs, p, b.p);
      PlacesInLine(runs, q, b.p);
    }
  }

  lemma {:induction false} SmallestIsLeast(runs: Runs, at: seq<nat>, b: Bounds, current: Option<nat>)
    requires AllSorted(runs) && CutsUp(runs, at, b) && SmallestHead(runs, at, current) && Upward(b)
    requires b.Onward? || b.After? ==> On(runs, b.p)
    ensures Least(runs, b, PlaceAt(runs, at, current))
    ensures current.Some? ==> CutsUp(runs, at, Onward(Place(current.value, at[current.value])))
  {
    hide Precedes, Within;
    forall p | On(runs, p) && Within(runs, b, p)
      ensures current.Some? && !Precedes(runs, p, Place(current.value, at[current.value]))
    {
      var head := Place(p.child, at[p.child]);
      assert IsHead(runs, at, head);
      var q := Place(current.value, at[current.value]);
      PlacesInLine(runs, head, p);
      if Precedes(runs, p, q) && head != p {
        Transitive(runs, head, p, q);
      }
    }
    if current.Some? {
      var q := Place(current.value, at[current.value]);
      forall p | On(runs, p)
        ensures Within(runs, Onward(q), p) <==> at[p.child] <= p.pos
      {
        OnwardIs(runs, p, q);
        if !Within(runs, b, p) {
          OutsideIsBelow(runs, b, p, q);
        }
      }
    }
  }

  lemma {:induction false} OnwardIs(runs: Runs, p: Place, q: Place)
    requires On(runs, p) && On(runs, q)
    ensures Within(runs, Onward(q), p) <==> !Precedes(runs, p, q)
  {
  }

  /** The position before `cut`; the end of the child stands for none. */
  function JustBefore(run: seq<Entry>, cut: nat): nat
  {
    if cut == 0 then |run| else cut - 1
  }

  /** Each child stands just before its cut. */
  ghost predicate StandsBefore(runs: Runs, at: seq<nat>, cut: seq<nat>)
  {
    |at| == |runs| == |cut| && forall i :: 0 <= i < |runs| ==> cut[i] <= |runs[i]| && at[i] == JustBefore(runs[i], cut[i])
  }

  /** The child stands at its last entry that is not after place `q`, or nowhere if all are. */
  ghost predicate StandsAtMost(runs: Runs, i: nat, n: nat, q: Place)
    requires On(runs, q) && i < |runs|
  {
    && n <= |runs[i]|
    && forall p :: On(runs, p) && p.child == i ==> (Precedes(runs, q, p) <==> (if n < |runs[i]| then n < p.pos else true))
  }

  lemma {:induction false} InsideIsBelow(runs: Runs, b: Bounds, p: Place, q: Place)
    requires AllSorted(runs) && On(runs, p) && On(runs, q) && !Within(runs, b, p) && Within(runs, b, q) && Downward(b)
    requires b.Ahead? ==> On(runs, b.p)
    ensures Precedes(runs, q, p)
  {
    if b.Ahead? {
      PlacesInLine(runs, p, b.p);
      PlacesInLine(runs, q, b.p);
    }
  }

  lemma {:induction false} LargestIsGreatest(runs: Runs, at: seq<nat>, cut: seq<nat>, b: Bounds, current: Option<nat>)
    requires AllSorted(runs) && CutsDown(runs, cut, b) && StandsBefore(runs, at, cut) && LargestHead(runs, at, current)
    requires Downward(b) && (b.Ahead? ==> On(runs, b.p))
    ensures Greatest(runs, b, PlaceAt(runs, at, current))
    ensures current.Some? ==>
      forall i :: 0 <= i < |runs| ==> StandsAtMost(runs, i, at[i], Place(current.value, at[current.value]))
  {
    hide Precedes, Within;
    forall p | On(runs, p) && Within(runs, b, p)
      ensures current.Some? && !Precedes(runs, Place(current.value, at[current.value]), p)
    {
      var head := Place(p.child, at[p.child]);
      assert IsHead(runs, at, head);
      var q := Place(current.value, at[current.value]);
      PlacesInLine(runs, head, p);
      if Precedes(runs, q, p) && head != p {
        Transitive(runs, q, p, head);
      }
    }
    if current.Some? {
      var q := Place(current.value, at[current.value]);
      assert Within(runs, b, q);
      forall p | On(runs, p)
        ensures Precedes(runs, q, p) <==> cut[p.child] <= p.pos
      {
        if !Within(runs, b, p) {
          InsideIsBelow(runs, b, p, q);
        }
      }
    }
  }

  // ------------------------------------------------------------------
  // The iterator.

  datatype Direction = Forward | Reverse

  class Merger {
    const runs: Runs
    // Where each child stands; the end of the child stands for "not valid".
    var at: seq<nat>
    var current: Option<nat>
    var direction: Direction

    ghost predicate Inv()
      reads this
    {
      && AllSorted(runs) && |at| == |runs|
      && (current.Some? ==>
            && current.value < |runs| && at[current.value] < |runs[current.value]|
            && var q := Place(current.value, at[current.value]);
               if direction.Forward? then CutsUp(runs, at, Onward(q))
               else forall i :: 0 <= i < |runs| ==> StandsAtMost(runs, i, at[i], q))
    }

    function Cur(): Option<Place>
      requires Inv()
      reads this
    {
      PlaceAt(runs, at, current)
    }

    constructor (runs: Runs)
      requires AllSorted(runs)
      ensures Inv() && this.runs == runs && Cur() == None
    {
      this.runs := runs;
      at := seq(|runs|, i requires 0 <= i < |runs| => |runs[i]|);
      current, direction := None, Forward;
    }

    method FindSmallest()
      requires |at| == |runs|
      modifies `current
      ensures SmallestHead(runs, at, current)
    {
      var smallest: Option<nat> := None;
      for i := 0 to |runs|
        invariant match smallest
          case None => forall p :: IsHead(runs, at, p) ==> i <= p.child
          case Some(c) =>
            && c < i && at[c] < |runs[c]|
            && forall p :: IsHead(runs, at, p) && p.child < i ==> !Precedes(runs, p, Place(c, at[c]))
      {
        if at[i] < |runs[i]| {
          if smallest.None? {
            smallest := Some(i);
          } else if Before(runs[i][at[i]], runs[smallest.value][at[smallest.value]]) {
            smallest := Some(i);
          }
        }
      }
      current := smallest;
    }

    method FindLargest()
      requires |at| == |runs|
      modifies `current
      ensures LargestHead(runs, at, current)
    {
      var largest: Option<nat> := None;
      for i := |runs| downto 0
        invariant match largest
          case None => forall p :: IsHead(runs, at, p) ==> p.child < i
          case Some(c) =>
            && i <= c < |runs| && at[c] < |runs[c]|
            && forall p :: IsHead(runs, at, p) && i <= p.child ==> !Precedes(runs, Place(c, at[c]), p)
      {
        if at[i] < |runs[i]| {
          if largest.None? {
            largest := Some(i);
          } else if Before(runs[largest.value][at[largest.value]], runs[i][at[i]]) {
            largest := Some(i);
          }
        }
      }
      current := largest;
    }

    method SeekToFirst()
      requires Inv()
      modifies this
      ensures Inv() && Least(runs, All, Cur()) && direction.Forward?
    {
      for i := 0 to |runs|
        invariant |at| == |runs| && forall j :: 0 <= j < i ==> at[j] == 0
      {
        at := at[i := 0];
      }
      assert CutsUp(runs, at, All);
      FindSmallest();
      direction := Forward;
      SmallestIsLeast(runs, at, All, current);
    }

    method Seek(target: Entry)
      requires Inv()
      modifies this
      ensures Inv() && Least(runs, From(target), Cur()) && direction.Forward?
    {
      for i := 0 to |runs|
        invariant |at| == |runs| && forall j :: 0 <= j < i ==> at[j] == SeekIndex(runs[j], target)
      {
        at := at[i := SeekIndex(runs[i], target)];
      }
      SeekCuts(runs, at, target);
      FindSmallest();
      direction := Forward;
      SmallestIsLeast(runs, at, From(target), current);
    }

    method SeekToLast()
      requires Inv()
      modifies this
      ensures Inv() && Greatest(runs, All, Cur()) && direction.Reverse?
    {
      for i := 0 to |runs|
        invariant |at| == |runs| && forall j :: 0 <= j < i ==> at[j] == JustBefore(runs[j], |runs[j]|)
      {
        at := at[i := JustBefore(runs[i], |runs[i]|)];
      }
      ghost var cut := seq(|runs|, i requires 0 <= i < |runs| => |runs[i]|);
      FindLargest();
      direction := Reverse;
      LargestIsGreatest(runs, at, cut, All, current);
    }

    /** The next place; after a step back, the first place with another, later entry. */
    method Next()
      requires Inv() && current.Some?
      modifies this
      ensures Inv() && direction.Forward?
      ensures old(direction).Forward? ==> Least(runs, After(old(Cur()).value), Cur())
      ensures old(direction).Reverse? ==> Least(runs, Above(At(runs, old(Cur()).value)), Cur())
    {
      hide Sorted, CutsUp, CutsDown, StandsAtMost, Greatest, Least, LargestHead, SmallestHead, Precedes, Within;
      var c := current.value;
      ghost var q := Place(c, at[c]);
      ghost var b := if direction.Forward? then After(q) else Above(At(runs, q));
      if direction.Reverse? {
        var key := runs[c][at[c]];
        for i := 0 to |runs|
          invariant |at| == |runs| && at[c] == old(at[c]) && current == Some(c)
          invariant forall j :: 0 <= j < i && j != c ==> at[j] == FirstAfter(runs[j], key)
        {
          if i != c {
            var n := SeekIndex(runs[i], key);
            if n < |runs[i]| && Same(key, runs[i][n]) {
              n := n + 1;
            }
            at := at[i := n];
          }
        }
        direction := Forward;
        at := at[c := at[c] + 1];
        AfterSelf(runs[c], q.pos);
        AboveCuts(runs, at, key);
      } else {
        AfterCuts(runs, at, q);
        at := at[c := at[c] + 1];
      }
      FindSmallest();
      SmallestIsLeast(runs, at, b, current);
    }

    /** The place before; after a step forward, the last place with another, earlier entry. */
    method Prev()
      requires Inv() && current.Some?
      modifies this
      ensures Inv() && direction.Reverse?
      ensures old(direction).Reverse? ==> Greatest(runs, Ahead(old(Cur()).value), Cur())
      ensures old(direction).Forward? ==> Greatest(runs, Below(At(runs, old(Cur()).value)), Cur())
    {
      hide Sorted, CutsUp, CutsDown, StandsAtMost, Greatest, Least, LargestHead, SmallestHead, Precedes, Within;
      var c := current.value;
      ghost var q := Place(c, at[c]);
      ghost var b := if direction.Reverse? then Ahead(q) else Below(At(runs, q));
      ghost var cut;
      if direction.Forward? {
        var key := runs[c][at[c]];
        cut := seq(|runs|, i requires 0 <= i < |runs| => SeekIndex(runs[i], key));
        for i := 0 to |runs|
          invariant |at| == |runs| && at[c] == old(at[c]) && current == Some(c)
          invariant forall j :: 0 <= j < i && j != c ==> at[j] == JustBefore(runs[j], SeekIndex(runs[j], key))
        {
          if i != c {
            var n := SeekIndex(runs[i], key);
            at := at[i := if n < |runs[i]| then JustBefore(runs[i], n) else JustBefore(runs[i], |runs[i]|)];
          }
        }
        direction := Reverse;
        SeekSelf(runs[c], at[c]);
        SeekCuts(runs, cut, key);
      } else {
        cut := AheadCuts(runs, at, q);
      }
      at := at[c := JustBefore(runs[c], at[c])];
      FindLargest();
      LargestIsGreatest(runs, at, cut, b, current);
    }
  }

  // ------------------------------------------------------------------
  // Where seeks and moves leave the children.

  /** A seek cuts a sorted child where the target would go. */
  lemma {:induction false} SeekSplits(run: seq<Entry>, target: Entry, a: nat)
    requires Sorted(run) && a < |run|
    ensures Before(run[a], target) <==> a < SeekIndex(run, target)
  {
    var n := SeekIndex(run, target);
    assert n < a ==> Before(run[n], run[a]);
  }

  lemma {:induction false} SeekSelf(run: seq<Entry>, p: nat)
    requires Sorted(run) && p < |run|
    ensures SeekIndex(run, run[p]) == p
  {
    SeekSplits(run, run[p], p);
    if p > 0 {
      assert Before(run[p - 1], run[p]);
      SeekSplits(run, run[p], p - 1);
    }
  }

  lemma {:induction false} SeekCuts(runs: Runs, at: seq<nat>, target: Entry)
    requires AllSorted(runs) && |at| == |runs|
    requires forall j :: 0 <= j < |runs| ==> at[j] == SeekIndex(runs[j], target)
    ensures CutsUp(runs, at, From(target)) && CutsDown(runs, at, Below(target))
  {
    forall p | On(runs, p)
      ensures Before(At(runs, p), target) <==> p.pos < at[p.child]
    {
      SeekSplits(runs[p.child], target, p.pos);
    }
  }

  /** Where a child stands after a seek to `target` and a step over a twin. */
  function FirstAfter(run: seq<Entry>, target: Entry): nat
  {
    var n := SeekIndex(run, target);
    if n < |run| && Same(target, run[n]) then n + 1 else n
  }

  lemma {:induction false} AfterSplits(run: seq<Entry>, target: Entry, a: nat)
    requires Sorted(run) && a < |run|
    ensures Before(target, run[a]) <==> FirstAfter(run, target) <= a
  {
    var n := SeekIndex(run, target);
    SeekSplits(run, target, a);
    assert n < a ==> Before(run[n], run[a]);
  }

  lemma {:induction false} AfterSelf(run: seq<Entry>, p: nat)
    requires Sorted(run) && p < |run|
    ensures FirstAfter(run, run[p]) == p + 1
  {
    SeekSelf(run, p);
  }

  lemma {:induction false} AboveCuts(runs: Runs, at: seq<nat>, key: Entry)
    requires AllSorted(runs) && |at| == |runs|
    requires forall j :: 0 <= j < |runs| ==> at[j] == FirstAfter(runs[j], key)
    ensures CutsUp(runs, at, Above(key))
  {
    forall p | On(runs, p)
      ensures Before(key, At(runs, p)) <==> at[p.child] <= p.pos
    {
      AfterSplits(runs[p.child], key, p.pos);
    }
  }

  /** Going forward, the other children already stand after the current place. */
  lemma {:induction false} AfterCuts(runs: Runs, at: seq<nat>, q: Place)
    requires AllSorted(runs) && |at| == |runs| && On(runs, q) && at[q.child] == q.pos && CutsUp(runs, at, Onward(q))
    ensures CutsUp(runs, at[q.child := q.pos + 1], After(q))
  {
    hide Precedes;
    forall p | On(runs, p)
      ensures Precedes(runs, q, p) <==> at[q.child := q.pos + 1][p.child] <= p.pos
    {
      PlacesInLine(runs, p, q);
      assert Within(runs, Onward(q), p) <==> at[p.child] <= p.pos;
    }
  }

  /** Going backward, the other children already stand before it. */
  lemma {:induction false} AheadCuts(runs: Runs, at: seq<nat>, q: Place) returns (cut: seq<nat>)
    requires AllSorted(runs) && |at| == |runs| && On(runs, q) && at[q.child] == q.pos
    requires forall i :: 0 <= i < |runs| ==> StandsAtMost(runs, i, at[i], q)
    ensures CutsDown(runs, cut, Ahead(q)) && StandsBefore(runs, at[q.child := JustBefore(runs[q.child], q.pos)], cut)
  {
    hide Precedes;
    cut := seq(|runs|, i requires 0 <= i < |runs| =>
      if i == q.child then q.pos else if at[i] < |runs[i]| then at[i] + 1 else 0);
    forall i | 0 <= i < |runs|
      ensures at[i] <= |runs[i]|
    {
      assert StandsAtMost(runs, i, at[i], q);
    }
    forall p | On(runs, p)
      ensures Precedes(runs, p, q) <==> p.pos < cut[p.child]
    {
      PlacesInLine(runs, p, q);
      assert StandsAtMost(runs, p.child, at[p.child], q);
    }
  }

  // ------------------------------------------------------------------
  // Any run of commands.

  datatype Command = First | Last | SeekTo(e: Entry) | Forth | Back

  predicate Backward(c: Command)
  {
    c.Last? || c.Back?
  }

  /** What a move of the iterator goes to, given whether the command before went backward. */
  function Bound(runs: Runs, before: Place, back: bool, c: Command): Bounds
    requires On(runs, before) && (c.Forth? || c.Back?)
  {
    if c.Forth? then (if back then Above(At(runs, before)) else After(before))
    else (if back then Ahead(before) else Below(At(runs, before)))
  }

  /** How one command moves the iterator; moves of one that stands nowhere do nothing. */
  ghost predicate Moves(runs: Runs, before: Option<Place>, back: bool, c: Command, after: Option<Place>)
  {
    match c
    case First => Least(runs, All, after)
    case Last => Greatest(runs, All, after)
    case SeekTo(e) => Least(runs, From(e), after)
    case Forth =>
      if before.Some? then On(runs, before.value) && Least(runs, Bound(runs, before.value, back, c), after) else after.None?
    case Back =>
      if before.Some? then On(runs, before.value) && Greatest(runs, Bound(runs, before.value, back, c), after) else after.None?
  }

  function Previous(out: seq<Option<Place>>, i: nat): Option<Place>
    requires i <= |out|
  {
    if i == 0 then None else out[i - 1]
  }

  predicate WentBack(commands: seq<Command>, i: nat)
    requires i <= |commands|
  {
    i > 0 && Backward(commands[i - 1])
  }

  ghost predicate Follows(runs: Runs, commands: seq<Command>, out: seq<Option<Place>>)
  {
    && |out| <= |commands|
    && forall i :: 0 <= i < |out| ==> Moves(runs, Previous(out, i), WentBack(commands, i), commands[i], out[i])
  }

  lemma {:induction false} OneMoreAnswer(runs: Runs, commands: seq<Command>, out: seq<Option<Place>>, r: Option<Place>)
    requires Follows(runs, commands, out) && |out| < |commands|
    requires Moves(runs, Previous(out, |out|), WentBack(commands, |out|), commands[|out|], r)
    ensures Follows(runs, commands, out + [r])
  {
    hide Moves;
    var out' := out + [r];
    forall i | 0 <= i < |out'|
      ensures Moves(runs, Previous(out', i), WentBack(commands, i), commands[i], out'[i])
    {
      assert Previous(out', i) == Previous(out, i);
    }
  }

  function Shown(runs: Runs, p: Option<Place>): Option<Entry>
  {
    if p.Some? && On(runs, p.value) then Some(At(runs, p.value)) else None
  }

  method Obey(it: Merger, c: Command) returns (r: Option<Entry>)
    requires it.Inv()
    modifies it
    ensures it.Inv() && r == Shown(it.runs, it.Cur())
    ensures Moves(it.runs, old(it.Cur()), old(it.direction).Reverse?, c, it.Cur())
    ensures it.Cur().Some? ==> (it.direction.Reverse? <==> Backward(c))
  {
    hide Least, Greatest;
    match c {
      case First => it.SeekToFirst();
      case Last => it.SeekToLast();
      case SeekTo(e) => it.Seek(e);
      case Forth =>
        if it.current.Some? {
          it.Next();
        }
      case Back =>
        if it.current.Some? {
          it.Prev();
        }
    }
    r := if it.current.Some? then Some(it.runs[it.current.value][it.at[it.current.value]]) else None;
  }

  /** The iterator answers any list of commands so. */
  method Drive(runs: Runs, commands: seq<Command>) returns (out: seq<Option<Entry>>, places: seq<Option<Place>>)
    requires AllSorted(runs)
    ensures |out| == |places| == |commands| && Follows(runs, commands, places)
    ensures forall i :: 0 <= i < |out| ==> out[i] == Shown(runs, places[i])
  {
    hide Moves;
    var it := new Merger(runs);
    out, places := [], [];
    for i := 0 to |commands|
      invariant it.Inv() && fresh(it) && it.runs == runs && |out| == |places| == i
      invariant it.Cur() == Previous(places, i) && Follows(runs, commands, places)
      invariant it.Cur().Some? ==> (it.direction.Reverse? <==> WentBack(commands, i))
      invariant forall j :: 0 <= j < i ==> out[j] == Shown(runs, places[j])
    {
      ghost var before, back := it.Cur(), it.direction.Reverse?;
      var answer := Obey(it, commands[i]);
      FromNowhere(runs, before, back, WentBack(commands, i), commands[i], it.Cur());
      OneMoreAnswer(runs, commands, places, it.Cur());
      out, places := out + [answer], places + [it.Cur()];
    }
  }

  /** The direction of an iterator that stands nowhere does not matter. */
  lemma {:induction false} FromNowhere(runs: Runs, before: Option<Place>, back: bool, back': bool, c: Command, after: Option<Place>)
    requires Moves(runs, before, back, c, after) && (before.Some? ==> back == back')
    ensures Moves(runs, before, back', c, after)
  {
  }

  // ------------------------------------------------------------------
  // The cursor that never skips, and when the iterator is one.

  /** A move to the very next place. */
  ghost predicate Steps(runs: Runs, before: Place, c: Command, after: Option<Place>)
    requires c.Forth? || c.Back?
  {
    if c.Forth? then Least(runs, After(before), after) else Greatest(runs, Ahead(before), after)
  }

  /** Another child has the same entry, on the side the command goes to. */
  ghost predicate HasTwin(runs: Runs, p: Place, c: Command)
    requires On(runs, p)
  {
    exists q :: On(runs, q) && Same(At(runs, p), At(runs, q)) && (if c.Forth? then p.child < q.child else q.child < p.child)
  }

  /**
   Every move goes to the very next place, so that an entry in several children shows once for
   each, if and only if it does not turn at an entry with a twin ahead.
   */
  lemma {:induction false} TurnIsExact(runs: Runs, commands: seq<Command>, out: seq<Option<Place>>, i: nat)
    requires AllSorted(runs) && Follows(runs, commands, out) && i < |out|
    requires Previous(out, i).Some? && (commands[i].Forth? || commands[i].Back?)
    ensures On(runs, Previous(out, i).value)
    ensures Steps(runs, Previous(out, i).value, commands[i], out[i]) <==>
      !(Backward(commands[i]) != WentBack(commands, i) && HasTwin(runs, Previous(out, i).value, commands[i]))
  {
    hide Least, Greatest, HasTwin, Within;
    var p, c := Previous(out, i).value, commands[i];
    assert Moves(runs, Some(p), WentBack(commands, i), c, out[i]);
    if Backward(c) != WentBack(commands, i) {
      if HasTwin(runs, p, c) {
        TwinIsSkipped(runs, p, c, out[i]);
      } else {
        NoTwinNoSkip(runs, p, c, out[i]);
      }
    }
  }

  lemma {:induction false} TwinIsSkipped(runs: Runs, p: Place, c: Command, r: Option<Place>)
    requires AllSorted(runs) && On(runs, p) && (c.Forth? || c.Back?) && HasTwin(runs, p, c)
    requires c.Forth? ==> Least(runs, Above(At(runs, p)), r)
    requires c.Back? ==> Greatest(runs, Below(At(runs, p)), r)
    ensures !Steps(runs, p, c, r)
  {
    var q :| On(runs, q) && Same(At(runs, p), At(runs, q)) && (if c.Forth? then p.child < q.child else q.child < p.child);
    assert c.Forth? ==> Within(runs, After(p), q);
    assert c.Back? ==> Within(runs, Ahead(p), q);
  }

  lemma {:induction false} NoTwinNoSkip(runs: Runs, p: Place, c: Command, r: Option<Place>)
    requires AllSorted(runs) && On(runs, p) && (c.Forth? || c.Back?) && !HasTwin(runs, p, c)
    requires c.Forth? ==> Least(runs, Above(At(runs, p)), r)
    requires c.Back? ==> Greatest(runs, Below(At(runs, p)), r)
    ensures Steps(runs, p, c, r)
  {
    forall q | On(runs, q)
      ensures c.Forth? ==> (Within(runs, After(p), q) <==> Within(runs, Above(At(runs, p)), q))
      ensures c.Back? ==> (Within(runs, Ahead(p), q) <==> Within(runs, Below(At(runs, p)), q))
    {
    }
  }

  /** Two children with the same entry: back over both and forth again, the second is passed over. */
  lemma {:induction false} TwinsAreSkipped(e: Entry) returns (runs: Runs, commands: seq<Command>, out: seq<Option<Place>>)
    ensures AllSorted(runs) && |runs| == 2 && runs[0] == runs[1] == [e]
    ensures commands == [Last, Back, Forth] && |out| == 3 && Follows(runs, commands, out)
    ensures out[0] == Some(Place(1, 0)) && out[1] == Some(Place(0, 0)) && out[2] == None
  {
    runs, commands := [[e], [e]], [Last, Back, Forth];
    out := [Some(Place(1, 0)), Some(Place(0, 0)), None];
    forall i | 0 <= i < 3
      ensures Moves(runs, Previous(out, i), WentBack(commands, i), commands[i], out[i])
    {
      forall p | On(runs, p)
        ensures p == Place(0, 0) || p == Place(1, 0)
      {
      }
    }
  }

  // ------------------------------------------------------------------
  // A full scan.

  ghost function Beyond(runs: Runs, q: Place): set<Place>
    requires On(runs, q)
  {
    set i, a | 0 <= i < |runs| && 0 <= a < |runs[i]| && Precedes(runs, q, Place(i, a)) :: Place(i, a)
  }

  /** The places are on the children and in their order. */
  ghost predicate InLine(runs: Runs, places: seq<Place>)
  {
    && (forall i :: 0 <= i < |places| ==> On(runs, places[i]))
    && (forall i, j :: 0 <= i < j < |places| ==> Precedes(runs, places[i], places[j]))
  }

  /** No two children share an entry. */
  ghost predicate Distinct(runs: Runs)
  {
    forall p, q :: On(runs, p) && On(runs, q) && p.child != q.child ==> !Same(At(runs, p), At(runs, q))
  }

  /** The scan a compaction makes yields every entry of every child once, in order. */
  method MergeAll(runs: Runs) returns (out: seq<Entry>, ghost places: seq<Place>)
    requires AllSorted(runs)
    ensures InLine(runs, places) && forall p :: On(runs, p) <==> p in places
    ensures |out| == |places| && forall i :: 0 <= i < |out| ==> out[i] == At(runs, places[i])
    ensures Distinct(runs) ==> Sorted(out)
  {
    hide Sorted, CutsUp, Precedes;
    var it := new Merger(runs);
    it.SeekToFirst();
    out, places := [], [];
    NoneGathered(runs, it.Cur());
    hide Gathered, Least;
    while it.current.Some?
      invariant it.Inv() && fresh(it) && it.runs == runs && it.direction.Forward?
      invariant Gathered(runs, places, it.Cur())
      invariant |out| == |places| && forall i :: 0 <= i < |out| ==> On(runs, places[i]) && out[i] == At(runs, places[i])
      decreases it.current.Some?, if it.current.Some? then Beyond(runs, it.Cur().value) else {}
    {
      ghost var q := it.Cur().value;
      var e := it.runs[it.current.value][it.at[it.current.value]];
      it.Next();
      GatherOne(runs, places, q, it.Cur());
      out, places := out + [e], places + [q];
    }
    AllGathered(runs, places);
    if Distinct(runs) {
      ApartIsSorted(runs, places, out);
    }
  }

  /** `places` are, in order, those before the cursor. */
  ghost predicate Gathered(runs: Runs, places: seq<Place>, cur: Option<Place>)
  {
    && InLine(runs, places) && (cur.Some? ==> On(runs, cur.value))
    && forall p :: On(runs, p) ==> (p in places <==> cur.None? || Precedes(runs, p, cur.value))
  }

  lemma {:induction false} NoneGathered(runs: Runs, cur: Option<Place>)
    requires Least(runs, All, cur)
    ensures Gathered(runs, [], cur)
  {
  }

  lemma {:induction false} AllGathered(runs: Runs, places: seq<Place>)
    requires Gathered(runs, places, None)
    ensures InLine(runs, places) && forall p :: On(runs, p) <==> p in places
  {
  }

  lemma {:induction false} GatherOne(runs: Runs, places: seq<Place>, q: Place, next: Option<Place>)
    requires AllSorted(runs) && Gathered(runs, places, Some(q)) && Least(runs, After(q), next)
    ensures Gathered(runs, places + [q], next)
    ensures next.Some? ==> Beyond(runs, next.value) < Beyond(runs, q)
  {
    hide Precedes;
    forall p | On(runs, p)
      ensures p in places + [q] <==> next.None? || Precedes(runs, p, next.value)
    {
      PlacesInLine(runs, p, q);
      if next.Some? {
        assert Precedes(runs, q, next.value);
        if p in places {
          Transitive(runs, p, q, next.value);
        }
      }
    }
    if next.Some? {
      PlacesInLine(runs, next.value, next.value);
      forall p | On(runs, p) && Precedes(runs, next.value, p)
        ensures Precedes(runs, q, p)
      {
        Transitive(runs, q, next.value, p);
      }
      assert next.value in Beyond(runs, q) && next.value !in Beyond(runs, next.value);
    }
  }

  lemma {:induction false} ApartIsSorted(runs: Runs, places: seq<Place>, out: seq<Entry>)
    requires Distinct(runs) && InLine(runs, places) && |out| == |places|
    requires forall i :: 0 <= i < |out| ==> out[i] == At(runs, places[i])
    ensures Sorted(out)
  {
    forall i, j | 0 <= i < j < |out|
      ensures Before(out[i], out[j])
    {
      assert Precedes(runs, places[i], places[j]);
      assert On(runs, places[i]) && On(runs, places[j]);
    }
  }
}

/**
 The skip list with one writer and any number of lock-free readers. Nodes live in an arena
 and are named by their place in it; node 0 is the head. Keys are ranks in the key order.

 Every single store that `Insert` makes leaves a good list, and a reader that takes its
 steps at any moments between those stores never follows an unset link and ends with the
 first key at or after its target in the list it last looked at.
 */
module SkipList {

  const MaxHeight: nat := 12

  datatype Link = Unset | Null | To(node: nat)

  datatype Node = Node(key: real, next: seq<Link>)

  /** The memory the readers see, and how many levels of each node are reachable. */
  datatype Memory = Memory(nodes: seq<Node>, maxHeight: nat, linked: seq<nat>)

  predicate IsNode(s: Memory, n: int)
  {
    0 < n < |s.nodes|
  }

  /** Node `m` comes after `n`; the head comes before everything. */
  predicate After(s: Memory, n: nat, m: nat)
    requires n < |s.nodes| && m < |s.nodes|
  {
    m > 0 && (n == 0 || s.nodes[n].key < s.nodes[m].key)
  }

  /** `m` is reachable at `level`. */
  predicate OnLevel(s: Memory, level: nat, m: int)
    requires |s.linked| == |s.nodes|
  {
    IsNode(s, m) && s.linked[m] > level
  }

  /** No node on the level lies strictly between `n` and `m`. */
  ghost predicate NothingBetween(s: Memory, level: nat, n: nat, m: nat)
    requires |s.linked| == |s.nodes| && n < |s.nodes| && m < |s.nodes|
  {
    forall k :: OnLevel(s, level, k) && After(s, n, k) ==> !After(s, k, m)
  }

  /** The link is the next node of the level after `n`. */
  ghost predicate IsSuccessor(s: Memory, level: nat, n: nat, link: Link)
    requires |s.linked| == |s.nodes| && n < |s.nodes|
  {
    match link
    case Unset => false
    case Null => forall k :: OnLevel(s, level, k) ==> !After(s, n, k)
    case To(m) => OnLevel(s, level, m) && After(s, n, m) && NothingBetween(s, level, n, m)
  }

  ghost predicate Heights(s: Memory)
  {
    && |s.nodes| > 0 && |s.linked| == |s.nodes| && 0 < s.maxHeight <= MaxHeight
    && |s.nodes[0].next| == MaxHeight && s.linked[0] == MaxHeight
    && (forall n :: IsNode(s, n) ==> 0 < |s.nodes[n].next| <= s.maxHeight && s.linked[n] <= |s.nodes[n].next|)
  }

  ghost predicate DistinctKeys(s: Memory)
  {
    forall n, m :: IsNode(s, n) && IsNode(s, m) && n != m ==> s.nodes[n].key != s.nodes[m].key
  }

  /** Every reachable link leads to the next node of its level. */
  ghost predicate Good(s: Memory)
  {
    && Heights(s) && DistinctKeys(s)
    && (forall n, l :: 0 <= n < |s.nodes| && 0 <= l < s.linked[n] && l < |s.nodes[n].next| ==>
          IsSuccessor(s, l, n, s.nodes[n].next[l]))
  }

  /** The keys readers can reach. */
  ghost function Keys(s: Memory): iset<real>
    requires |s.linked| == |s.nodes|
  {
    iset n | OnLevel(s, 0, n) :: s.nodes[n].key
  }

  // ------------------------------------------------------------------
  // The stores of the writer.

  function SetHeight(s: Memory, h: nat): Memory
  {
    s.(maxHeight := h)
  }

  function NewNode(s: Memory, key: real, height: nat): Memory
  {
    s.(nodes := s.nodes + [Node(key, seq(height, _ => Unset))], linked := s.linked + [0])
  }

  function SetNext(s: Memory, n: nat, level: nat, link: Link): Memory
    requires n < |s.nodes| && level < |s.nodes[n].next|
  {
    s.(nodes := s.nodes[n := s.nodes[n].(next := s.nodes[n].next[level := link])])
  }

  /** Pointing `prev` at `x` makes one more level of `x` reachable. */
  function Publish(s: Memory, prev: nat, level: nat, x: nat): Memory
    requires prev < |s.nodes| && level < |s.nodes[prev].next| && x < |s.linked|
  {
    SetNext(s, prev, level, To(x)).(linked := s.linked[x := level + 1])
  }

  lemma {:induction false} SetHeightKeepsGood(s: Memory, h: nat)
    requires Good(s) && s.maxHeight <= h <= MaxHeight
    ensures Good(SetHeight(s, h)) && Keys(SetHeight(s, h)) == Keys(s)
  {
    var s' := SetHeight(s, h);
    forall n, l | 0 <= n < |s.nodes| && 0 <= l < s.linked[n] && l < |s.nodes[n].next|
      ensures IsSuccessor(s', l, n, s'.nodes[n].next[l])
    {
      assert IsSuccessor(s, l, n, s.nodes[n].next[l]);
      SameSuccessor(s, s', l, n, s.nodes[n].next[l]);
    }
    assert forall n :: OnLevel(s', 0, n) <==> OnLevel(s, 0, n);
  }

  /** What is reachable at the level, and in what order, is all a successor depends on. */
  lemma {:induction false} SameSuccessor(s: Memory, s': Memory, level: nat, n: nat, link: Link)
    requires |s.linked| == |s.nodes| && |s'.linked| == |s'.nodes| && n < |s.nodes| <= |s'.nodes|
    requires forall k :: 0 <= k < |s.nodes| ==> s'.nodes[k].key == s.nodes[k].key
    requires forall k :: OnLevel(s', level, k) <==> OnLevel(s, level, k)
    requires IsSuccessor(s, level, n, link)
    ensures IsSuccessor(s', level, n, link)
  {
  }

  lemma {:induction false} NewNodeKeepsGood(s: Memory, key: real, height: nat)
    requires Good(s) && 0 < height <= s.maxHeight && (forall n :: IsNode(s, n) ==> s.nodes[n].key != key)
    ensures Good(NewNode(s, key, height)) && Keys(NewNode(s, key, height)) == Keys(s)
  {
    var s' := NewNode(s, key, height);
    forall k, l: nat
      ensures OnLevel(s', l, k) <==> OnLevel(s, l, k)
    {
    }
    forall n, l | 0 <= n < |s'.nodes| && 0 <= l < s'.linked[n] && l < |s'.nodes[n].next|
      ensures IsSuccessor(s', l, n, s'.nodes[n].next[l])
    {
      assert n < |s.nodes|;
      assert IsSuccessor(s, l, n, s.nodes[n].next[l]);
      SameSuccessor(s, s', l, n, s.nodes[n].next[l]);
    }
  }

  /** Setting a link of the new node that is not reachable yet. */
  lemma {:induction false} CopyKeepsGood(s: Memory, x: nat, level: nat, link: Link)
    requires Good(s) && IsNode(s, x) && s.linked[x] <= level < |s.nodes[x].next|
    ensures Good(SetNext(s, x, level, link)) && Keys(SetNext(s, x, level, link)) == Keys(s)
  {
    var s' := SetNext(s, x, level, link);
    forall n, l | 0 <= n < |s'.nodes| && 0 <= l < s'.linked[n] && l < |s'.nodes[n].next|
      ensures IsSuccessor(s', l, n, s'.nodes[n].next[l])
    {
      assert s'.nodes[n].next[l] == s.nodes[n].next[l];
      assert IsSuccessor(s, l, n, s.nodes[n].next[l]);
      SameSuccessor(s, s', l, n, s.nodes[n].next[l]);
    }
  }

  /** `prev` is the last node of the level before key `key`. */
  ghost predicate IsPredecessor(s: Memory, level: nat, prev: nat, key: real)
    requires |s.linked| == |s.nodes|
  {
    && prev < |s.nodes| && s.linked[prev] > level && (prev > 0 ==> s.nodes[prev].key < key)
    && forall k :: OnLevel(s, level, k) && s.nodes[k].key < key ==> !After(s, prev, k)
  }

  ghost predicate Predecessors(s: Memory, prev: seq<nat>, from: nat, to: nat, key: real)
  {
    && |s.linked| == |s.nodes| && to <= |prev|
    && forall l :: from <= l < to ==> IsPredecessor(s, l, prev[l], key)
  }

  /** Stores that touch neither the levels in question nor any key leave the predecessors alone. */
  lemma {:induction false} SamePredecessors(s: Memory, s': Memory, prev: seq<nat>, from: nat, to: nat, key: real)
    requires Predecessors(s, prev, from, to, key) && |s.nodes| <= |s'.nodes| == |s'.linked|
    requires forall k :: 0 <= k < |s.nodes| ==> s'.nodes[k].key == s.nodes[k].key && s.linked[k] <= s'.linked[k]
    requires forall k, l: nat :: from <= l < to && OnLevel(s', l, k) ==> OnLevel(s, l, k)
    ensures Predecessors(s', prev, from, to, key)
  {
    forall l | from <= l < to
      ensures IsPredecessor(s', l, prev[l], key)
    {
      assert IsPredecessor(s, l, prev[l], key);
      forall k | OnLevel(s', l, k) && s'.nodes[k].key < key
        ensures !After(s', prev[l], k)
      {
        assert OnLevel(s, l, k);
      }
    }
  }

  /** On levels no node reaches, the head is the predecessor of everything. */
  lemma {:induction false} MorePredecessors(s: Memory, s': Memory, prev0: seq<nat>, prev: seq<nat>, height: nat,
                                            key: real)
    requires Heights(s) && Predecessors(s, prev0, 0, s.maxHeight, key) && height <= |prev| == |prev0| && height <= MaxHeight
    requires s' == s || s' == SetHeight(s, height)
    requires forall l :: 0 <= l < s.maxHeight && l < |prev| ==> prev[l] == prev0[l]
    requires forall l :: s.maxHeight <= l < height ==> prev[l] == 0
    ensures Predecessors(s', prev, 0, height, key)
  {
    forall l | 0 <= l < height
      ensures IsPredecessor(s', l, prev[l], key)
    {
      if l < s.maxHeight {
        assert IsPredecessor(s, l, prev[l], key);
        forall k | OnLevel(s', l, k) && s'.nodes[k].key < key
          ensures !After(s', prev[l], k)
        {
          assert OnLevel(s, l, k);
        }
      } else {
        forall k
          ensures !OnLevel(s', l, k)
        {
          assert IsNode(s, k) ==> s.linked[k] <= l;
        }
      }
    }
  }

  lemma {:induction false} FewerPredecessors(s: Memory, prev: seq<nat>, from: nat, to: nat, key: real)
    requires Predecessors(s, prev, from, to, key)
    ensures Predecessors(s, prev, from + 1, to, key)
  {
  }

  lemma {:induction false} PredecessorHasLevel(s: Memory, prev: seq<nat>, level: nat, to: nat, key: real, x: nat)
    requires Heights(s) && Predecessors(s, prev, level, to, key) && level < to <= MaxHeight
    requires IsNode(s, x) && s.nodes[x].key == key
    ensures prev[level] < |s.nodes| && level < |s.nodes[prev[level]].next| && prev[level] != x
    ensures IsPredecessor(s, level, prev[level], key)
  {
    assert IsPredecessor(s, level, prev[level], key);
  }

  lemma {:induction false} KeyIsNew(s: Memory, key: real)
    requires Good(s) && key !in Keys(s) && forall n :: 0 <= n < |s.nodes| ==> s.linked[n] == |s.nodes[n].next|
    ensures forall n :: IsNode(s, n) ==> s.nodes[n].key != key
  {
    forall n | IsNode(s, n)
      ensures s.nodes[n].key != key
    {
      assert OnLevel(s, 0, n);
      assert s.nodes[n].key in Keys(s);
    }
  }

  /** Making the new node reachable at its next level. */
  lemma {:induction false} PublishKeepsGood(s: Memory, prev: nat, level: nat, x: nat)
    requires Good(s) && IsNode(s, x) && s.linked[x] == level < |s.nodes[x].next|
    requires IsPredecessor(s, level, prev, s.nodes[x].key) && level < |s.nodes[prev].next|
    requires s.nodes[x].next[level] == s.nodes[prev].next[level]
    ensures Good(Publish(s, prev, level, x))
    ensures Keys(Publish(s, prev, level, x)) == if level == 0 then Keys(s) + iset{s.nodes[x].key} else Keys(s)
  {
    var s' := Publish(s, prev, level, x);
    assert IsSuccessor(s, level, prev, s.nodes[prev].next[level]);
    forall l: nat, k
      ensures OnLevel(s', l, k) <==> OnLevel(s, l, k) || (l == level && k == x)
    {
    }
    forall n, l | 0 <= n < |s'.nodes| && 0 <= l < s'.linked[n] && l < |s'.nodes[n].next|
      ensures IsSuccessor(s', l, n, s'.nodes[n].next[l])
    {
      if n != x || l < level {
        assert IsSuccessor(s, l, n, s.nodes[n].next[l]);
      }
      if l != level {
        SameSuccessor(s, s', l, n, s.nodes[n].next[l]);
      } else {
        SpliceSuccessor(s, s', level, prev, x, n);
      }
    }
    KeysAfterPublish(s, s', level, x);
  }

  lemma {:induction false} KeysAfterPublish(s: Memory, s': Memory, level: nat, x: nat)
    requires |s.linked| == |s.nodes| == |s'.nodes| == |s'.linked| && IsNode(s, x)
    requires forall k :: 0 <= k < |s.nodes| ==> s'.nodes[k].key == s.nodes[k].key
    requires forall l: nat, k :: OnLevel(s', l, k) <==> OnLevel(s, l, k) || (l == level && k == x)
    ensures Keys(s') == if level == 0 then Keys(s) + iset{s.nodes[x].key} else Keys(s)
  {
    forall k
      ensures k in Keys(s') <==> k in Keys(s) || (level == 0 && k == s.nodes[x].key)
    {
      if k in Keys(s) {
        var n :| OnLevel(s, 0, n) && s.nodes[n].key == k;
        assert OnLevel(s', 0, n);
      }
      if level == 0 && k == s.nodes[x].key {
        assert OnLevel(s', 0, x);
      }
      if k in Keys(s') {
        var n :| OnLevel(s', 0, n) && s'.nodes[n].key == k;
        assert OnLevel(s, 0, n) || (level == 0 && n == x);
      }
    }
  }

  /** The successors of one level once `x` is spliced in after `prev`. */
  lemma {:induction false} SpliceSuccessor(s: Memory, s': Memory, level: nat, prev: nat, x: nat, n: nat)
    requires Heights(s) && DistinctKeys(s) && IsNode(s, x) && s.linked[x] == level < |s.nodes[x].next|
    requires IsPredecessor(s, level, prev, s.nodes[x].key) && level < |s.nodes[prev].next|
    requires s.nodes[x].next[level] == s.nodes[prev].next[level]
    requires IsSuccessor(s, level, prev, s.nodes[prev].next[level])
    requires s' == Publish(s, prev, level, x)
    requires forall k :: OnLevel(s', level, k) <==> OnLevel(s, level, k) || k == x
    requires n < |s.nodes| && s'.linked[n] > level && level < |s.nodes[n].next|
    requires n != x ==> IsSuccessor(s, level, n, s.nodes[n].next[level])
    ensures IsSuccessor(s', level, n, s'.nodes[n].next[level])
  {
    if n == prev {
      assert s'.nodes[n].next[level] == To(x);
    } else if n == x {
      assert s'.nodes[n].next[level] == s.nodes[prev].next[level];
    } else {
      assert s'.nodes[n].next[level] == s.nodes[n].next[level];
      NotSplicedHere(s, level, prev, x, n);
    }
  }

  /** The new node does not lie between any other node and its successor. */
  lemma {:induction false} NotSplicedHere(s: Memory, level: nat, prev: nat, x: nat, n: nat)
    requires Heights(s) && DistinctKeys(s) && IsNode(s, x) && s.linked[x] == level
    requires IsPredecessor(s, level, prev, s.nodes[x].key)
    requires n < |s.nodes| && n != x && n != prev && s.linked[n] > level && level < |s.nodes[n].next|
    requires IsSuccessor(s, level, n, s.nodes[n].next[level])
    ensures After(s, n, x) ==> s.nodes[n].next[level].To? && !After(s, x, s.nodes[n].next[level].node)
  {
    if After(s, n, x) {
      assert n > 0 ==> OnLevel(s, level, n);
      assert prev > 0;
      assert OnLevel(s, level, prev) && After(s, n, prev);
    }
  }

  // ------------------------------------------------------------------
  // Readers.

  /** The first reachable node at or after `key`, or none. */
  ghost predicate IsFirstFrom(s: Memory, key: real, r: Link)
    requires |s.linked| == |s.nodes|
  {
    match r
    case Unset => false
    case Null => forall k :: OnLevel(s, 0, k) ==> s.nodes[k].key < key
    case To(m) =>
      && OnLevel(s, 0, m) && s.nodes[m].key >= key
      && forall k :: OnLevel(s, 0, k) && s.nodes[k].key >= key ==> s.nodes[m].key <= s.nodes[k].key
  }

  /** The last reachable node before `key`, or the head. */
  ghost predicate IsLastBefore(s: Memory, key: real, n: nat)
    requires |s.linked| == |s.nodes|
  {
    && n < |s.nodes| && (n > 0 ==> OnLevel(s, 0, n) && s.nodes[n].key < key)
    && forall k :: OnLevel(s, 0, k) && s.nodes[k].key < key ==> !After(s, n, k)
  }

  /** A search for `target` under way at node `x`, or ended at `before` with the answer `found`. */
  datatype Reader =
    | Searching(x: nat, level: nat, target: real)
    | Done(before: nat, found: Link, target: real)

  /** Where a reader may be: at a node before its target that is reachable at its level. */
  ghost predicate ReaderOk(s: Memory, r: Reader)
    requires Heights(s)
  {
    r.Searching? ==> r.x < |s.nodes| && r.level < s.linked[r.x] && (r.x > 0 ==> s.nodes[r.x].key < r.target)
  }

  /** `KeyIsAfterNode`. */
  predicate KeyIsAfter(s: Memory, key: real, link: Link)
  {
    link.To? && link.node < |s.nodes| && s.nodes[link.node].key < key
  }

  /** One load of a link and what the search does with it. */
  ghost predicate ReaderStep(s: Memory, r: Reader, r': Reader)
  {
    && r.Searching? && r.x < |s.nodes| && r.level < |s.nodes[r.x].next|
    && var link := s.nodes[r.x].next[r.level];
       if KeyIsAfter(s, r.target, link) then r' == r.(x := link.node)
       else if r.level == 0 then r' == Done(r.x, link, r.target)
       else r' == r.(level := r.level - 1)
  }

  /** A reader's load finds a set link, keeps it on the list, and ends at the right place. */
  lemma {:induction false} ReaderStepIsSafe(s: Memory, r: Reader, r': Reader)
    requires Good(s) && ReaderOk(s, r) && ReaderStep(s, r, r')
    ensures !s.nodes[r.x].next[r.level].Unset? && ReaderOk(s, r')
    ensures r'.Done? ==> IsFirstFrom(s, r.target, r'.found) && IsLastBefore(s, r.target, r'.before)
  {
    assert IsSuccessor(s, r.level, r.x, s.nodes[r.x].next[r.level]);
    if r'.Done? {
      EndOfSearch(s, r.target, r.x, s.nodes[r.x].next[0]);
    }
  }

  lemma {:induction false} EndOfSearch(s: Memory, target: real, x: nat, link: Link)
    requires Heights(s) && DistinctKeys(s) && x < |s.nodes| && s.linked[x] > 0
    requires x > 0 ==> s.nodes[x].key < target
    requires IsSuccessor(s, 0, x, link) && !KeyIsAfter(s, target, link)
    ensures IsFirstFrom(s, target, link) && IsLastBefore(s, target, x)
  {
    forall k | OnLevel(s, 0, k)
      ensures s.nodes[k].key < target ==> !After(s, x, k)
      ensures s.nodes[k].key >= target ==> link.To? && s.nodes[link.node].key <= s.nodes[k].key
    {
      assert s.nodes[k].key >= target ==> After(s, x, k);
    }
  }

  /** What every store of the writer leaves as it was. */
  ghost predicate Grows(s: Memory, s': Memory)
  {
    && |s.linked| == |s.nodes| <= |s'.nodes| == |s'.linked| && s.maxHeight <= s'.maxHeight
    && forall n :: 0 <= n < |s.nodes| ==> s'.nodes[n].key == s.nodes[n].key && s.linked[n] <= s'.linked[n]
  }

  /** One insertion after the other, each given by the memory at each of its moments. */
  ghost predicate Insertions(traces: seq<seq<Memory>>, keys: seq<real>)
  {
    && |traces| == |keys| > 0
    && (forall i :: 0 <= i < |traces| ==>
          |traces[i]| > 0 && Stores(traces[i], traces[i][0], traces[i][|traces[i]| - 1], keys[i]))
    && (forall i :: 0 <= i < |traces| - 1 ==> Joint(traces[i], traces[i + 1]))
  }

  /** The one begins where the other ends. */
  predicate Joint(a: seq<Memory>, b: seq<Memory>)
  {
    |a| > 0 && |b| > 0 && b[0] == a[|a| - 1]
  }

  /** The memory at each moment of all of them. */
  function History(traces: seq<seq<Memory>>): seq<Memory>
  {
    if traces == [] then [] else History(traces[..|traces| - 1]) + traces[|traces| - 1]
  }

  /** At every moment the list is good, and from one to the next it only grows. */
  ghost predicate SafeHistory(history: seq<Memory>)
  {
    && (forall i :: 0 <= i < |history| ==> Good(history[i]))
    && (forall i :: 0 <= i < |history| - 1 ==> Grows(history[i], history[i + 1]))
  }

  lemma {:induction false} InsertionsAreSafe(traces: seq<seq<Memory>>, keys: seq<real>)
    requires Insertions(traces, keys)
    ensures SafeHistory(History(traces)) && |History(traces)| > 0
    ensures var last := traces[|traces| - 1];
      |last| > 0 && History(traces)[|History(traces)| - 1] == last[|last| - 1]
  {
    hide Good, Grows, OneStore, OldOrNew;
    var n := |traces| - 1;
    var init, last := traces[..n], traces[n];
    assert Stores(last, last[0], last[|last| - 1], keys[n]);
    if n > 0 {
      InsertionsAreSafe(init, keys[..n]);
      assert Joint(traces[n - 1], traces[n]);
      assert last[0] == History(init)[|History(init)| - 1];
      GrowsSelf(last[0]);
    }
  }

  lemma {:induction false} GrowsSelf(s: Memory)
    requires Good(s)
    ensures Grows(s, s)
  {
  }

  /**
   A reader during the insertions: moment `i` finds the writer at place `at[i]` of the
   history; then the writer makes a store or the reader a load. The reader starts at the head,
   on any level, since it may have read the height before or after the links.
   */
  ghost predicate Reading(history: seq<Memory>, at: seq<nat>, readers: seq<Reader>)
  {
    && |at| == |readers| > 0 && (forall i :: 0 <= i < |at| ==> at[i] < |history|)
    && readers[0].Searching? && readers[0].x == 0 && readers[0].level < MaxHeight
    && forall i :: 0 <= i < |at| - 1 ==>
         || (at[i + 1] == at[i] + 1 && readers[i + 1] == readers[i])
         || (at[i + 1] == at[i] && ReaderStep(history[at[i]], readers[i], readers[i + 1]))
  }

  /**
   Through any interleaving with any insertions a reader stays on the list: it can always
   make its next load, which never finds an unset link, and when its search ends the answer
   is right for the memory of that moment.
   */
  lemma {:induction false} ReaderIsSafe(traces: seq<seq<Memory>>, keys: seq<real>, at: seq<nat>, readers: seq<Reader>,
                                        n: nat)
    requires Insertions(traces, keys) && Reading(History(traces), at, readers) && n < |at|
    ensures Good(History(traces)[at[n]]) && ReaderOk(History(traces)[at[n]], readers[n])
    ensures var s, r := History(traces)[at[n]], readers[n];
      r.Searching? ==> r.x < |s.nodes| && r.level < |s.nodes[r.x].next| && !s.nodes[r.x].next[r.level].Unset?
    ensures var s, r := History(traces)[at[n]], readers[n];
      n > 0 && r.Done? && readers[n - 1].Searching? ==>
        IsFirstFrom(s, r.target, r.found) && IsLastBefore(s, r.target, r.before)
  {
    InsertionsAreSafe(traces, keys);
    var history := History(traces);
    hide Insertions, History, IsFirstFrom, IsLastBefore, IsSuccessor, DistinctKeys;
    if n > 0 {
      ReaderIsSafe(traces, keys, at, readers, n - 1);
      if at[n] == at[n - 1] {
        ReaderStepIsSafe(history[at[n]], readers[n - 1], readers[n]);
      } else {
        assert Grows(history[at[n - 1]], history[at[n]]);
      }
    }
    if readers[n].Searching? {
      NextLoad(history[at[n]], readers[n]);
    }
  }

  lemma {:induction false} NextLoad(s: Memory, r: Reader)
    requires Good(s) && ReaderOk(s, r) && r.Searching?
    ensures r.level < |s.nodes[r.x].next| && !s.nodes[r.x].next[r.level].Unset?
  {
    assert IsSuccessor(s, r.level, r.x, s.nodes[r.x].next[r.level]);
  }

  // ------------------------------------------------------------------
  // The list.

  class List {
    var nodes: seq<Node>
    var maxHeight: nat
    ghost var linked: seq<nat>

    ghost function View(): Memory
      reads this
    {
      Memory(nodes, maxHeight, linked)
    }

    /** No insertion is under way. */
    ghost predicate Valid()
      reads this
    {
      Good(View()) && forall n :: 0 <= n < |nodes| ==> linked[n] == |nodes[n].next|
    }

    constructor ()
      ensures Valid() && Keys(View()) == iset{}
    {
      nodes := [Node(0.0, seq(MaxHeight, _ => Null))];
      maxHeight := 1;
      linked := [MaxHeight];
    }

    /** The first node at or after `key`, and the last node before it on every level. */
    method FindGreaterOrEqual(key: real) returns (r: Link, prev: seq<nat>)
      requires Valid()
      ensures IsFirstFrom(View(), key, r)
      ensures |prev| == MaxHeight && Predecessors(View(), prev, 0, maxHeight, key)
    {
      hide IsSuccessor, IsPredecessor, IsFirstFrom, IsLastBefore;
      prev := seq(MaxHeight, _ => 0);
      var x: nat, level := 0, maxHeight - 1;
      while true
        invariant 0 <= level < maxHeight && |prev| == MaxHeight && x < |nodes| && level < linked[x]
        invariant x > 0 ==> nodes[x].key < key
        invariant forall l :: level < l < maxHeight ==> IsPredecessor(View(), l, prev[l], key)
        decreases level, Ahead(View(), x)
      {
        var next := nodes[x].next[level];
        assert IsSuccessor(View(), level, x, next);
        NextIsAfter(View(), level, x, next);
        if next.To? && nodes[next.node].key < key {
          x := next.node;
        } else {
          StopsAtPredecessor(View(), level, x, key, next);
          prev := prev[level := x];
          if level == 0 {
            EndOfSearch(View(), key, x, next);
            return next, prev;
          }
          level := level - 1;
        }
      }
    }

    method FindLessThan(key: real) returns (x: nat)
      requires Valid()
      ensures IsLastBefore(View(), key, x)
    {
      hide IsSuccessor, IsFirstFrom, IsLastBefore;
      x := 0;
      var level := maxHeight - 1;
      while true
        invariant 0 <= level < maxHeight && x < |nodes| && level < linked[x]
        invariant x > 0 ==> nodes[x].key < key
        decreases level, Ahead(View(), x)
      {
        var next := nodes[x].next[level];
        assert IsSuccessor(View(), level, x, next);
        NextIsAfter(View(), level, x, next);
        if next.Null? || nodes[next.node].key >= key {
          if level == 0 {
            EndOfSearch(View(), key, x, next);
            return;
          }
          level := level - 1;
        } else {
          x := next.node;
        }
      }
    }

    /** The last node, or the head when the list is empty. */
    method FindLast() returns (x: nat)
      requires Valid()
      ensures x < |nodes| && (x > 0 ==> OnLevel(View(), 0, x))
      ensures forall k :: OnLevel(View(), 0, k) ==> !After(View(), x, k)
    {
      x := 0;
      var level := maxHeight - 1;
      while true
        invariant 0 <= level < maxHeight && x < |nodes| && level < linked[x]
        decreases level, Ahead(View(), x)
      {
        var next := nodes[x].next[level];
        assert IsSuccessor(View(), level, x, next);
        if next.Null? {
          if level == 0 {
            return;
          }
          level := level - 1;
        } else {
          NextIsAfter(View(), level, x, next);
          x := next.node;
        }
      }
    }

    /** Raising the height of the list, and the predecessors on the levels that adds. */
    method Raise(height: nat, prev0: seq<nat>, ghost key: real) returns (prev: seq<nat>, ghost trace: seq<Memory>)
      requires Valid() && 0 < height <= MaxHeight && |prev0| == MaxHeight
      requires Predecessors(View(), prev0, 0, maxHeight, key)
      modifies `maxHeight
      ensures Good(View()) && height <= maxHeight && |prev| == MaxHeight && Keys(View()) == old(Keys(View()))
      ensures maxHeight == if height > old(maxHeight) then height else old(maxHeight)
      ensures Predecessors(View(), prev, 0, height, key) && Stores(trace, old(View()), View(), key)
    {
      hide DistinctKeys, IsSuccessor, Keys, IsPredecessor, Predecessors, Stores;
      ghost var before := View();
      StoresBegin(before, key);
      prev, trace := prev0, [before];
      if height > maxHeight {
        for i := maxHeight to height
          invariant |prev| == MaxHeight
          invariant forall l :: 0 <= l < maxHeight ==> prev[l] == prev0[l]
          invariant forall l :: maxHeight <= l < i ==> prev[l] == 0
        {
          prev := prev[i := 0];
        }
        SetHeightKeepsGood(before, height);
        maxHeight := height;
        StoresGrow(trace, before, before, View(), key);
        trace := trace + [View()];
      }
      MorePredecessors(before, View(), prev0, prev, height, key);
    }

    /**
     Inserts `key` in a node of the given height. `trace` is the memory after each store: all
     of it good, each state grown from the one before, with the new key reachable from one
     store on and never before.
     */
    method Insert(key: real, height: nat) returns (ghost trace: seq<Memory>)
      requires Valid() && key !in Keys(View()) && 0 < height <= MaxHeight
      modifies this
      ensures Valid() && Keys(View()) == old(Keys(View())) + iset{key}
      ensures Stores(trace, old(View()), View(), key)
      ensures maxHeight == if height > old(maxHeight) then height else old(maxHeight)
      ensures |nodes| == |old(nodes)| + 1 && nodes[|old(nodes)|].key == key && |nodes[|old(nodes)|].next| == height
    {
      hide DistinctKeys, IsSuccessor, Keys, IsPredecessor, IsFirstFrom, Predecessors, Stores;
      ghost var before := View();
      var r, prev := FindGreaterOrEqual(key);
      KeyIsNew(before, key);
      prev, trace := Raise(height, prev, key);
      ghost var s0 := View();
      var x := |nodes|;
      NewNodeKeepsGood(s0, key, height);
      nodes := nodes + [Node(key, seq(height, _ => Unset))];
      linked := linked + [0];
      assert View() == NewNode(s0, key, height);
      StoresGrow(trace, before, s0, View(), key);
      SamePredecessors(s0, View(), prev, 0, height, key);
      trace := trace + [View()];
      for i := 0 to height
        invariant Inserting(View(), x, i, key, height, prev, before, trace) && |prev| == MaxHeight
        invariant maxHeight == if height > old(maxHeight) then height else old(maxHeight)
      {
        ghost var s1 := View();
        var p := prev[i];
        LinkStep(s1, x, i, p, key, height, prev, before, trace);
        nodes := nodes[x := nodes[x].(next := nodes[x].next[i := nodes[p].next[i]])];
        trace := trace + [View()];
        nodes := nodes[p := nodes[p].(next := nodes[p].next[i := To(x)])];
        linked := linked[x := i + 1];
        trace := trace + [View()];
      }
    }

    method Contains(key: real) returns (b: bool)
      requires Valid()
      ensures b <==> key in Keys(View())
    {
      var r, prev := FindGreaterOrEqual(key);
      b := r.To? && nodes[r.node].key == key;
      if b {
        assert OnLevel(View(), 0, r.node);
      }
    }
  }

  lemma {:induction false} NextIsAfter(s: Memory, level: nat, x: nat, link: Link)
    requires Heights(s) && x < |s.nodes| && level < s.linked[x] && IsSuccessor(s, level, x, link)
    ensures !link.Unset?
    ensures link.To? ==> IsNode(s, link.node) && s.linked[link.node] > level && After(s, x, link.node)
    ensures link.To? ==> Ahead(s, link.node) < Ahead(s, x)
  {
    if link.To? {
      assert link.node in Ahead(s, x) && link.node !in Ahead(s, link.node);
    }
  }

  ghost function Ahead(s: Memory, x: nat): set<nat>
    requires x < |s.nodes|
  {
    set n: nat | n < |s.nodes| && After(s, x, n)
  }

  lemma {:induction false} StopsAtPredecessor(s: Memory, level: nat, x: nat, key: real, link: Link)
    requires Heights(s) && x < |s.nodes| && level < s.linked[x] && IsSuccessor(s, level, x, link)
    requires (x > 0 ==> s.nodes[x].key < key) && !KeyIsAfter(s, key, link)
    ensures IsPredecessor(s, level, x, key)
  {
    forall k | OnLevel(s, level, k) && s.nodes[k].key < key
      ensures !After(s, x, k)
    {
    }
  }

  // ------------------------------------------------------------------
  // The stores of one insertion.

  /** The memory at each moment of an insertion of `key`, from `before` to `now`. */
  ghost predicate Stores(trace: seq<Memory>, before: Memory, now: Memory, key: real)
  {
    && |trace| > 0 && trace[0] == before && trace[|trace| - 1] == now
    && (forall i :: 0 <= i < |trace| ==> Good(trace[i]) && OldOrNew(trace[i], before, key))
    && (forall i :: 0 <= i < |trace| - 1 ==> Grows(trace[i], trace[i + 1]) && OneStore(trace[i], trace[i + 1]))
  }

  /** The two states differ in the height, in a node not reachable yet, or in one link. */
  ghost predicate OneStore(s: Memory, s': Memory)
  {
    || (s'.nodes == s.nodes && s'.linked == s.linked)
    || (|s'.nodes| == |s.nodes| + 1 && s.nodes <= s'.nodes && s.linked <= s'.linked && s'.maxHeight == s.maxHeight)
    || (s'.maxHeight == s.maxHeight && exists n, l, link :: OneLink(s, s', n, l, link))
  }

  predicate OneLink(s: Memory, s': Memory, n: nat, l: nat, link: Link)
  {
    n < |s.nodes| && l < |s.nodes[n].next| && s'.nodes == SetNext(s, n, l, link).nodes
  }

  /** The reachable keys are those before the insertion or those after it. */
  ghost predicate OldOrNew(s: Memory, before: Memory, key: real)
  {
    && |s.linked| == |s.nodes| && |before.linked| == |before.nodes|
    && (Keys(s) == Keys(before) || Keys(s) == Keys(before) + iset{key})
  }

  /** What holds between the levels of an insertion: `i` levels of node `x` are linked. */
  ghost predicate Inserting(s: Memory, x: nat, i: nat, key: real, height: nat, prev: seq<nat>, before: Memory,
                            trace: seq<Memory>)
  {
    && Good(s) && Stores(trace, before, s, key) && Predecessors(s, prev, i, height, key)
    && IsNode(s, x) && s.linked[x] == i <= height == |s.nodes[x].next| && s.nodes[x].key == key
    && |s.nodes| == x + 1 && (forall n :: 0 <= n < x ==> s.linked[n] == |s.nodes[n].next|)
    && |before.linked| == |before.nodes|
    && Keys(s) == if i == 0 then Keys(before) else Keys(before) + iset{key}
  }

  /** The two stores that link `x` into level `i` after `p`. */
  lemma {:induction false} LinkStep(s: Memory, x: nat, i: nat, p: nat, key: real, height: nat, prev: seq<nat>,
                                    before: Memory, trace: seq<Memory>)
    requires Inserting(s, x, i, key, height, prev, before, trace) && i < height <= MaxHeight && prev[i] == p
    ensures p < |s.nodes| && i < |s.nodes[p].next| && p != x
    ensures var s2 := SetNext(s, x, i, s.nodes[p].next[i]); var s3 := Publish(s2, p, i, x);
      Inserting(s3, x, i + 1, key, height, prev, before, trace + [s2] + [s3])
  {
    hide Good, IsSuccessor, Keys, IsPredecessor, Predecessors, Stores, OneStore;
    HeightsOf(s);
    PredecessorHasLevel(s, prev, i, height, key, x);
    var s2 := SetNext(s, x, i, s.nodes[p].next[i]);
    CopyKeepsGood(s, x, i, s.nodes[p].next[i]);
    LinkIsOneStore(s, s2, x, i, s.nodes[p].next[i]);
    StoresGrow(trace, before, s, s2, key);
    SamePredecessors(s, s2, prev, i, height, key);
    HeightsOf(s2);
    PredecessorHasLevel(s2, prev, i, height, key, x);
    FewerPredecessors(s2, prev, i, height, key);
    var s3 := Publish(s2, p, i, x);
    PublishKeepsGood(s2, p, i, x);
    LinkIsOneStore(s2, s3, p, i, To(x));
    KeysJoin(s, s3, before, i, key);
    StoresGrow(trace + [s2], before, s2, s3, key);
    SamePredecessors(s2, s3, prev, i + 1, height, key);
  }

  lemma {:induction false} HeightsOf(s: Memory)
    requires Good(s)
    ensures Heights(s)
  {
  }

  lemma {:induction false} LinkIsOneStore(s: Memory, s': Memory, n: nat, l: nat, link: Link)
    requires OneLink(s, s', n, l, link) && s'.maxHeight == s.maxHeight
    ensures OneStore(s, s')
  {
  }

  lemma {:induction false} KeysJoin(s: Memory, s': Memory, before: Memory, level: nat, key: real)
    requires |s.linked| == |s.nodes| && |s'.linked| == |s'.nodes| && |before.linked| == |before.nodes|
    requires Keys(s) == if level == 0 then Keys(before) else Keys(before) + iset{key}
    requires Keys(s') == if level == 0 then Keys(s) + iset{key} else Keys(s)
    ensures Keys(s') == Keys(before) + iset{key}
  {
    hide Keys;
  }

  lemma {:induction false} StoresBegin(s: Memory, key: real)
    requires Good(s)
    ensures Stores([s], s, s, key)
  {
  }

  lemma {:induction false} StoresGrow(trace: seq<Memory>, before: Memory, s: Memory, s': Memory, key: real)
    requires Stores(trace, before, s, key) && Good(s') && Grows(s, s') && OneStore(s, s') && OldOrNew(s', before, key)
    ensures Stores(trace + [s'], before, s', key)
  {
    hide Good, Grows, OldOrNew, OneStore;
    var trace' := trace + [s'];
    forall i | 0 <= i < |trace'| - 1
      ensures Grows(trace'[i], trace'[i + 1]) && OneStore(trace'[i], trace'[i + 1])
    {
      assert i < |trace| - 1 ==> trace'[i] == trace[i] && trace'[i + 1] == trace[i + 1];
    }
  }

  /** Inserting keys one after the other; the stores of all of them are what readers may see. */
  method InsertAll(list: List, keys: seq<real>, heights: seq<nat>) returns (ghost traces: seq<seq<Memory>>)
    requires list.Valid() && |keys| == |heights| > 0
    requires forall i :: 0 <= i < |keys| ==> 0 < heights[i] <= MaxHeight && keys[i] !in Keys(list.View())
    requires forall i, j :: 0 <= i < j < |keys| ==> keys[i] != keys[j]
    modifies list
    ensures list.Valid() && Insertions(traces, keys) && traces[0][0] == old(list.View())
    ensures Keys(list.View()) == old(Keys(list.View())) + iset k | k in keys
  {
    hide Stores, DistinctKeys, IsSuccessor, Keys;
    ghost var before := Keys(list.View());
    var trace := list.Insert(keys[0], heights[0]);
    StoresEnds(trace, old(list.View()), list.View(), keys[0]);
    traces := [trace];
    assert keys[..1] == [keys[0]];
    for i := 1 to |keys|
      invariant list.Valid() && Insertions(traces, keys[..i]) && traces[0][0] == old(list.View())
      invariant traces[i - 1][|traces[i - 1]| - 1] == list.View()
      invariant Keys(list.View()) == before + iset k | k in keys[..i]
    {
      ghost var last := list.View();
      var more := list.Insert(keys[i], heights[i]);
      StoresEnds(more, last, list.View(), keys[i]);
      assert Joint(traces[i - 1], more);
      traces := traces + [more];
      assert keys[..i + 1] == keys[..i] + [keys[i]];
    }
    assert keys[..|keys|] == keys;
  }

  lemma {:induction false} StoresEnds(trace: seq<Memory>, before: Memory, now: Memory, key: real)
    requires Stores(trace, before, now, key)
    ensures |trace| > 0 && trace[0] == before && trace[|trace| - 1] == now
  {
  }
}

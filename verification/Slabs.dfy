/**
 memcached's slab allocator with page rebalancing. Commands and maintenance steps are
 atomic. In every state each chunk of a class is free-listed, in use or drained, never two
 of these; a page is handed to another class only once every chunk of it is drained.
 */
module Slabs {
  import opened InternalKeys
  import opened Sequences

  /** A chunk is named by its page and its place in it. */
  datatype Chunk = Chunk(page: nat, index: nat)

  /** A chunk in use has references, is linked in the cache, or both. */
  datatype Use = Free | Drained | InUse(refs: nat, linked: bool)

  datatype SlabClass = SlabClass(size: nat, perslab: nat, slots: seq<Chunk>, slCurr: nat, slabs: seq<nat>, killing: nat)

  datatype Rebalance = Idle | Moving(source: nat, target: nat, page: nat, pos: nat, busyItems: nat, done: bool)

  datatype Memory = Memory(classes: seq<SlabClass>, use: map<Chunk, Use>, owner: map<nat, nat>, rebal: Rebalance)

  // ------------------------------------------------------------------
  // The invariant.

  /** `owner` says which class lists a page, and every page is listed once. */
  ghost predicate PagesInv(classes: seq<SlabClass>, owner: map<nat, nat>)
  {
    && (forall p :: p in owner ==> owner[p] < |classes| && p in classes[owner[p]].slabs)
    && (forall c, i :: 0 <= c < |classes| && 0 <= i < |classes[c].slabs| ==>
          classes[c].slabs[i] in owner && owner[classes[c].slabs[i]] == c)
    && (forall c, i, j :: 0 <= c < |classes| && 0 <= i < j < |classes[c].slabs| ==>
          classes[c].slabs[i] != classes[c].slabs[j])
  }

  /** The chunks are those of the pages, at the chunk size of the owning class. */
  ghost predicate ChunksInv(classes: seq<SlabClass>, use: map<Chunk, Use>, owner: map<nat, nat>)
  {
    && (forall p :: p in owner ==> owner[p] < |classes|)
    && (forall ch :: ch in use <==> ch.page in owner && ch.index < classes[owner[ch.page]].perslab)
    && (forall ch :: ch in use && use[ch].InUse? ==> use[ch].refs > 0 || use[ch].linked)
  }

  /** A class's free list holds its free chunks, each once, and is as long as it says. */
  ghost predicate FreeInv(classes: seq<SlabClass>, use: map<Chunk, Use>, owner: map<nat, nat>)
  {
    && (forall c :: 0 <= c < |classes| ==> classes[c].slCurr == |classes[c].slots|)
    && (forall c, i :: 0 <= c < |classes| && 0 <= i < |classes[c].slots| ==>
          FreeIn(use, owner, classes[c].slots[i], c))
    && (forall c, i, j :: 0 <= c < |classes| && 0 <= i < j < |classes[c].slots| ==>
          classes[c].slots[i] != classes[c].slots[j])
    && (forall ch, c :: FreeIn(use, owner, ch, c) ==> c < |classes| && ch in classes[c].slots)
  }

  predicate FreeIn(use: map<Chunk, Use>, owner: map<nat, nat>, ch: Chunk, c: int)
  {
    ch in use && use[ch].Free? && ch.page in owner && owner[ch.page] == c
  }

  /** Only the page on the move has drained chunks; before the cursor they are all drained unless one was busy. */
  ghost predicate RebalInv(classes: seq<SlabClass>, use: map<Chunk, Use>, rebal: Rebalance)
  {
    && (forall ch :: ch in use && use[ch].Drained? ==> rebal.Moving? && ch.page == rebal.page)
    && (rebal.Moving? ==>
          && rebal.source < |classes| && rebal.target < |classes| && rebal.source != rebal.target
          && |classes[rebal.source].slabs| >= 2 && classes[rebal.source].killing == 1
          && classes[rebal.source].slabs[0] == rebal.page && rebal.pos <= classes[rebal.source].perslab
          && (rebal.busyItems == 0 ==> DrainedUpTo(use, rebal.page, rebal.pos))
          && (rebal.done ==> rebal.busyItems == 0 && rebal.pos == classes[rebal.source].perslab))
  }

  ghost predicate DrainedUpTo(use: map<Chunk, Use>, page: nat, n: nat)
  {
    forall i :: 0 <= i < n ==> Chunk(page, i) in use && use[Chunk(page, i)].Drained?
  }

  ghost predicate Inv(m: Memory)
  {
    && PagesInv(m.classes, m.owner) && ChunksInv(m.classes, m.use, m.owner)
    && FreeInv(m.classes, m.use, m.owner) && RebalInv(m.classes, m.use, m.rebal)
  }

  /** Each chunk of a class is exactly one of free-listed, in use, drained. */
  lemma {:induction false} EachChunkOnce(m: Memory, ch: Chunk)
    requires Inv(m) && ch in m.use
    ensures ch.page in m.owner && m.owner[ch.page] < |m.classes|
    ensures var listed := ch in m.classes[m.owner[ch.page]].slots;
      (listed <==> m.use[ch].Free?) && (m.use[ch].InUse? || m.use[ch].Drained? <==> !listed)
  {
    hide PagesInv, RebalInv;
    var c := m.owner[ch.page];
    if ch in m.classes[c].slots {
      var i :| 0 <= i < |m.classes[c].slots| && m.classes[c].slots[i] == ch;
      assert FreeIn(m.use, m.owner, m.classes[c].slots[i], c);
    }
    assert m.use[ch].Free? ==> FreeIn(m.use, m.owner, ch, c);
  }

  // ------------------------------------------------------------------
  // Taking from and giving to a free list.

  function WithSlots(m: Memory, c: nat, slots: seq<Chunk>): seq<SlabClass>
    requires c < |m.classes|
  {
    m.classes[c := m.classes[c].(slots := slots, slCurr := |slots|)]
  }

  /** The chunk at the head of the class's free list. */
  function Pushed(classes: seq<SlabClass>, c: nat, ch: Chunk): seq<SlabClass>
    requires c < |classes|
  {
    classes[c := classes[c].(slots := [ch] + classes[c].slots, slCurr := classes[c].slCurr + 1)]
  }

  /** Free lists and chunk states after one chunk of class `c` changes hands. */
  lemma {:induction false} SlotsChange(m: Memory, c: nat, slots: seq<Chunk>, ch: Chunk, u: Use)
    requires Inv(m) && c < |m.classes| && ch in m.use && ch.page in m.owner && m.owner[ch.page] == c
    requires u.InUse? ==> u.refs > 0 || u.linked
    requires u.Drained? ==> m.rebal.Moving? && m.rebal.page == ch.page
    requires m.use[ch].Drained? ==> u.Drained?
    requires forall i, j :: 0 <= i < j < |slots| ==> slots[i] != slots[j]
    requires forall x :: x in slots <==> (x == ch && u.Free?) || (x != ch && x in m.classes[c].slots)
    ensures Inv(m.(classes := WithSlots(m, c, slots), use := m.use[ch := u]))
  {
    hide PagesInv, FreeInv, RebalInv;
    SlotsKeepPages(m, c, slots);
    SlotsKeepFree(m, c, slots, ch, u);
    SlotsKeepRebal(m, c, slots, ch, u);
  }

  lemma {:induction false} SlotsKeepRebal(m: Memory, c: nat, slots: seq<Chunk>, ch: Chunk, u: Use)
    requires RebalInv(m.classes, m.use, m.rebal) && c < |m.classes|
    requires u.Drained? ==> m.rebal.Moving? && m.rebal.page == ch.page
    requires ch in m.use && m.use[ch].Drained? ==> u.Drained?
    ensures RebalInv(WithSlots(m, c, slots), m.use[ch := u], m.rebal)
  {
    var use' := m.use[ch := u];
    if m.rebal.Moving? && m.rebal.busyItems == 0 {
      forall i | 0 <= i < m.rebal.pos
        ensures Chunk(m.rebal.page, i) in use' && use'[Chunk(m.rebal.page, i)].Drained?
      {
        assert DrainedUpTo(m.use, m.rebal.page, m.rebal.pos);
        assert m.use[Chunk(m.rebal.page, i)].Drained?;
      }
    }
  }

  lemma {:induction false} SlotsKeepPages(m: Memory, c: nat, slots: seq<Chunk>)
    requires PagesInv(m.classes, m.owner) && c < |m.classes|
    ensures PagesInv(WithSlots(m, c, slots), m.owner)
  {
    assert forall d :: 0 <= d < |m.classes| ==> WithSlots(m, c, slots)[d].slabs == m.classes[d].slabs;
  }

  lemma {:induction false} SlotsKeepFree(m: Memory, c: nat, slots: seq<Chunk>, ch: Chunk, u: Use)
    requires FreeInv(m.classes, m.use, m.owner)
    requires c < |m.classes| && ch in m.use && ch.page in m.owner && m.owner[ch.page] == c
    requires forall i, j :: 0 <= i < j < |slots| ==> slots[i] != slots[j]
    requires forall x :: x in slots <==> (x == ch && u.Free?) || (x != ch && x in m.classes[c].slots)
    ensures FreeInv(WithSlots(m, c, slots), m.use[ch := u], m.owner)
  {
    var classes', use' := WithSlots(m, c, slots), m.use[ch := u];
    forall d, i | 0 <= d < |classes'| && 0 <= i < |classes'[d].slots|
      ensures FreeIn(use', m.owner, classes'[d].slots[i], d)
    {
      var x := classes'[d].slots[i];
      if d == c {
        assert x in slots;
        if x != ch {
          var j :| 0 <= j < |m.classes[c].slots| && m.classes[c].slots[j] == x;
          assert FreeIn(m.use, m.owner, m.classes[c].slots[j], c);
        }
      } else {
        assert FreeIn(m.use, m.owner, m.classes[d].slots[i], d);
      }
    }
    forall x, d | FreeIn(use', m.owner, x, d)
      ensures d < |classes'| && x in classes'[d].slots
    {
      assert x != ch ==> FreeIn(m.use, m.owner, x, d);
    }
  }

  // ------------------------------------------------------------------
  // Pages.

  /** The chunks of a page in the order in which splitting it leaves them on the free list. */
  function PageChunks(page: nat, n: nat): (r: seq<Chunk>)
    ensures |r| == n
  {
    if n == 0 then [] else [Chunk(page, n - 1)] + PageChunks(page, n - 1)
  }

  lemma {:induction false} PageChunkAt(page: nat, n: nat, i: nat)
    requires i < n
    ensures PageChunks(page, n)[i] == Chunk(page, n - 1 - i)
  {
    if i > 0 {
      PageChunkAt(page, n - 1, i - 1);
    }
  }

  function AllFree(page: nat, n: nat): map<Chunk, Use>
  {
    map i: nat | i < n :: Chunk(page, i) := Free
  }

  /** A page nobody has, given to class `c` and split. */
  function WithPage(m: Memory, c: nat, page: nat): Memory
    requires c < |m.classes|
  {
    var k := m.classes[c];
    var slots := PageChunks(page, k.perslab) + k.slots;
    m.(classes := m.classes[c := k.(slots := slots, slCurr := |slots|, slabs := k.slabs + [page])],
       use := m.use + AllFree(page, k.perslab), owner := m.owner[page := c])
  }

  lemma {:induction false} AddPageKeepsInv(m: Memory, c: nat, page: nat)
    requires Inv(m) && c < |m.classes| && page !in m.owner
    ensures Inv(WithPage(m, c, page))
  {
    hide PagesInv, ChunksInv, FreeInv, RebalInv, WithPage;
    AddPagePages(m, c, page);
    AddPageChunks(m, c, page);
    AddPageFree(m, c, page);
    AddPageRebal(m, c, page);
  }

  lemma {:induction false} AddPageChunks(m: Memory, c: nat, page: nat)
    requires ChunksInv(m.classes, m.use, m.owner) && c < |m.classes| && page !in m.owner
    ensures var m' := WithPage(m, c, page); ChunksInv(m'.classes, m'.use, m'.owner)
  {
    hide AllFree, PageChunks;
    var m' := WithPage(m, c, page);
    forall ch: Chunk
      ensures ch in m'.use <==> ch.page in m'.owner && ch.index < m'.classes[m'.owner[ch.page]].perslab
      ensures ch in m'.use && m'.use[ch].InUse? ==> m'.use[ch].refs > 0 || m'.use[ch].linked
    {
      InAllFree(page, m.classes[c].perslab, ch);
    }
  }

  lemma {:induction false} AddPageRebal(m: Memory, c: nat, page: nat)
    requires Inv(m) && c < |m.classes| && page !in m.owner
    ensures var m' := WithPage(m, c, page); RebalInv(m'.classes, m'.use, m'.rebal)
  {
    hide PagesInv, ChunksInv, FreeInv, AllFree, PageChunks;
    var m' := WithPage(m, c, page);
    forall ch | ch in m'.use
      ensures m'.use[ch].Drained? ==> m'.rebal.Moving? && ch.page == m'.rebal.page
    {
      InAllFree(page, m.classes[c].perslab, ch);
    }
    if m.rebal.Moving? {
      MovingPageOwned(m);
      forall i | 0 <= i < m.rebal.pos
        ensures m.rebal.busyItems == 0 ==>
          Chunk(m.rebal.page, i) in m'.use && m'.use[Chunk(m.rebal.page, i)].Drained?
      {
        InAllFree(page, m.classes[c].perslab, Chunk(m.rebal.page, i));
        assert m.rebal.busyItems == 0 ==> DrainedUpTo(m.use, m.rebal.page, m.rebal.pos);
      }
    }
  }

  lemma {:induction false} MovingPageOwned(m: Memory)
    requires Inv(m) && m.rebal.Moving?
    ensures m.rebal.page in m.owner && m.owner[m.rebal.page] == m.rebal.source
  {
    assert m.classes[m.rebal.source].slabs[0] == m.rebal.page;
  }

  lemma {:induction false} InAllFree(page: nat, n: nat, ch: Chunk)
    ensures ch in AllFree(page, n) <==> ch.page == page && ch.index < n
    ensures ch in AllFree(page, n) ==> AllFree(page, n)[ch] == Free
  {
    if ch.page == page && ch.index < n {
      assert ch == Chunk(page, ch.index);
    }
  }

  lemma {:induction false} AddPagePages(m: Memory, c: nat, page: nat)
    requires PagesInv(m.classes, m.owner) && c < |m.classes| && page !in m.owner
    ensures var m' := WithPage(m, c, page); PagesInv(m'.classes, m'.owner)
  {
    var m' := WithPage(m, c, page);
    assert page in m'.classes[c].slabs by {
      assert m'.classes[c].slabs[|m.classes[c].slabs|] == page;
    }
    forall p | p in m'.owner
      ensures m'.owner[p] < |m'.classes| && p in m'.classes[m'.owner[p]].slabs
    {
    }
    forall d, i | 0 <= d < |m'.classes| && 0 <= i < |m'.classes[d].slabs|
      ensures m'.classes[d].slabs[i] in m'.owner && m'.owner[m'.classes[d].slabs[i]] == d
    {
      if !(d == c && i == |m.classes[c].slabs|) {
        assert m'.classes[d].slabs[i] == m.classes[d].slabs[i];
      }
    }
  }

  lemma {:induction false} AddPageFree(m: Memory, c: nat, page: nat)
    requires ChunksInv(m.classes, m.use, m.owner) && FreeInv(m.classes, m.use, m.owner)
    requires c < |m.classes| && page !in m.owner
    ensures var m' := WithPage(m, c, page); FreeInv(m'.classes, m'.use, m'.owner)
  {
    hide AllFree, PageChunks, ChunksInv, WithPage;
    var m' := WithPage(m, c, page);
    SameOthers(m, c, page);
    forall d, i | 0 <= d < |m'.classes| && 0 <= i < |m'.classes[d].slots|
      ensures FreeIn(m'.use, m'.owner, m'.classes[d].slots[i], d)
    {
      ListedIsFree(m, c, page, d, i);
    }
    forall d, i, j | 0 <= d < |m'.classes| && 0 <= i < j < |m'.classes[d].slots|
      ensures m'.classes[d].slots[i] != m'.classes[d].slots[j]
    {
      NoTwice(m, c, page, d, i, j);
    }
    forall ch, d | FreeIn(m'.use, m'.owner, ch, d)
      ensures d < |m'.classes| && ch in m'.classes[d].slots
    {
      FreeIsListed(m, c, page, ch, d);
    }
  }

  lemma {:induction false} SameOthers(m: Memory, c: nat, page: nat)
    requires FreeInv(m.classes, m.use, m.owner) && c < |m.classes|
    ensures var m' := WithPage(m, c, page);
      |m'.classes| == |m.classes| && forall d :: 0 <= d < |m.classes| ==> m'.classes[d].slCurr == |m'.classes[d].slots|
  {
  }

  lemma {:induction false} ListedIsFree(m: Memory, c: nat, page: nat, d: nat, i: nat)
    requires ChunksInv(m.classes, m.use, m.owner) && FreeInv(m.classes, m.use, m.owner)
    requires c < |m.classes| && page !in m.owner && d < |m.classes| && i < |WithPage(m, c, page).classes[d].slots|
    ensures var m' := WithPage(m, c, page); FreeIn(m'.use, m'.owner, m'.classes[d].slots[i], d)
  {
    hide AllFree, PageChunks;
    var m', n := WithPage(m, c, page), m.classes[c].perslab;
    if d == c && i < n {
      PageChunkAt(page, n, i);
      InAllFree(page, n, m'.classes[d].slots[i]);
    } else {
      var j := if d == c then i - n else i;
      assert m'.classes[d].slots[i] == m.classes[d].slots[j];
      assert FreeIn(m.use, m.owner, m.classes[d].slots[j], d);
      InAllFree(page, n, m.classes[d].slots[j]);
    }
  }

  lemma {:induction false} FreeIsListed(m: Memory, c: nat, page: nat, ch: Chunk, d: int)
    requires ChunksInv(m.classes, m.use, m.owner) && FreeInv(m.classes, m.use, m.owner)
    requires c < |m.classes| && page !in m.owner
    requires var m' := WithPage(m, c, page); FreeIn(m'.use, m'.owner, ch, d)
    ensures 0 <= d < |m.classes| && ch in WithPage(m, c, page).classes[d].slots
  {
    hide AllFree, PageChunks;
    var m', n := WithPage(m, c, page), m.classes[c].perslab;
    InAllFree(page, n, ch);
    if ch in AllFree(page, n) {
      PageChunkAt(page, n, n - 1 - ch.index);
      assert m'.classes[c].slots[n - 1 - ch.index] == ch;
    } else {
      assert FreeIn(m.use, m.owner, ch, d);
      var i :| 0 <= i < |m.classes[d].slots| && m.classes[d].slots[i] == ch;
      assert m'.classes[d].slots[if d == c then i + n else i] == ch;
    }
  }

  lemma {:induction false} NoTwice(m: Memory, c: nat, page: nat, d: nat, i: nat, j: nat)
    requires ChunksInv(m.classes, m.use, m.owner) && FreeInv(m.classes, m.use, m.owner)
    requires c < |m.classes| && page !in m.owner
    requires d < |m.classes| && i < j < |WithPage(m, c, page).classes[d].slots|
    ensures WithPage(m, c, page).classes[d].slots[i] != WithPage(m, c, page).classes[d].slots[j]
  {
    var m', n := WithPage(m, c, page), m.classes[c].perslab;
    if d == c && i < n {
      PageChunkAt(page, n, i);
      if j < n {
        PageChunkAt(page, n, j);
      } else {
        assert FreeIn(m.use, m.owner, m.classes[c].slots[j - n], c);
      }
    } else {
      var k, l := if d == c then i - n else i, if d == c then j - n else j;
      assert m'.classes[d].slots[i] == m.classes[d].slots[k] && m'.classes[d].slots[j] == m.classes[d].slots[l];
    }
  }

  /** The page on the move taken from its class, its place filled by the class's last page. */
  function WithoutPage(m: Memory): Memory
    requires m.rebal.Moving? && m.rebal.source < |m.classes| && |m.classes[m.rebal.source].slabs| > 0
  {
    var k := m.classes[m.rebal.source];
    var n := |k.slabs| - 1;
    m.(classes := m.classes[m.rebal.source := k.(slabs := k.slabs[0 := k.slabs[n]][..n], killing := 0)],
       use := map ch | ch in m.use && ch.page != m.rebal.page :: m.use[ch],
       owner := m.owner - {m.rebal.page}, rebal := Idle)
  }

  lemma {:induction false} RemovePageKeepsInv(m: Memory)
    requires Inv(m) && m.rebal.Moving? && m.rebal.done
    ensures Inv(WithoutPage(m)) && m.rebal.page !in WithoutPage(m).owner
    ensures forall ch :: ch in m.use && ch.page == m.rebal.page ==> m.use[ch].Drained?
  {
    var m', page := WithoutPage(m), m.rebal.page;
    MovingPageOwned(m);
    RemovePagePages(m);
    assert DrainedUpTo(m.use, page, m.rebal.pos);
    forall ch | ch in m.use && ch.page == page
      ensures m.use[ch].Drained?
    {
      assert ch == Chunk(page, ch.index);
    }
    RemovePageFree(m);
    hide PagesInv, FreeInv;
  }

  lemma {:induction false} RemovePagePages(m: Memory)
    requires Inv(m) && m.rebal.Moving?
    ensures var m' := WithoutPage(m); PagesInv(m'.classes, m'.owner)
  {
    hide ChunksInv, FreeInv;
    MovingPageOwned(m);
    var m', s := WithoutPage(m), m.rebal.source;
    var before, after := m.classes[s].slabs, m'.classes[s].slabs;
    forall i | 0 <= i < |after|
      ensures after[i] == before[if i == 0 then |before| - 1 else i]
    {
    }
    forall p | p in m'.owner
      ensures m'.owner[p] < |m'.classes| && p in m'.classes[m'.owner[p]].slabs
    {
      if m.owner[p] == s {
        var i :| 0 <= i < |before| && before[i] == p;
        assert after[if i == |before| - 1 then 0 else i] == p;
      }
    }
    forall d, i | 0 <= d < |m'.classes| && 0 <= i < |m'.classes[d].slabs|
      ensures m'.classes[d].slabs[i] in m'.owner && m'.owner[m'.classes[d].slabs[i]] == d
    {
      if d == s {
        assert before[if i == 0 then |before| - 1 else i] != before[0];
      } else {
        assert m.classes[d].slabs[i] in m.owner;
      }
    }
  }

  lemma {:induction false} RemovePageFree(m: Memory)
    requires Inv(m) && m.rebal.Moving?
    requires forall ch :: ch in m.use && ch.page == m.rebal.page ==> m.use[ch].Drained?
    ensures var m' := WithoutPage(m); FreeInv(m'.classes, m'.use, m'.owner)
  {
    hide PagesInv, ChunksInv;
    var m' := WithoutPage(m);
    assert forall c :: 0 <= c < |m.classes| ==> m'.classes[c].slots == m.classes[c].slots;
    forall c, i | 0 <= c < |m'.classes| && 0 <= i < |m'.classes[c].slots|
      ensures FreeIn(m'.use, m'.owner, m'.classes[c].slots[i], c)
    {
      assert FreeIn(m.use, m.owner, m.classes[c].slots[i], c);
    }
    forall ch, c | FreeIn(m'.use, m'.owner, ch, c)
      ensures c < |m'.classes| && ch in m'.classes[c].slots
    {
      assert FreeIn(m.use, m.owner, ch, c);
    }
  }

  // ------------------------------------------------------------------
  // The cursor of the mover.

  /** A chunk the mover cannot drain now: locked, or referred to by more than its link. */
  predicate Busy(u: Use, locked: bool)
  {
    !u.Drained? && (locked || (u.InUse? && (u.refs > 0 || !u.linked)))
  }

  /** The chunks from `from` to before `to` that the mover finds busy. */
  function BusyCount(use: map<Chunk, Use>, page: nat, from: nat, to: nat, locked: Chunk -> bool): nat
    decreases to
  {
    if to <= from then 0
    else
      var ch := Chunk(page, to - 1);
      BusyCount(use, page, from, to - 1, locked) +
      if ch in use && !use[ch].Drained? && (locked(ch) || (use[ch].InUse? && use[ch] != InUse(0, true))) then 1 else 0
  }

  lemma {:induction false} NoneVisited(use: map<Chunk, Use>, page: nat, from: nat, locked: Chunk -> bool)
    ensures BusyCount(use, page, from, from, locked) == 0
  {
  }

  lemma {:induction false} OneVisited(use: map<Chunk, Use>, page: nat, from: nat, i: nat, locked: Chunk -> bool)
    requires from <= i
    ensures var ch := Chunk(page, i);
      BusyCount(use, page, from, i + 1, locked) == BusyCount(use, page, from, i, locked) +
        if ch in use && !use[ch].Drained? && (locked(ch) || (use[ch].InUse? && use[ch] != InUse(0, true))) then 1 else 0
  {
  }

  predicate SameUse(use: map<Chunk, Use>, before: map<Chunk, Use>, ch: Chunk)
  {
    (ch in use <==> ch in before) && (ch in use ==> use[ch] == before[ch])
  }

  function Advanced(r: Rebalance, busy: bool): Rebalance
    requires r.Moving?
  {
    r.(pos := r.pos + 1, busyItems := r.busyItems + if busy then 1 else 0)
  }

  /** Only the free list of one class may have changed. */
  ghost predicate SameButSlots(classes: seq<SlabClass>, before: seq<SlabClass>, s: nat)
  {
    && |classes| == |before| && s < |classes| && (forall c :: 0 <= c < |classes| && c != s ==> classes[c] == before[c])
    && classes[s].(slots := [], slCurr := 0) == before[s].(slots := [], slCurr := 0)
  }

  // ------------------------------------------------------------------
  // Allocation.

  predicate HasFree(m: Memory, c: nat)
  {
    c < |m.classes| && m.classes[c].slots != []
  }

  /** The class has a free chunk now, or has been given the page that the system could spare. */
  function Stocked(m: Memory, c: nat, memory: Option<nat>): Memory
  {
    if c < |m.classes| && m.classes[c].slots == [] && memory.Some? then WithPage(m, c, memory.value) else m
  }

  /** The chunk at the head of the free list goes to a caller, who holds the only reference. */
  function HeadTaken(m: Memory, c: nat): Memory
    requires HasFree(m, c)
  {
    var slots := m.classes[c].slots;
    m.(classes := WithSlots(m, c, slots[1..]), use := m.use[slots[0] := InUse(1, false)])
  }

  // ------------------------------------------------------------------
  // Counting pages.

  function PageCount(classes: seq<SlabClass>): nat
  {
    if classes == [] then 0 else PageCount(classes[..|classes| - 1]) + |classes[|classes| - 1].slabs|
  }

  lemma {:induction false} CountChange(classes: seq<SlabClass>, c: nat, k: SlabClass)
    requires c < |classes|
    ensures PageCount(classes[c := k]) == PageCount(classes) - |classes[c].slabs| + |k.slabs|
  {
    var n := |classes| - 1;
    if c < n {
      CountChange(classes[..n], c, k);
      assert classes[c := k][..n] == classes[..n][c := k];
    } else {
      assert classes[c := k][..n] == classes[..n];
    }
  }

  // ------------------------------------------------------------------
  // The allocator.

  class Allocator {
    var classes: seq<SlabClass>
    var use: map<Chunk, Use>
    ghost var owner: map<nat, nat>
    var rebal: Rebalance
    // Bytes allotted and allowed, 0 for no bound, and the size of all pages if they can be moved.
    var memMalloced: nat
    const memLimit: nat
    const pageSize: Option<nat>

    ghost function View(): Memory
      reads this
    {
      Memory(classes, use, owner, rebal)
    }

    ghost predicate Valid()
      reads this
    {
      && Inv(View()) && (forall c :: 0 <= c < |classes| ==> classes[c].perslab > 0)
      && (pageSize.Some? ==> memMalloced == PageCount(classes) * pageSize.value)
    }

    /** What a new page of the class takes. */
    function PageBytes(id: nat): nat
      requires id < |classes|
      reads this
    {
      if pageSize.Some? then pageSize.value else classes[id].size * classes[id].perslab
    }

    /** The class may have a page: the limit allows it, or it has none yet. */
    predicate Allowed(id: nat)
      requires id < |classes|
      reads this
    {
      memLimit == 0 || memMalloced + PageBytes(id) <= memLimit || classes[id].slabs == []
    }

    /** The page the class may have, if there is one. */
    function Granted(id: nat, memory: Option<nat>): Option<nat>
      reads this
    {
      if id < |classes| && Allowed(id) then memory else None
    }

    /** Classes with no pages yet. */
    constructor (sizes: seq<(nat, nat)>, limit: nat, pageSize: Option<nat>)
      requires forall c :: 0 <= c < |sizes| ==> sizes[c].1 > 0
      ensures Valid() && PageCount(classes) == 0 && rebal.Idle? && memMalloced == 0
      ensures memLimit == limit && this.pageSize == pageSize
    {
      memMalloced, memLimit, this.pageSize := 0, limit, pageSize;
      classes := seq(|sizes|, c requires 0 <= c < |sizes| => SlabClass(sizes[c].0, sizes[c].1, [], 0, [], 0));
      use, owner, rebal := map[], map[], Idle;
      new;
      NoPages(classes);
    }

    /** The smallest class that fits, counting from class 1; 0 if none does. */
    method ClsId(size: nat) returns (r: nat)
      requires |classes| > 1
      ensures size == 0 ==> r == 0
      ensures size > 0 && r == 0 ==> forall c :: 1 <= c < |classes| ==> classes[c].size < size
      ensures r > 0 ==> r < |classes| && size <= classes[r].size && forall c :: 1 <= c < r ==> classes[c].size < size
    {
      if size == 0 {
        return 0;
      }
      r := 1;
      while size > classes[r].size
        invariant 1 <= r < |classes| && forall c :: 1 <= c < r ==> classes[c].size < size
        decreases |classes| - r
      {
        if r == |classes| - 1 {
          return 0;
        }
        r := r + 1;
      }
    }

    /** Cuts a page into chunks for class `id`, each put at the head of its free list. */
    method SplitPage(page: nat, id: nat)
      requires id < |classes| && classes[id].slCurr == |classes[id].slots|
      modifies `classes, `use
      ensures var k := old(classes)[id];
        classes == old(classes)[id := k.(slots := PageChunks(page, k.perslab) + k.slots, slCurr := k.slCurr + k.perslab)]
      ensures use == old(use) + AllFree(page, old(classes)[id].perslab)
    {
      hide AllFree, PageChunks;
      ghost var start, k0 := use, classes[id];
      var k := classes[id];
      var x := 0;
      SplitBegins(page, k.slots, use);
      while x < k.perslab
        invariant x <= k0.perslab && id < |classes| && classes == old(classes)[id := k]
        invariant k == k0.(slots := PageChunks(page, x) + k0.slots, slCurr := k0.slCurr + x)
        invariant use == start + AllFree(page, x)
      {
        SplitStep(page, x, k0.slots, start);
        k := k.(slots := [Chunk(page, x)] + k.slots, slCurr := k.slCurr + 1);
        classes := classes[id := k];
        use := use[Chunk(page, x) := Free];
        x := x + 1;
      }
    }

    /** A new page from the system, if it has one. */
    method NewSlab(id: nat, memory: Option<nat>) returns (ok: bool)
      requires Valid() && id < |classes| && (memory.Some? ==> memory.value !in owner)
      modifies this
      ensures Valid() && ok == old(Granted(id, memory)).Some? && rebal == old(rebal)
      ensures View() == if ok then WithPage(old(View()), id, memory.value) else old(View())
      ensures memMalloced == old(memMalloced) + if ok then old(PageBytes(id)) else 0
    {
      hide Inv, PageCount;
      if memLimit != 0 && memMalloced + PageBytes(id) > memLimit && |classes[id].slabs| > 0 {
        return false;
      }
      if memory.None? {
        return false;
      }
      AddPageKeepsInv(View(), id, memory.value);
      ghost var bytes := PageBytes(id);
      memMalloced := memMalloced + PageBytes(id);
      CurrIsLength(View(), id);
      SplitPage(memory.value, id);
      classes := classes[id := classes[id].(slabs := classes[id].slabs + [memory.value])];
      owner := owner[memory.value := id];
      assert classes == WithPage(old(View()), id, memory.value).classes;
      CountChange(old(classes), id, classes[id]);
      assert classes == old(classes)[id := classes[id]];
      ok := true;
    }

    /** A free chunk of the class, from its list or from a new page. */
    method Alloc(id: nat, memory: Option<nat>) returns (r: Option<Chunk>)
      requires Valid() && (memory.Some? ==> memory.value !in owner)
      modifies this
      ensures Valid() && (r.None? ==> View() == old(View()) && memMalloced == old(memMalloced))
      ensures r.None? <==> !(1 <= id < |old(classes)|) || (old(classes)[id].slots == [] && old(Granted(id, memory)).None?)
      ensures r.Some? ==> (r.value in old(use) ==> old(use)[r.value].Free?)
      ensures r.Some? ==> HasFree(Stocked(old(View()), id, old(Granted(id, memory))), id)
      ensures r.Some? ==> r.value == Stocked(old(View()), id, old(Granted(id, memory))).classes[id].slots[0]
      ensures r.Some? ==> View() == HeadTaken(Stocked(old(View()), id, old(Granted(id, memory))), id)
      ensures r.Some? ==> use[r.value] == InUse(1, false) && r.value.page in owner && owner[r.value.page] == id
      ensures r.Some? ==> forall ch :: ch in old(use) && ch != r.value ==> ch in use && use[ch] == old(use)[ch]
    {
      hide Inv, AllFree, PageChunks, PageCount;
      if id < 1 || id >= |classes| {
        return None;
      }
      CurrIsLength(View(), id);
      if classes[id].slCurr == 0 {
        var ok := NewSlab(id, memory);
        if !ok {
          return None;
        }
        CurrIsLength(View(), id);
      }
      var ch := classes[id].slots[0];
      HeadIsFree(View(), id);
      TakeHead(View(), id);
      FreshOrFree(old(View()), View(), id, memory, ch);
      CountChange(classes, id, classes[id].(slots := classes[id].slots[1..], slCurr := classes[id].slCurr - 1));
      classes := classes[id := classes[id].(slots := classes[id].slots[1..], slCurr := classes[id].slCurr - 1)];
      use := use[ch := InUse(1, false)];
      r := Some(ch);
    }

    /** References and links come and go; the last one gives the chunk back to its class. */
    method Adjust(ch: Chunk, refs: nat, linked: bool)
      requires Valid() && ch in use && use[ch].InUse?
      modifies this
      ensures Valid() && rebal == old(rebal) && PageCount(classes) == old(PageCount(classes))
      ensures use == old(use)[ch := if refs > 0 || linked then InUse(refs, linked) else Free] && owner == old(owner)
      ensures ch.page in owner && owner[ch.page] < |old(classes)|
      ensures classes == if refs > 0 || linked then old(classes) else Pushed(old(classes), owner[ch.page], ch)
    {
      hide Inv;
      EachChunkOnce(View(), ch);
      ghost var c := owner[ch.page];
      if refs > 0 || linked {
        InUseChange(View(), ch, refs, linked);
        use := use[ch := InUse(refs, linked)];
      } else {
        GiveBack(View(), ch);
        CurrIsLength(View(), c);
        ghost var k := classes[c];
        CountChange(classes, c, k.(slots := [ch] + k.slots, slCurr := k.slCurr + 1));
        var id := ClassOf(ch);
        classes := classes[id := classes[id].(slots := [ch] + classes[id].slots, slCurr := classes[id].slCurr + 1)];
        use := use[ch := Free];
      }
    }

    /** Starts taking the first page of class `s` for class `d`; an error code if that cannot be. */
    method RebalanceStart(s: nat, d: nat, room: bool) returns (code: int)
      requires Valid() && rebal.Idle?
      modifies this
      ensures Valid()
      ensures code == 0 <==>
              1 <= s < |old(classes)| && 1 <= d < |old(classes)| && s != d && room && |old(classes)[s].slabs| >= 2
      ensures code == 0 ==> rebal == Moving(s, d, old(classes)[s].slabs[0], 0, 0, false)
      ensures use == old(use) && owner == old(owner)
      ensures code == 0 ==> classes == old(classes)[s := old(classes)[s].(killing := 1)]
      ensures code != 0 ==> View() == old(View())
      ensures code != 0 ==> code == if s < |classes| && |classes[s].slabs| < 2 then -3 else if !room then -1 else -2
    {
      hide PagesInv, ChunksInv, FreeInv, PageCount;
      code := 0;
      if s < 1 || s >= |classes| || d < 1 || d >= |classes| || s == d {
        code := -2;
      }
      if !room {
        code := -1;
      }
      if s < |classes| && |classes[s].slabs| < 2 {
        code := -3;
      }
      if code != 0 {
        return;
      }
      KillingKeeps(View(), s, 1);
      CountChange(classes, s, classes[s].(killing := 1));
      classes := classes[s := classes[s].(killing := 1)];
      rebal := Moving(s, d, classes[s].slabs[0], 0, 0, false);
    }

    /** Takes the chunk under the cursor off the free list, wherever in the list it is. */
    method Unlist(ch: Chunk)
      requires Valid() && rebal.Moving? && rebal.pos < classes[rebal.source].perslab
      requires ch == Chunk(rebal.page, rebal.pos) && ch in classes[rebal.source].slots
      modifies `classes, `use
      ensures Valid() && PageCount(classes) == old(PageCount(classes)) && use == old(use)[ch := Drained]
      ensures SameButSlots(classes, old(classes), rebal.source)
    {
      hide Inv;
      ghost var m := View();
      SourceIsClass(m);
      var k := classes[rebal.source];
      var i :| 0 <= i < |k.slots| && k.slots[i] == ch;
      DrainFree(m, i);
      CurrIsLength(m, rebal.source);
      var k' := k.(slots := k.slots[..i] + k.slots[i + 1..], slCurr := k.slCurr - 1);
      CountChange(classes, rebal.source, k');
      classes := classes[rebal.source := k'];
      use := use[ch := Drained];
    }

    /** What one visit of the cursor does to a chunk: drained, or found busy. */
    method MoveOne(locked: bool) returns (busy: bool)
      requires Valid() && rebal.Moving? && !rebal.done && rebal.pos < classes[rebal.source].perslab
      modifies this
      ensures Valid() && rebal == Advanced(old(rebal), busy) && owner == old(owner)
      ensures SameButSlots(classes, old(classes), rebal.source) && PageCount(classes) == old(PageCount(classes))
      ensures busy ==> use == old(use) && classes == old(classes)
      ensures !busy ==> use == old(use)[Chunk(rebal.page, old(rebal).pos) := Drained]
      ensures var ch := Chunk(rebal.page, old(rebal).pos);
        && ch in old(use) && (busy <==> Busy(old(use)[ch], locked))
        && (busy <==> !old(use)[ch].Drained? && (locked || (old(use)[ch].InUse? && old(use)[ch] != InUse(0, true))))
    {
      hide PagesInv, ChunksInv, FreeInv;
      var ch := Chunk(rebal.page, rebal.pos);
      CursorChunk(View());
      busy := false;
      if !use[ch].Drained? {
        if locked {
          busy := true;
        } else {
          match use[ch] {
            case Free =>
              Unlist(ch);
            case InUse(refs, linked) =>
              // The mover's own reference makes two when only the link holds the item.
              if refs == 0 && linked {
                DrainLinked(View(), ch);
                use := use[ch := Drained];
              } else {
                busy := true;
              }
          }
        }
      }
      CursorAdvances(View(), busy);
      rebal := Advanced(rebal, busy);
    }

    /** One call of the mover: up to `bulk` chunks, and at the page's end another round or the report that it is done. */
    method RebalanceMove(bulk: nat, locked: Chunk -> bool) returns (wasBusy: nat)
      requires Valid() && rebal.Moving? && !rebal.done && rebal.pos < classes[rebal.source].perslab
      modifies this
      ensures Valid() && rebal.Moving? && rebal.page == old(rebal).page && PageCount(classes) == old(PageCount(classes))
      ensures rebal.source == old(rebal).source && rebal.target == old(rebal).target
      ensures !rebal.done ==> rebal.pos < classes[rebal.source].perslab
      ensures rebal.done ==> DrainedUpTo(use, rebal.page, classes[rebal.source].perslab)
      ensures var n, p := old(classes)[rebal.source].perslab, old(rebal).pos;
        && wasBusy == BusyCount(old(use), rebal.page, p, if p + bulk < n then p + bulk else n, locked)
        && (if p + bulk < n then rebal == old(rebal).(pos := p + bulk, busyItems := old(rebal).busyItems + wasBusy)
            else if old(rebal).busyItems + wasBusy == 0 then rebal.done
            else rebal == old(rebal).(pos := 0, busyItems := 0))
    {
      hide PagesInv, ChunksInv, FreeInv, BusyCount;
      wasBusy := 0;
      var x := 0;
      ghost var p, n := rebal.pos, classes[rebal.source].perslab;
      NoneVisited(use, rebal.page, p, locked);
      while x < bulk && rebal.pos < classes[rebal.source].perslab
        invariant Valid() && rebal.Moving? && !rebal.done && PageCount(classes) == old(PageCount(classes))
        invariant rebal.source == old(rebal).source && rebal.target == old(rebal).target && rebal.page == old(rebal).page
        invariant classes[rebal.source].perslab == n && rebal.pos == p + x <= n && x <= bulk
        invariant wasBusy == BusyCount(old(use), rebal.page, p, rebal.pos, locked)
        invariant rebal.busyItems == old(rebal).busyItems + wasBusy
        invariant forall i :: rebal.pos <= i < n ==> SameUse(use, old(use), Chunk(rebal.page, i))
        decreases bulk - x
      {
        ghost var before := use;
        assert SameUse(use, old(use), Chunk(rebal.page, rebal.pos));
        var busy := MoveOne(locked(Chunk(rebal.page, rebal.pos)));
        OneVisited(old(use), rebal.page, p, rebal.pos - 1, locked);
        if busy {
          wasBusy := wasBusy + 1;
        }
        forall i | rebal.pos <= i < n
          ensures SameUse(use, old(use), Chunk(rebal.page, i))
        {
          assert SameUse(before, old(use), Chunk(rebal.page, i));
        }
        x := x + 1;
      }
      if rebal.pos >= classes[rebal.source].perslab {
        if rebal.busyItems > 0 {
          rebal := rebal.(pos := 0, busyItems := 0);
        } else {
          rebal := rebal.(done := true);
        }
      }
    }

    /** Hands the drained page over: no page is lost or made, and nothing refers to a chunk of it. */
    method RebalanceFinish()
      requires Valid() && rebal.Moving? && rebal.done
      modifies this
      ensures Valid() && rebal.Idle? && PageCount(classes) == old(PageCount(classes)) && |classes| == |old(classes)|
      ensures forall ch :: ch in old(use) && ch.page == old(rebal).page ==> old(use)[ch].Drained?
      ensures View() == WithPage(WithoutPage(old(View())), old(rebal).target, old(rebal).page)
      ensures owner == old(owner)[old(rebal).page := old(rebal).target]
      ensures forall ch: Chunk :: ch.page != old(rebal).page ==> SameUse(use, old(use), ch)
      ensures forall ch :: ch in use && ch.page == old(rebal).page ==> use[ch].Free?
      ensures forall c :: 0 <= c < |classes| && c != old(rebal).source && c != old(rebal).target ==> classes[c] == old(classes)[c]
    {
      hide PagesInv, ChunksInv, FreeInv, AllFree, PageChunks;
      ghost var m := View();
      var s, d, page := rebal.source, rebal.target, rebal.page;
      RemovePageKeepsInv(m);
      AddPageKeepsInv(WithoutPage(m), d, page);
      CurrIsLength(WithoutPage(m), d);
      CountMoves(m);
      var k := classes[s];
      var n := |k.slabs| - 1;
      classes := classes[s := k.(slabs := k.slabs[k.killing - 1 := k.slabs[n]][..n], killing := 0)];
      use := map ch | ch in use && ch.page != page :: use[ch];
      owner := owner - {page};
      assert classes == WithoutPage(m).classes;
      classes := classes[d := classes[d].(slabs := classes[d].slabs + [page])];
      SplitPage(page, d);
      owner := owner[page := d];
      rebal := Idle;
      assert classes == WithPage(WithoutPage(m), d, page).classes;
      Handed(m, View());
    }

    /** The class of a chunk, which its header records. */
    method ClassOf(ch: Chunk) returns (id: nat)
      requires Valid() && ch in use
      ensures ch.page in owner && id == owner[ch.page] && id < |classes|
    {
      id :| 0 <= id < |classes| && ch.page in classes[id].slabs;
      assert owner[ch.page] == id by {
        var i :| 0 <= i < |classes[id].slabs| && classes[id].slabs[i] == ch.page;
      }
    }
  }

  /** After a page changes hands, its chunks are free, it has its new owner, and nothing else has changed. */
  lemma {:induction false} Handed(m: Memory, m': Memory)
    requires m.rebal.Moving? && m.rebal.source < |m.classes| && |m.classes[m.rebal.source].slabs| > 0
    requires m.rebal.target < |m.classes| && m' == WithPage(WithoutPage(m), m.rebal.target, m.rebal.page)
    ensures forall ch: Chunk :: ch.page != m.rebal.page ==> SameUse(m'.use, m.use, ch)
    ensures forall ch :: ch in m'.use && ch.page == m.rebal.page ==> m'.use[ch].Free?
    ensures m'.owner == m.owner[m.rebal.page := m.rebal.target] && |m'.classes| == |m.classes|
    ensures forall c :: 0 <= c < |m.classes| && c != m.rebal.source && c != m.rebal.target ==> m'.classes[c] == m.classes[c]
  {
    hide AllFree, PageChunks;
    forall ch: Chunk
      ensures ch.page != m.rebal.page ==> SameUse(m'.use, m.use, ch)
      ensures ch in m'.use && ch.page == m.rebal.page ==> m'.use[ch].Free?
    {
      InAllFree(m.rebal.page, WithoutPage(m).classes[m.rebal.target].perslab, ch);
    }
  }

  lemma {:induction false} SplitBegins(page: nat, slots: seq<Chunk>, use: map<Chunk, Use>)
    ensures PageChunks(page, 0) + slots == slots && use + AllFree(page, 0) == use
  {
  }

  lemma {:induction false} SplitStep(page: nat, x: nat, slots: seq<Chunk>, use: map<Chunk, Use>)
    ensures [Chunk(page, x)] + (PageChunks(page, x) + slots) == PageChunks(page, x + 1) + slots
    ensures (use + AllFree(page, x))[Chunk(page, x) := Free] == use + AllFree(page, x + 1)
  {
  }

  lemma {:induction false} NoPages(classes: seq<SlabClass>)
    requires forall c :: 0 <= c < |classes| ==> classes[c].slabs == []
    ensures PageCount(classes) == 0
  {
    if classes != [] {
      NoPages(classes[..|classes| - 1]);
    }
  }

  lemma {:induction false} CurrIsLength(m: Memory, c: nat)
    requires Inv(m) && c < |m.classes|
    ensures m.classes[c].slCurr == |m.classes[c].slots|
  {
  }

  lemma {:induction false} HeadIsFree(m: Memory, c: nat)
    requires Inv(m) && c < |m.classes| && m.classes[c].slots != []
    ensures FreeIn(m.use, m.owner, m.classes[c].slots[0], c)
  {
  }

  lemma {:induction false} TakeHead(m: Memory, c: nat)
    requires Inv(m) && HasFree(m, c)
    ensures Inv(HeadTaken(m, c))
  {
    HeadIsFree(m, c);
    var slots := m.classes[c].slots;
    forall x
      ensures x in slots[1..] <==> x != slots[0] && x in slots
    {
    }
    SlotsChange(m, c, slots[1..], slots[0], InUse(1, false));
  }

  lemma {:induction false} FreshOrFree(before: Memory, m: Memory, c: nat, page: Option<nat>, ch: Chunk)
    requires Inv(before) && c < |before.classes| && (page.Some? ==> page.value !in before.owner)
    requires m == before || (page.Some? && m == WithPage(before, c, page.value))
    requires FreeIn(m.use, m.owner, ch, c)
    ensures ch in before.use ==> before.use[ch].Free?
    ensures forall x :: x in before.use ==> x in m.use && m.use[x] == before.use[x]
  {
    hide FreeInv, PagesInv, RebalInv, AllFree, PageChunks;
    if m != before {
      InAllFree(page.value, before.classes[c].perslab, ch);
      forall x | x in before.use
        ensures x in m.use && m.use[x] == before.use[x]
      {
        InAllFree(page.value, before.classes[c].perslab, x);
      }
    }
  }

  lemma {:induction false} InUseChange(m: Memory, ch: Chunk, refs: nat, linked: bool)
    requires Inv(m) && ch in m.use && m.use[ch].InUse? && (refs > 0 || linked)
    ensures Inv(m.(use := m.use[ch := InUse(refs, linked)]))
  {
    EachChunkOnce(m, ch);
    var c := m.owner[ch.page];
    CurrIsLength(m, c);
    SlotsChange(m, c, m.classes[c].slots, ch, InUse(refs, linked));
    assert WithSlots(m, c, m.classes[c].slots) == m.classes;
  }

  lemma {:induction false} GiveBack(m: Memory, ch: Chunk)
    requires Inv(m) && ch in m.use && m.use[ch].InUse?
    ensures ch.page in m.owner && m.owner[ch.page] < |m.classes|
    ensures var c := m.owner[ch.page];
      Inv(m.(classes := WithSlots(m, c, [ch] + m.classes[c].slots), use := m.use[ch := Free]))
  {
    EachChunkOnce(m, ch);
    var c := m.owner[ch.page];
    SlotsChange(m, c, [ch] + m.classes[c].slots, ch, Free);
  }

  lemma {:induction false} SourceIsClass(m: Memory)
    requires Inv(m) && m.rebal.Moving?
    ensures m.rebal.source < |m.classes|
  {
  }

  lemma {:induction false} KillingKeeps(m: Memory, s: nat, n: nat)
    requires Inv(m) && s < |m.classes|
    ensures var classes' := m.classes[s := m.classes[s].(killing := n)];
      PagesInv(classes', m.owner) && ChunksInv(classes', m.use, m.owner) && FreeInv(classes', m.use, m.owner)
  {
    var classes' := m.classes[s := m.classes[s].(killing := n)];
    assert forall c :: 0 <= c < |classes'| ==>
      classes'[c].slabs == m.classes[c].slabs && classes'[c].slots == m.classes[c].slots
      && classes'[c].slCurr == m.classes[c].slCurr && classes'[c].perslab == m.classes[c].perslab;
  }

  lemma {:induction false} CursorChunk(m: Memory)
    requires Inv(m) && m.rebal.Moving? && m.rebal.pos < m.classes[m.rebal.source].perslab
    ensures var ch := Chunk(m.rebal.page, m.rebal.pos);
      && ch in m.use && ch.page in m.owner && m.owner[ch.page] == m.rebal.source
      && (m.use[ch].Free? ==> ch in m.classes[m.rebal.source].slots)
  {
    MovingPageOwned(m);
    var ch := Chunk(m.rebal.page, m.rebal.pos);
    assert m.use[ch].Free? ==> FreeIn(m.use, m.owner, ch, m.rebal.source);
  }

  lemma {:induction false} DrainFree(m: Memory, i: nat)
    requires Inv(m) && m.rebal.Moving? && m.rebal.pos < m.classes[m.rebal.source].perslab
    requires i < |m.classes[m.rebal.source].slots|
    requires m.classes[m.rebal.source].slots[i] == Chunk(m.rebal.page, m.rebal.pos)
    ensures var slots := m.classes[m.rebal.source].slots;
      Inv(m.(classes := WithSlots(m, m.rebal.source, slots[..i] + slots[i + 1..]),
             use := m.use[Chunk(m.rebal.page, m.rebal.pos) := Drained]))
  {
    hide Inv;
    SourceIsClass(m);
    CursorChunk(m);
    var c, ch := m.rebal.source, Chunk(m.rebal.page, m.rebal.pos);
    var slots := m.classes[c].slots;
    NoneTwice(m, c);
    forall x
      ensures x in slots[..i] + slots[i + 1..] <==> x != ch && x in slots
    {
      OneRemoved(slots, i, x);
    }
    DistinctRemoved(slots, i);
    SlotsChange(m, c, slots[..i] + slots[i + 1..], ch, Drained);
  }

  lemma {:induction false} NoneTwice(m: Memory, c: nat)
    requires Inv(m) && c < |m.classes|
    ensures Unrepeated(m.classes[c].slots)
  {
  }

  lemma {:induction false} OneRemoved(slots: seq<Chunk>, i: nat, x: Chunk)
    requires Unrepeated(slots) && i < |slots|
    ensures x in slots[..i] + slots[i + 1..] <==> x != slots[i] && x in slots
  {
    if x in slots && x != slots[i] {
      var j :| 0 <= j < |slots| && slots[j] == x;
      assert (slots[..i] + slots[i + 1..])[if j < i then j else j - 1] == x;
    }
  }

  lemma {:induction false} DistinctRemoved(slots: seq<Chunk>, i: nat)
    requires Unrepeated(slots) && i < |slots|
    ensures Unrepeated(slots[..i] + slots[i + 1..])
  {
    var rest := slots[..i] + slots[i + 1..];
    forall a | 0 <= a < |rest|
      ensures rest[a] == slots[if a < i then a else a + 1]
    {
    }
  }

  lemma {:induction false} DrainLinked(m: Memory, ch: Chunk)
    requires Inv(m) && m.rebal.Moving? && m.rebal.pos < m.classes[m.rebal.source].perslab
    requires ch == Chunk(m.rebal.page, m.rebal.pos) && ch in m.use && m.use[ch].InUse?
    ensures Inv(m.(use := m.use[ch := Drained]))
  {
    CursorChunk(m);
    EachChunkOnce(m, ch);
    var c := m.rebal.source;
    CurrIsLength(m, c);
    SlotsChange(m, c, m.classes[c].slots, ch, Drained);
    assert WithSlots(m, c, m.classes[c].slots) == m.classes;
  }

  lemma {:induction false} CursorAdvances(m: Memory, busy: bool)
    requires Inv(m) && m.rebal.Moving? && !m.rebal.done && m.rebal.pos < m.classes[m.rebal.source].perslab
    requires !busy ==> var ch := Chunk(m.rebal.page, m.rebal.pos); ch in m.use && m.use[ch].Drained?
    ensures RebalInv(m.classes, m.use, Advanced(m.rebal, busy))
  {
    hide PagesInv, ChunksInv, FreeInv;
  }

  lemma {:induction false} CountMoves(m: Memory)
    requires Inv(m) && m.rebal.Moving?
    ensures PageCount(WithPage(WithoutPage(m), m.rebal.target, m.rebal.page).classes) == PageCount(m.classes)
  {
    hide PagesInv, ChunksInv, FreeInv;
    var m' := WithoutPage(m);
    CountChange(m.classes, m.rebal.source, m'.classes[m.rebal.source]);
    CountChange(m'.classes, m.rebal.target, WithPage(m', m.rebal.target, m.rebal.page).classes[m.rebal.target]);
  }
}

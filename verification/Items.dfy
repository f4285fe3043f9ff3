/**
 memcached's LRU queues and flush. Queues run from the most to the least recent item, so
 the flush loop may stop at the first old one and leave the rest to the check in `get`.
 Times are 32-bit: `current_time - 1` and `current_time - 60` wrap around.
 */
module Items {
  import opened InternalKeys
  import opened Sequences

  type Time = t: int | 0 <= t < 0x1_0000_0000

  datatype Item = Item(key: Bytes, cls: nat, time: Time, exptime: Time, linked: bool)

  function Minus(t: Time, d: nat): Time
  {
    (t - d) % 0x1_0000_0000
  }

  const UpdateInterval: nat := 60

  type Queues = seq<seq<nat>>

  // ------------------------------------------------------------------
  // The invariant.

  /** An item is linked exactly if it is in the hash table and in the queue of its class. */
  ghost predicate LinkInv(items: map<nat, Item>, table: map<Bytes, nat>, queues: Queues)
  {
    && (forall k :: k in table ==> table[k] in items && items[table[k]].key == k && items[table[k]].linked)
    && (forall id :: id in items && items[id].linked ==>
          && items[id].key in table && table[items[id].key] == id
          && items[id].cls < |queues| && id in queues[items[id].cls])
    && (forall c, i :: 0 <= c < |queues| && 0 <= i < |queues[c]| ==>
          queues[c][i] in items && items[queues[c][i]].linked && items[queues[c][i]].cls == c)
    && (forall c :: 0 <= c < |queues| ==> Unrepeated(queues[c]))
  }

  /** Along each queue times do not increase, and none lies in the future. */
  ghost predicate TimeInv(items: map<nat, Item>, queues: Queues, now: Time)
  {
    && (forall c :: 0 <= c < |queues| ==> Recent(items, queues[c]))
    && (forall c, i :: 0 <= c < |queues| && 0 <= i < |queues[c]| ==>
          queues[c][i] in items && items[queues[c][i]].time <= now)
  }

  ghost predicate Recent(items: map<nat, Item>, queue: seq<nat>)
  {
    forall i, j :: 0 <= i < j < |queue| && queue[i] in items && queue[j] in items ==>
      items[queue[i]].time >= items[queue[j]].time
  }

  /** `get` takes the item for flushed. */
  predicate Dead(it: Item, oldestLive: Time, now: Time)
  {
    oldestLive != 0 && oldestLive <= now && it.time <= oldestLive
  }

  // ------------------------------------------------------------------
  // Taking an item out of its queue and putting it at the head.

  lemma {:induction false} WithoutRecent(items: map<nat, Item>, queue: seq<nat>, id: nat)
    requires Recent(items, queue) && forall x :: x in queue ==> x in items
    ensures Recent(items, Without(queue, id))
  {
    if queue != [] && queue[0] != id {
      var rest := Without(queue[1..], id);
      WithoutRecent(items, queue[1..], id);
      forall j | 0 <= j < |rest|
        ensures rest[j] in items && items[queue[0]].time >= items[rest[j]].time
      {
        WithoutElement(queue[1..], id, j);
        var i :| 0 <= i < |queue[1..]| && queue[1..][i] == rest[j];
        assert queue[i + 1] == rest[j];
      }
    }
  }

  // ------------------------------------------------------------------
  // The cache.

  /** Whatever a flush was meant to kill is unlinked or taken for flushed. */
  ghost predicate DoomInv(items: map<nat, Item>, doomed: set<nat>, oldestLive: Time, now: Time)
  {
    forall id :: id in doomed && id in items && items[id].linked ==> Dead(items[id], oldestLive, now)
  }

  function Unlinked(items: map<nat, Item>, id: nat): map<nat, Item>
    requires id in items
  {
    items[id := items[id].(linked := false)]
  }

  class Cache {
    var items: map<nat, Item>
    var table: map<Bytes, nat>
    var queues: Queues
    var oldestLive: Time
    var now: Time
    ghost var doomed: set<nat>

    ghost predicate Valid()
      reads this
    {
      LinkInv(items, table, queues) && TimeInv(items, queues, now) && DoomInv(items, doomed, oldestLive, now)
    }

    constructor (classes: nat, now: Time)
      ensures Valid() && items == map[] && table == map[] && oldestLive == 0 && this.now == now && |queues| == classes
      ensures doomed == {}
    {
      items, table, queues, oldestLive, this.now := map[], map[], seq(classes, _ => []), 0, now;
      doomed := {};
    }

    /** The clock never goes back. */
    method Tick(later: Time)
      requires Valid() && now <= later
      modifies `now
      ensures Valid() && now == later
    {
      now := later;
    }

    /** Links a new item under a key nobody has. */
    method Link(id: nat, it: Item)
      requires Valid() && (id in items ==> !items[id].linked) && it.key !in table && it.cls < |queues|
      modifies `items, `table, `queues, `doomed
      ensures Valid() && items == old(items)[id := it.(linked := true, time := now)] && table == old(table)[it.key := id]
      ensures queues == old(queues)[it.cls := [id] + old(queues)[it.cls]] && doomed == old(doomed) - {id}
    {
      hide LinkInv, TimeInv;
      LinkKeeps(items, table, queues, now, id, it.(linked := true, time := now));
      items := items[id := it.(linked := true, time := now)];
      table := table[it.key := id];
      queues := queues[it.cls := [id] + queues[it.cls]];
      doomed := doomed - {id};
    }

    /** Unlinks an item that is linked, and does nothing to one that is not. */
    method Unlink(id: nat)
      requires Valid() && id in items
      modifies `items, `table, `queues
      ensures Valid() && items == Unlinked(old(items), id) && |queues| == |old(queues)|
      ensures old(items)[id].linked ==> old(items)[id].cls < |old(queues)|
      ensures var c := old(items)[id].cls;
        queues == if old(items)[id].linked then old(queues)[c := Without(old(queues)[c], id)] else old(queues)
      ensures table == if old(items)[id].linked then old(table) - {old(items)[id].key} else old(table)
    {
      hide LinkInv, TimeInv, Without;
      var it := items[id];
      if it.linked {
        UnlinkKeeps(items, table, queues, now, id);
        items := items[id := it.(linked := false)];
        table := table - {it.key};
        queues := queues[it.cls := Without(queues[it.cls], id)];
      } else {
        assert items[id := it.(linked := false)] == items;
      }
    }

    /**
     Moves an item that was last touched over a minute ago to the head of its queue. The new
     time would spare it from a past flush, so callers update only what `Get` has returned.
     */
    method Update(id: nat)
      requires Valid() && id in items
      modifies `items, `queues, `doomed
      ensures Valid() && |queues| == |old(queues)|
      ensures var it := old(items)[id];
        if it.time < (now - 60) % 0x1_0000_0000 && it.linked
        then items == old(items)[id := it.(time := now)] && it.cls < |queues| && doomed == old(doomed) - {id}
             && queues == old(queues)[it.cls := [id] + Without(old(queues)[it.cls], id)]
        else items == old(items) && queues == old(queues) && doomed == old(doomed)
    {
      hide LinkInv, TimeInv, Without;
      var it := items[id];
      if it.time < Minus(now, UpdateInterval) && it.linked {
        UpdateKeeps(items, table, queues, now, id);
        items := items[id := it.(time := now)];
        queues := queues[it.cls := [id] + Without(queues[it.cls], id)];
        doomed := doomed - {id};
      }
    }

    /**
     A live item is returned, never one that a flush doomed; one that is flushed or expired, or
     lies on a page that is being moved to another class, is unlinked.
     */
    method Get(key: Bytes, onMovingPage: nat -> bool) returns (r: Option<nat>)
      requires Valid()
      modifies `items, `table, `queues
      ensures Valid() && |queues| == |old(queues)|
      ensures r.Some? ==> key in old(table) && r.value == old(table)[key] && items == old(items) && r.value !in doomed
      ensures r.Some? ==> table == old(table) && queues == old(queues)
      ensures key in old(table) ==> old(table)[key] in old(items) && old(items)[old(table)[key]].cls < |queues|
      ensures r.None? ==> table == old(table) - {key}
      ensures r.None? ==> items == if key in old(table) then Unlinked(old(items), old(table)[key]) else old(items)
      ensures r.None? ==> queues == if key !in old(table) then old(queues) else
        var id := old(table)[key];
        old(queues)[old(items)[id].cls := Without(old(queues)[old(items)[id].cls], id)]
      ensures r.None? <==>
        || key !in old(table) || onMovingPage(old(table)[key])
        || var it := old(items)[old(table)[key]];
           || (oldestLive != 0 && it.time <= oldestLive <= now)
           || (it.exptime != 0 && it.exptime <= now)
    {
      if key !in table {
        return None;
      }
      var id := table[key];
      if onMovingPage(id) {
        Unlink(id);
        return None;
      }
      var it := items[id];
      if oldestLive != 0 && oldestLive <= now && it.time <= oldestLive {
        Unlink(id);
        return None;
      }
      if it.exptime != 0 && it.exptime <= now {
        Unlink(id);
        return None;
      }
      r := Some(id);
    }

    /** Walks one queue from its head and unlinks items until it meets one older than the flush. */
    method FlushQueue(c: nat)
      requires Valid() && c < |queues|
      modifies `items, `table, `queues
      ensures Valid() && |queues| == |old(queues)| && items.Keys == old(items).Keys
      ensures forall d :: 0 <= d < |queues| && d != c ==> queues[d] == old(queues)[d]
      ensures queues[c] != [] ==> queues[c][0] in items && items[queues[c][0]].time < oldestLive
      ensures forall id :: id in items ==> Spared(items[id], old(items)[id], oldestLive)
    {
      hide LinkInv, TimeInv, DoomInv, Without;
      while queues[c] != []
        invariant Valid() && |queues| == |old(queues)| && items.Keys == old(items).Keys
        invariant forall d :: 0 <= d < |queues| && d != c ==> queues[d] == old(queues)[d]
        invariant forall id :: id in items ==> Spared(items[id], old(items)[id], oldestLive)
        decreases |queues[c]|
      {
        var head := queues[c][0];
        HeadIsLinked(items, table, queues, c);
        if items[head].time < oldestLive {
          break;
        }
        HeadOff(queues[c]);
        Unlink(head);
      }
    }

    method FlushExpired()
      requires Valid()
      modifies `items, `table, `queues
      ensures Valid() && items.Keys == old(items).Keys && |queues| == |old(queues)|
      ensures oldestLive == 0 ==> items == old(items)
      ensures oldestLive != 0 ==> forall id :: id in items && items[id].linked ==> items[id].time < oldestLive
      ensures forall id :: id in items ==> Spared(items[id], old(items)[id], oldestLive)
    {
      hide LinkInv, TimeInv, DoomInv;
      if oldestLive == 0 {
        return;
      }
      for c := 0 to |queues|
        invariant Valid() && |queues| == |old(queues)| && items.Keys == old(items).Keys
        invariant forall d :: 0 <= d < c ==> HeadIsOld(items, queues[d], oldestLive)
        invariant forall id :: id in items ==> Spared(items[id], old(items)[id], oldestLive)
      {
        ghost var before := items;
        FlushQueue(c);
        forall d | 0 <= d <= c
          ensures HeadIsOld(items, queues[d], oldestLive)
        {
          assert d < c ==> HeadIsOld(before, queues[d], oldestLive);
        }
      }
      OldHeadsOldQueues(items, table, queues, oldestLive, now);
    }

    /**
     `flush_all`: sets the flush time and flushes. Afterwards every linked item is taken for
     flushed exactly if that time lies between 1 and now, or nothing was linked. A later time,
     which is what a delay gives, brings items of an earlier flush back until it comes.
     */
    method FlushAll(at: Time)
      requires Valid()
      modifies this
      ensures Valid() && now == old(now) && oldestLive == at && items.Keys == old(items).Keys && |queues| == |old(queues)|
      ensures (forall id :: id in items && items[id].linked ==> Dead(items[id], oldestLive, now)) <==>
              (1 <= at <= now || forall id :: id in old(items) ==> !old(items)[id].linked)
      ensures forall id :: id in items ==> Spared(items[id], old(items)[id], at)
      ensures doomed == if 1 <= at <= now then items.Keys else {}
    {
      hide LinkInv;
      oldestLive := at;
      doomed := {};
      NoneYounger(items, table, queues, now);
      FlushExpired();
      if 1 <= at <= now {
        doomed := items.Keys;
      } else {
        forall id | id in items
          ensures items[id].linked == old(items)[id].linked
        {
          assert Spared(items[id], old(items)[id], oldestLive);
        }
      }
    }
  }

  /** A flush leaves an item alone or unlinks it, and unlinks only items as young as the flush. */
  predicate Spared(it: Item, was: Item, oldestLive: Time)
  {
    it == was || (was.linked && was.time >= oldestLive && it == was.(linked := false))
  }

  predicate HeadIsOld(items: map<nat, Item>, queue: seq<nat>, oldestLive: Time)
  {
    queue != [] ==> queue[0] in items && items[queue[0]].time < oldestLive
  }

  lemma {:induction false} HeadIsLinked(items: map<nat, Item>, table: map<Bytes, nat>, queues: Queues, c: nat)
    requires LinkInv(items, table, queues) && c < |queues| && queues[c] != []
    ensures queues[c][0] in items && items[queues[c][0]].linked && items[queues[c][0]].cls == c
  {
  }

  lemma {:induction false} HeadOff(queue: seq<nat>)
    requires queue != []
    ensures Without(queue, queue[0]) == queue[1..]
  {
  }

  /** Since queues are sorted by time, an old head means an old queue. */
  lemma {:induction false} OldHeadsOldQueues(items: map<nat, Item>, table: map<Bytes, nat>, queues: Queues,
                                             oldestLive: Time, now: Time)
    requires LinkInv(items, table, queues) && TimeInv(items, queues, now)
    requires forall c :: 0 <= c < |queues| ==> HeadIsOld(items, queues[c], oldestLive)
    ensures forall id :: id in items && items[id].linked ==> items[id].time < oldestLive
  {
    forall id | id in items && items[id].linked
      ensures items[id].time < oldestLive
    {
      var q := queues[items[id].cls];
      var i :| 0 <= i < |q| && q[i] == id;
      assert Recent(items, q) && HeadIsOld(items, q, oldestLive);
    }
  }

  lemma {:induction false} NoneYounger(items: map<nat, Item>, table: map<Bytes, nat>, queues: Queues, now: Time)
    requires LinkInv(items, table, queues) && TimeInv(items, queues, now)
    ensures forall id :: id in items && items[id].linked ==> items[id].time <= now
  {
    forall id | id in items && items[id].linked
      ensures items[id].time <= now
    {
      var q := queues[items[id].cls];
      var i :| 0 <= i < |q| && q[i] == id;
    }
  }

  /** An item that a flush killed is handed out again after a second flush with a delay. */
  method FlushedItemComesBack() returns (dead: bool, back: Option<nat>)
    ensures dead && back == Some(7)
  {
    hide TimeInv;
    var cache := new Cache(1, 10);
    cache.Link(7, Item([1], 0, 0, 0, false));
    cache.Tick(100);
    cache.FlushAll(99);
    assert Spared(cache.items[7], Item([1], 0, 10, 0, true), 99);
    dead := Dead(cache.items[7], cache.oldestLive, cache.now);
    cache.FlushAll(149);
    assert cache.items[7] == Item([1], 0, 10, 0, true);
    back := cache.Get([1], _ => false);
  }

  lemma {:induction false} LinkKeeps(items: map<nat, Item>, table: map<Bytes, nat>, queues: Queues, now: Time,
                                     id: nat, it: Item)
    requires LinkInv(items, table, queues) && TimeInv(items, queues, now)
    requires (id in items ==> !items[id].linked) && it.key !in table && it.cls < |queues| && it.linked && it.time == now
    ensures var items', queues' := items[id := it], queues[it.cls := [id] + queues[it.cls]];
      LinkInv(items', table[it.key := id], queues') && TimeInv(items', queues', now)
  {
    var c := it.cls;
    NotQueued(items, table, queues, id);
    LinkLinks(items, table, queues, id, it);
    hide LinkInv;
    var queues' := queues[c := [id] + queues[c]];
    TimesAfter(items, queues, now, id, it, c, queues[c], queues');
  }

  lemma {:induction false} NotQueued(items: map<nat, Item>, table: map<Bytes, nat>, queues: Queues, id: nat)
    requires LinkInv(items, table, queues) && (id in items ==> !items[id].linked)
    ensures forall c, i :: 0 <= c < |queues| && 0 <= i < |queues[c]| ==> queues[c][i] != id
  {
  }

  lemma {:induction false} LinkLinks(items: map<nat, Item>, table: map<Bytes, nat>, queues: Queues, id: nat, it: Item)
    requires LinkInv(items, table, queues)
    requires (id in items ==> !items[id].linked) && it.key !in table && it.cls < |queues| && it.linked
    requires forall c, i :: 0 <= c < |queues| && 0 <= i < |queues[c]| ==> queues[c][i] != id
    ensures LinkInv(items[id := it], table[it.key := id], queues[it.cls := [id] + queues[it.cls]])
  {
  }

  /** Times after item `id`, stamped now, goes to the head of `rest` in queue `c`. */
  lemma {:induction false} TimesAfter(items: map<nat, Item>, queues: Queues, now: Time, id: nat, it: Item, c: nat,
                                      rest: seq<nat>, queues': Queues)
    requires TimeInv(items, queues, now) && c < |queues| && it.time == now && queues' == queues[c := [id] + rest]
    requires Recent(items, rest) && id !in rest && forall x :: x in rest ==> x in queues[c]
    requires forall d, i :: 0 <= d < |queues| && d != c && 0 <= i < |queues[d]| ==> queues[d][i] != id
    ensures TimeInv(items[id := it], queues', now)
  {
    var items' := items[id := it];
    forall i | 0 <= i < |rest|
      ensures rest[i] in items && rest[i] != id && items[rest[i]].time <= now
    {
      assert rest[i] in rest && rest[i] in queues[c];
      var j :| 0 <= j < |queues[c]| && queues[c][j] == rest[i];
    }
    forall i, j | 0 <= i < j < |[id] + rest|
      ensures items'[([id] + rest)[i]].time >= items'[([id] + rest)[j]].time
    {
    }
    assert Recent(items', queues'[c]);
    forall d | 0 <= d < |queues'|
      ensures Recent(items', queues'[d])
    {
      assert d != c ==> Recent(items, queues[d]);
    }
  }

  lemma {:induction false} UnlinkKeeps(items: map<nat, Item>, table: map<Bytes, nat>, queues: Queues, now: Time,
                                       id: nat)
    requires LinkInv(items, table, queues) && TimeInv(items, queues, now) && id in items && items[id].linked
    ensures items[id].cls < |queues|
    ensures var it := items[id];
      var items', queues' := items[id := it.(linked := false)], queues[it.cls := Without(queues[it.cls], id)];
      LinkInv(items', table - {it.key}, queues') && TimeInv(items', queues', now)
  {
    var it := items[id];
    var c := it.cls;
    OwnQueue(items, table, queues, id);
    WithoutMembers(queues[c], id);
    WithoutRecent(items, queues[c], id);
    UnlinkLinks(items, table, queues, id);
    OnlyInOwn(items, table, queues, id);
    hide LinkInv;
    UnlinkTimes(items, queues, now, id, Without(queues[c], id));
  }

  lemma {:induction false} UnlinkLinks(items: map<nat, Item>, table: map<Bytes, nat>, queues: Queues, id: nat)
    requires LinkInv(items, table, queues) && id in items && items[id].linked && items[id].cls < |queues|
    ensures var it := items[id];
      LinkInv(items[id := it.(linked := false)], table - {it.key}, queues[it.cls := Without(queues[it.cls], id)])
  {
    hide Without;
    var it := items[id];
    var rest := Without(queues[it.cls], id);
    WithoutMembers(queues[it.cls], id);
    var queues' := queues[it.cls := rest];
    forall c, i | 0 <= c < |queues'| && 0 <= i < |queues'[c]|
      ensures queues'[c][i] != id && queues'[c][i] in queues[c]
    {
      assert queues'[c][i] in queues'[c];
    }
  }

  lemma {:induction false} UnlinkTimes(items: map<nat, Item>, queues: Queues, now: Time, id: nat, rest: seq<nat>)
    requires TimeInv(items, queues, now) && id in items && items[id].cls < |queues|
    requires Recent(items, rest) && id !in rest && forall x :: x in rest ==> x in queues[items[id].cls]
    ensures TimeInv(items[id := items[id].(linked := false)], queues[items[id].cls := rest], now)
  {
    var c := items[id].cls;
    var items', queues' := items[id := items[id].(linked := false)], queues[c := rest];
    forall d | 0 <= d < |queues'|
      ensures Recent(items', queues'[d])
    {
      assert Recent(items, queues'[d]);
    }
    forall d, i | 0 <= d < |queues'| && 0 <= i < |queues'[d]|
      ensures queues'[d][i] in items' && items'[queues'[d][i]].time <= now
    {
      assert queues'[d][i] in queues[d] by {
        assert queues'[d][i] in queues'[d];
      }
      var j :| 0 <= j < |queues[d]| && queues[d][j] == queues'[d][i];
    }
  }

  lemma {:induction false} UpdateKeeps(items: map<nat, Item>, table: map<Bytes, nat>, queues: Queues, now: Time,
                                       id: nat)
    requires LinkInv(items, table, queues) && TimeInv(items, queues, now) && id in items && items[id].linked
    ensures items[id].cls < |queues|
    ensures var it := items[id];
      var items', queues' := items[id := it.(time := now)], queues[it.cls := [id] + Without(queues[it.cls], id)];
      LinkInv(items', table, queues') && TimeInv(items', queues', now)
  {
    var it := items[id];
    var c := it.cls;
    WithoutMembers(queues[c], id);
    WithoutRecent(items, queues[c], id);
    UpdateLinks(items, table, queues, now, id);
    OnlyInOwn(items, table, queues, id);
    hide LinkInv;
    TimesAfter(items, queues, now, id, it.(time := now), c, Without(queues[c], id),
               queues[c := [id] + Without(queues[c], id)]);
  }

  lemma {:induction false} OnlyInOwn(items: map<nat, Item>, table: map<Bytes, nat>, queues: Queues, id: nat)
    requires LinkInv(items, table, queues) && id in items
    ensures forall d, i :: 0 <= d < |queues| && d != items[id].cls && 0 <= i < |queues[d]| ==> queues[d][i] != id
  {
  }

  lemma {:induction false} UpdateLinks(items: map<nat, Item>, table: map<Bytes, nat>, queues: Queues, now: Time,
                                       id: nat)
    requires LinkInv(items, table, queues) && id in items && items[id].linked && items[id].cls < |queues|
    ensures var it := items[id];
      LinkInv(items[id := it.(time := now)], table, queues[it.cls := [id] + Without(queues[it.cls], id)])
  {
    hide LinkInv;
    OwnQueue(items, table, queues, id);
    var it := items[id];
    var before, after := queues[it.cls], [id] + Without(queues[it.cls], id);
    ToHead(before, id);
    hide Unrepeated, SameMembers, Without;
    SameLinks(items, items[id := it.(time := now)], table, queues, queues[it.cls := after]);
  }

  lemma {:induction false} OwnQueue(items: map<nat, Item>, table: map<Bytes, nat>, queues: Queues, id: nat)
    requires LinkInv(items, table, queues) && id in items && items[id].linked
    ensures items[id].cls < |queues| && id in queues[items[id].cls]
    ensures forall c :: 0 <= c < |queues| ==> Unrepeated(queues[c]) && SameMembers(queues[c], queues[c])
  {
  }

  lemma {:induction false} ToHead(queue: seq<nat>, id: nat)
    requires Unrepeated(queue) && id in queue
    ensures Unrepeated([id] + Without(queue, id)) && SameMembers(queue, [id] + Without(queue, id))
  {
    WithoutMembers(queue, id);
    var after := [id] + Without(queue, id);
    forall x
      ensures x in queue <==> x in after
    {
      assert after[0] == id;
    }
  }

  ghost predicate SameMembers(a: seq<nat>, b: seq<nat>)
  {
    forall x :: x in a <==> x in b
  }

  /** Links do not depend on times or on the order within a queue. */
  lemma {:induction false} SameLinks(items: map<nat, Item>, items': map<nat, Item>, table: map<Bytes, nat>,
                                     queues: Queues, queues': Queues)
    requires LinkInv(items, table, queues) && items'.Keys == items.Keys && |queues'| == |queues|
    requires forall x :: x in items ==> items'[x].(time := 0) == items[x].(time := 0)
    requires forall c :: 0 <= c < |queues| ==> Unrepeated(queues'[c]) && SameMembers(queues[c], queues'[c])
    ensures LinkInv(items', table, queues')
  {
    forall c, i | 0 <= c < |queues'| && 0 <= i < |queues'[c]|
      ensures queues'[c][i] in items' && items'[queues'[c][i]].linked && items'[queues'[c][i]].cls == c
    {
      var x := queues'[c][i];
      assert x in queues'[c] && SameMembers(queues[c], queues'[c]);
      var j :| 0 <= j < |queues[c]| && queues[c][j] == x;
      assert items'[x].(time := 0).linked == items[x].(time := 0).linked;
    }
    forall id | id in items' && items'[id].linked
      ensures items'[id].key in table && table[items'[id].key] == id
      ensures items'[id].cls < |queues'| && id in queues'[items'[id].cls]
    {
      assert items'[id].(time := 0).key == items[id].(time := 0).key;
      assert SameMembers(queues[items[id].cls], queues'[items[id].cls]);
    }
    forall k | k in table
      ensures table[k] in items' && items'[table[k]].key == k && items'[table[k]].linked
    {
      assert items'[table[k]].(time := 0).key == items[table[k]].(time := 0).key;
    }
  }
}

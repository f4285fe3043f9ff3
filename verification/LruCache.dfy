/**
 One shard of LevelDB's LRU cache. In every state the hash table and the recency list hold
 the same entries, reference counts are one for the cache plus the handles outstanding,
 the usage is the total charge of what is not freed, and each entry's deleter runs once.
 */
module LruCache {
  import opened InternalKeys
  import opened Sequences
  import HandleTable

  datatype Handle = Handle(key: Bytes, charge: nat, refs: nat)

  /** The shard: `lru` runs from the oldest entry to the newest; `deleted` lists deleter calls. */
  datatype Shard = Shard(
    handles: map<nat, Handle>,
    lru: seq<nat>,
    m: map<Bytes, nat>,
    usage: nat,
    deleted: seq<nat>,
    nextId: nat,
    // Handles that callers hold, per entry, and the entries not freed, oldest first.
    held: map<nat, nat>,
    live: seq<nat>)

  function Total(live: seq<nat>, handles: map<nat, Handle>): nat
  {
    if live == [] then 0
    else Total(live[..|live| - 1], handles) + (if live[|live| - 1] in handles then handles[live[|live| - 1]].charge else 0)
  }

  /** The table and the recency list hold the same entries. */
  ghost predicate ListInv(handles: map<nat, Handle>, lru: seq<nat>, m: map<Bytes, nat>)
  {
    && Unrepeated(lru)
    && (forall id :: id in lru ==> id in handles && handles[id].key in m && m[handles[id].key] == id)
    && (forall k :: k in m ==> m[k] in lru && m[k] in handles && handles[m[k]].key == k)
  }

  ghost predicate RefInv(handles: map<nat, Handle>, lru: seq<nat>, held: map<nat, nat>)
  {
    && held.Keys == handles.Keys
    && forall id :: id in handles ==> handles[id].refs == held[id] + (if id in lru then 1 else 0) && handles[id].refs > 0
  }

  ghost predicate UsageInv(handles: map<nat, Handle>, live: seq<nat>, usage: nat)
  {
    Unrepeated(live) && (forall id :: id in live <==> id in handles) && usage == Total(live, handles)
  }

  /** Every entry ever made is still there or was deleted, once. */
  ghost predicate DeletedInv(handles: map<nat, Handle>, deleted: seq<nat>, nextId: nat)
  {
    && Unrepeated(deleted) && (forall id :: id in deleted ==> id < nextId && id !in handles)
    && (forall id :: id in handles ==> id < nextId) && (forall id: nat :: id < nextId ==> id in handles || id in deleted)
  }

  ghost predicate Inv(s: Shard)
  {
    && ListInv(s.handles, s.lru, s.m) && RefInv(s.handles, s.lru, s.held)
    && UsageInv(s.handles, s.live, s.usage) && DeletedInv(s.handles, s.deleted, s.nextId)
  }

  // ------------------------------------------------------------------
  // Charges.

  lemma {:induction false} TotalSame(live: seq<nat>, handles: map<nat, Handle>, handles': map<nat, Handle>)
    requires forall id :: id in live ==> id in handles && id in handles' && handles[id].charge == handles'[id].charge
    ensures Total(live, handles') == Total(live, handles)
  {
    if live != [] {
      TotalSame(live[..|live| - 1], handles, handles');
    }
  }

  lemma {:induction false} TotalSplit(a: seq<nat>, b: seq<nat>, handles: map<nat, Handle>)
    ensures Total(a + b, handles) == Total(a, handles) + Total(b, handles)
  {
    if b == [] {
      assert a + b == a;
    } else {
      TotalSplit(a, b[..|b| - 1], handles);
      assert (a + b)[..|a + b| - 1] == a + b[..|b| - 1];
    }
  }

  lemma {:induction false} TotalWithout(live: seq<nat>, handles: map<nat, Handle>, id: nat)
    requires id in live && id in handles
    ensures Total(live, handles) == Total(Without(live, id), handles) + handles[id].charge
  {
    var head := live[0];
    assert live == [head] + live[1..];
    TotalSplit([head], live[1..], handles);
    assert [head][..0] == [];
    if head != id {
      TotalWithout(live[1..], handles, id);
      TotalSplit([head], Without(live[1..], id), handles);
    }
  }

  // ------------------------------------------------------------------
  // Giving up one reference.

  /** `Unref` of an entry whose count is one more than it should be by now. */
  function Unreffed(s: Shard, id: nat): Shard
    requires id in s.handles && s.handles[id].refs > 0
  {
    if s.handles[id].refs > 1 then s.(handles := s.handles[id := s.handles[id].(refs := s.handles[id].refs - 1)])
    else s.(handles := s.handles - {id}, held := s.held - {id}, live := Without(s.live, id), deleted := s.deleted + [id],
            usage := if s.usage >= s.handles[id].charge then s.usage - s.handles[id].charge else 0)
  }

  /** Dropping a reference that is not counted any more restores the invariant. */
  lemma {:induction false} UnrefKeeps(s: Shard, id: nat)
    requires ListInv(s.handles, s.lru, s.m) && UsageInv(s.handles, s.live, s.usage)
    requires DeletedInv(s.handles, s.deleted, s.nextId)
    requires id in s.handles && id !in s.lru && s.handles[id].refs > 0
    requires s.held.Keys == s.handles.Keys && s.handles[id].refs == s.held[id] + 1
    requires forall x :: x in s.handles && x != id ==>
      s.handles[x].refs == s.held[x] + (if x in s.lru then 1 else 0) && s.handles[x].refs > 0
    ensures Inv(Unreffed(s, id))
  {
    hide ListInv, UsageInv, DeletedInv;
    if s.handles[id].refs > 1 {
      CountsOnly(s, id, s.handles[id].refs - 1);
    } else {
      FreedCharge(s, id);
      FreedLists(s, id);
    }
  }

  /** Counts do not matter to the lists, the charges or the deletions. */
  lemma {:induction false} CountsOnly(s: Shard, id: nat, n: nat)
    requires ListInv(s.handles, s.lru, s.m) && UsageInv(s.handles, s.live, s.usage) && id in s.handles
    requires DeletedInv(s.handles, s.deleted, s.nextId)
    ensures var handles' := s.handles[id := s.handles[id].(refs := n)];
      ListInv(handles', s.lru, s.m) && UsageInv(handles', s.live, s.usage) && DeletedInv(handles', s.deleted, s.nextId)
  {
    TotalSame(s.live, s.handles, s.handles[id := s.handles[id].(refs := n)]);
  }

  lemma {:induction false} FreedLists(s: Shard, id: nat)
    requires ListInv(s.handles, s.lru, s.m) && id in s.handles && id !in s.lru
    requires DeletedInv(s.handles, s.deleted, s.nextId)
    ensures ListInv(s.handles - {id}, s.lru, s.m) && DeletedInv(s.handles - {id}, s.deleted + [id], s.nextId)
  {
  }

  lemma {:induction false} FreedCharge(s: Shard, id: nat)
    requires UsageInv(s.handles, s.live, s.usage) && id in s.handles
    ensures s.usage >= s.handles[id].charge
    ensures UsageInv(s.handles - {id}, Without(s.live, id), s.usage - s.handles[id].charge)
  {
    TotalWithout(s.live, s.handles, id);
    WithoutMembers(s.live, id);
    TotalSame(Without(s.live, id), s.handles, s.handles - {id});
  }

  // ------------------------------------------------------------------
  // Taking an entry out of the cache.

  function Evicted(s: Shard, id: nat): Shard
    requires id in s.handles && s.handles[id].refs > 0
  {
    Unreffed(s.(lru := Without(s.lru, id), m := s.m - {s.handles[id].key}), id)
  }

  /** The shard without the entry of a key, if it has one. */
  function Removed(s: Shard, key: Bytes): Shard
  {
    if key in s.m && s.m[key] in s.handles && s.handles[s.m[key]].refs > 0 then Evicted(s, s.m[key]) else s
  }

  /** Evicting from the oldest entry on, one at a time and only while the charges do not fit. */
  function Shrunk(s: Shard, capacity: nat): (r: Shard)
    ensures r.nextId == s.nextId
    decreases |s.lru|
  {
    if s.usage > capacity && s.lru != [] && s.lru[0] in s.handles && s.handles[s.lru[0]].refs > 0
    then Shrunk(Evicted(s, s.lru[0]), capacity)
    else s
  }

  lemma {:induction false} ShrinkStep(s: Shard, capacity: nat)
    requires Inv(s) && s.usage > capacity && s.lru != []
    ensures s.lru[0] in s.handles && s.handles[s.lru[0]].refs > 0
    ensures Shrunk(s, capacity) == Shrunk(Evicted(s, s.lru[0]), capacity)
  {
    hide Inv, Evicted;
    ListedIsHandle(s, s.lru[0]);
  }

  lemma {:induction false} EvictKeepsInv(s: Shard, id: nat)
    requires Inv(s) && id in s.lru
    ensures id in s.handles && s.handles[id].refs > 0 && Inv(Evicted(s, id))
    ensures Evicted(s, id).lru == Without(s.lru, id) && Evicted(s, id).m == s.m - {s.handles[id].key}
    ensures Evicted(s, id).nextId == s.nextId
  {
    hide UsageInv, DeletedInv, ListInv, Without;
    ListedIsHandle(s, id);
    var t := s.(lru := Without(s.lru, id), m := s.m - {s.handles[id].key});
    TakenOut(s.handles, s.lru, s.m, id);
    UnrefKeeps(t, id);
  }

  lemma {:induction false} ListedIsHandle(s: Shard, id: nat)
    requires Inv(s) && id in s.lru
    ensures id in s.handles && s.handles[id].refs > 0 && s.handles[id].key in s.m && s.m[s.handles[id].key] == id
  {
  }

  lemma {:induction false} TakenOut(handles: map<nat, Handle>, lru: seq<nat>, m: map<Bytes, nat>, id: nat)
    requires ListInv(handles, lru, m) && id in lru
    ensures ListInv(handles, Without(lru, id), m - {handles[id].key})
    ensures forall x :: x in Without(lru, id) <==> x in lru && x != id
  {
    WithoutMembers(lru, id);
  }

  // ------------------------------------------------------------------
  // Putting an entry in.

  function Added(s: Shard, key: Bytes, charge: nat): Shard
  {
    s.(handles := s.handles[s.nextId := Handle(key, charge, 2)], lru := s.lru + [s.nextId], m := s.m[key := s.nextId],
       usage := s.usage + charge, nextId := s.nextId + 1, held := s.held[s.nextId := 1], live := s.live + [s.nextId])
  }

  lemma {:induction false} AddKeepsInv(s: Shard, key: Bytes, charge: nat)
    requires Inv(s) && key !in s.m
    ensures Inv(Added(s, key, charge))
  {
    hide ListInv, UsageInv;
    NotListed(s);
    AddLists(s, key, charge);
    AddUsage(s, key, charge);
  }

  lemma {:induction false} NotListed(s: Shard)
    requires Inv(s)
    ensures s.nextId !in s.lru && s.nextId !in s.live && s.nextId !in s.handles && s.nextId !in s.held
  {
  }

  lemma {:induction false} AddLists(s: Shard, key: Bytes, charge: nat)
    requires Inv(s) && key !in s.m
    ensures var s' := Added(s, key, charge); ListInv(s'.handles, s'.lru, s'.m)
  {
    NotListed(s);
    hide RefInv, UsageInv, DeletedInv;
  }

  lemma {:induction false} AddUsage(s: Shard, key: Bytes, charge: nat)
    requires Inv(s)
    ensures var s' := Added(s, key, charge); UsageInv(s'.handles, s'.live, s'.usage)
  {
    NotListed(s);
    hide RefInv, ListInv, DeletedInv;
    var s' := Added(s, key, charge);
    assert s'.live[..|s'.live| - 1] == s.live;
    TotalSame(s.live, s.handles, s'.handles);
  }

  // ------------------------------------------------------------------
  // Handing out and taking back handles.

  /** A hit: one more handle, and the entry becomes the newest. */
  function Touched(s: Shard, id: nat): Shard
    requires id in s.handles && id in s.held
  {
    s.(handles := s.handles[id := s.handles[id].(refs := s.handles[id].refs + 1)], lru := Without(s.lru, id) + [id],
       held := s.held[id := s.held[id] + 1])
  }

  lemma {:induction false} TouchKeepsInv(s: Shard, id: nat)
    requires Inv(s) && id in s.lru
    ensures id in s.handles && id in s.held && Inv(Touched(s, id))
  {
    hide ListInv, UsageInv, DeletedInv, Without;
    ListedIsHandle(s, id);
    CountsOnly(s, id, s.handles[id].refs + 1);
    ToNewest(s.handles[id := s.handles[id].(refs := s.handles[id].refs + 1)], s.lru, s.m, id);
  }

  lemma {:induction false} ToNewest(handles: map<nat, Handle>, lru: seq<nat>, m: map<Bytes, nat>, id: nat)
    requires ListInv(handles, lru, m) && id in lru
    ensures ListInv(handles, Without(lru, id) + [id], m)
    ensures forall x :: x in Without(lru, id) + [id] <==> x in lru
  {
    WithoutMembers(lru, id);
    var after := Without(lru, id) + [id];
    forall x
      ensures x in after <==> x in lru
    {
      assert after[|after| - 1] == id;
    }
  }

  function Released(s: Shard, id: nat): Shard
    requires id in s.handles && s.handles[id].refs > 0 && id in s.held && s.held[id] > 0
  {
    Unreffed(s.(held := s.held[id := s.held[id] - 1]), id)
  }

  lemma {:induction false} ReleaseKeepsInv(s: Shard, id: nat)
    requires Inv(s) && id in s.held && s.held[id] > 0
    ensures id in s.handles && s.handles[id].refs > 0 && Inv(Released(s, id))
  {
    hide ListInv, UsageInv, DeletedInv;
    if id in s.lru {
      CountsOnly(s, id, s.handles[id].refs - 1);
    } else {
      UnrefKeeps(s.(held := s.held[id := s.held[id] - 1]), id);
    }
  }

  // ------------------------------------------------------------------
  // Recency.

  /** When the entry was last used, as its place in the history of uses, counted from 1; 0 if never. */
  function LastUse(uses: seq<nat>, id: nat): nat
  {
    if uses == [] then 0
    else if uses[|uses| - 1] == id then |uses|
    else LastUse(uses[..|uses| - 1], id)
  }

  /** The list runs from the entry whose last use is longest ago to the one used last. */
  ghost predicate Recent(uses: seq<nat>, lru: seq<nat>)
  {
    forall i, j :: 0 <= i < j < |lru| ==> LastUse(uses, lru[i]) < LastUse(uses, lru[j])
  }

  /** Each entry that went was last used before each that stays. */
  ghost predicate OldestWent(uses: seq<nat>, before: seq<nat>, after: seq<nat>)
  {
    forall x, y :: x in before && x !in after && y in after ==> LastUse(uses, x) < LastUse(uses, y)
  }

  lemma {:induction false} UseBounds(uses: seq<nat>, id: nat)
    ensures LastUse(uses, id) <= |uses|
  {
    if uses != [] {
      UseBounds(uses[..|uses| - 1], id);
    }
  }

  lemma {:induction false} OneMoreUse(uses: seq<nat>, used: nat, id: nat)
    ensures LastUse(uses + [used], id) == if id == used then |uses| + 1 else LastUse(uses, id)
  {
    assert (uses + [used])[..|uses|] == uses;
  }

  /** A use makes an entry that is not on the list its newest. */
  lemma {:induction false} UseIsNewest(uses: seq<nat>, lru: seq<nat>, id: nat)
    requires Recent(uses, lru) && id !in lru
    ensures Recent(uses + [id], lru + [id])
  {
    hide LastUse;
    forall i | 0 <= i < |lru|
      ensures LastUse(uses + [id], lru[i]) == LastUse(uses, lru[i]) < |uses| + 1 == LastUse(uses + [id], id)
    {
      OneMoreUse(uses, id, lru[i]);
      OneMoreUse(uses, id, id);
      UseBounds(uses, lru[i]);
    }
  }

  lemma {:induction false} WithoutIsRecent(uses: seq<nat>, lru: seq<nat>, id: nat)
    requires Recent(uses, lru)
    ensures Recent(uses, Without(lru, id))
  {
    hide LastUse;
    if lru != [] && lru[0] != id {
      var rest := Without(lru[1..], id);
      WithoutIsRecent(uses, lru[1..], id);
      forall i | 0 <= i < |rest|
        ensures LastUse(uses, lru[0]) < LastUse(uses, rest[i])
      {
        WithoutElement(lru[1..], id, i);
      }
    }
  }

  /** A hit moves the entry to the newest end. */
  lemma {:induction false} HitIsNewest(uses: seq<nat>, lru: seq<nat>, id: nat)
    requires Recent(uses, lru) && Unrepeated(lru)
    ensures Recent(uses + [id], Without(lru, id) + [id])
  {
    hide Recent;
    WithoutMembers(lru, id);
    WithoutIsRecent(uses, lru, id);
    UseIsNewest(uses, Without(lru, id), id);
  }

  lemma {:induction false} SuffixIsRecent(uses: seq<nat>, lru: seq<nat>, n: nat)
    requires Recent(uses, lru) && n <= |lru|
    ensures Recent(uses, lru[n..]) && OldestWent(uses, lru, lru[n..])
  {
    hide LastUse;
    forall x, y | x in lru && x !in lru[n..] && y in lru[n..]
      ensures LastUse(uses, x) < LastUse(uses, y)
    {
      assert lru == lru[..n] + lru[n..];
      var i :| 0 <= i < n && lru[..n][i] == x;
      var j :| 0 <= j < |lru[n..]| && lru[n..][j] == y;
      assert lru[i] == x && lru[n + j] == y;
    }
  }

  lemma {:induction false} CountIs(s: Shard, id: nat)
    requires Inv(s) && id in s.held
    ensures id in s.handles && s.handles[id].refs == s.held[id] + if id in s.lru then 1 else 0
  {
  }

  lemma {:induction false} ListIsUnrepeated(s: Shard)
    requires Inv(s)
    ensures Unrepeated(s.lru)
  {
  }

  // ------------------------------------------------------------------
  // The cache.

  class Cache {
    const table: HandleTable.Table
    var capacity: nat
    var usage: nat
    var lru: seq<nat>
    var handles: map<nat, Handle>
    var nextId: nat
    var deleted: seq<nat>
    ghost var held: map<nat, nat>
    ghost var live: seq<nat>
    // Every insertion and every hit so far, by entry.
    ghost var uses: seq<nat>

    ghost function View(): Shard
      reads this, table
    {
      Shard(handles, lru, table.m, usage, deleted, nextId, held, live)
    }

    ghost predicate Valid()
      reads this, table
    {
      table.Valid() && Inv(View()) && Recent(uses, lru)
    }

    constructor (hash: HandleTable.Hash, capacity: nat)
      ensures Valid() && fresh(table) && this.capacity == capacity && handles == map[] && uses == []
    {
      table := new HandleTable.Table(hash);
      this.capacity, usage, lru, handles, nextId, deleted, held, live := capacity, 0, [], map[], 0, [], map[], [];
      uses := [];
    }

    /** Gives up a reference; the last one frees the entry and runs its deleter. */
    method Unref(id: nat)
      requires table.Valid() && id in handles && handles[id].refs > 0 && usage >= handles[id].charge
      modifies `handles, `usage, `deleted, `held, `live
      ensures View() == Unreffed(old(View()), id)
    {
      var e := handles[id];
      if e.refs > 1 {
        handles := handles[id := e.(refs := e.refs - 1)];
      } else {
        usage := usage - e.charge;
        deleted := deleted + [id];
        handles := handles - {id};
        held, live := held - {id}, Without(live, id);
      }
    }

    method Lookup(key: Bytes) returns (r: Option<nat>)
      requires Valid()
      modifies this
      ensures Valid() && capacity == old(capacity)
      ensures r == if key in old(table.m) then Some(old(table.m)[key]) else None
      ensures r.Some? ==> View() == Touched(old(View()), r.value)
      ensures r.None? ==> View() == old(View())
      ensures uses == old(uses) + if r.Some? then [r.value] else []
    {
      hide Inv, Recent, HandleTable.Placed, HandleTable.Represents, HandleTable.PowerOfTwo;
      r := table.Lookup(key);
      if r.Some? {
        var id := r.value;
        MappedIsListed(View(), key);
        TouchKeepsInv(View(), id);
        ListIsUnrepeated(View());
        HitIsNewest(uses, lru, id);
        handles := handles[id := handles[id].(refs := handles[id].refs + 1)];
        lru := Without(lru, id) + [id];
        held := held[id := held[id] + 1];
        uses := uses + [id];
      }
    }

    /** A caller returns a handle it holds. */
    method Release(id: nat)
      requires Valid() && id in held && held[id] > 0
      modifies `handles, `usage, `deleted, `held, `live
      ensures Valid() && View() == Released(old(View()), id)
      ensures deleted == old(deleted) + if old(held)[id] == 1 && id !in lru then [id] else []
      ensures id in held <==> id in lru || old(held)[id] > 1
      ensures id in held ==> held[id] == old(held)[id] - 1
    {
      hide Inv;
      ReleaseKeepsInv(View(), id);
      CountIs(View(), id);
      ChargeFits(View(), id);
      held := held[id := held[id] - 1];
      Unref(id);
    }

    /** Takes an entry off the recency list and gives up the cache's reference. */
    method Drop(id: nat, ghost s: Shard)
      requires table.Valid() && Inv(s) && id in s.lru && id in s.handles && View() == s.(m := s.m - {s.handles[id].key})
      requires Recent(uses, lru)
      modifies `handles, `usage, `deleted, `held, `live, `lru
      ensures s.handles[id].refs > 0 && Valid() && View() == Evicted(s, id)
    {
      hide Inv, Unreffed, Without, Recent, HandleTable.Placed, HandleTable.Represents, HandleTable.PowerOfTwo;
      ListedIsHandle(s, id);
      EvictKeepsInv(s, id);
      WithoutIsRecent(uses, lru, id);
      ChargeFits(s, id);
      lru := Without(lru, id);
      Unref(id);
    }

    /** The entry leaves the cache; it lives on while callers hold handles to it. */
    method Erase(key: Bytes)
      requires Valid()
      modifies `handles, `usage, `deleted, `held, `live, `lru, table
      ensures Valid() && View() == Removed(old(View()), key)
      ensures table.m == old(table.m) - {key} && StillHeld(old(held), held)
    {
      hide Inv, Evicted, Recent, StillHeld, Unreffed, Without, HandleTable.Table.Valid;
      ghost var s := View();
      HeldByAll(held);
      if key in table.m {
        MappedIsListed(s, key);
        EvictKeepsHeld(s, table.m[key], held);
      }
      var r := table.Remove(key);
      if r.Some? {
        Drop(r.value, s);
      } else {
        assert s.m - {key} == s.m;
      }
    }

    /** Evicts the oldest entry. */
    method EvictOldest()
      requires Valid() && lru != []
      modifies `handles, `usage, `deleted, `held, `live, `lru, table
      ensures Valid() && lru == old(lru)[1..] && Submap(table.m, old(table.m))
      ensures old(lru)[0] in old(handles) && old(handles)[old(lru)[0]].refs > 0
      ensures View() == Evicted(old(View()), old(lru)[0])
    {
      hide Inv, Unreffed, Recent, HandleTable.Placed, HandleTable.Represents, HandleTable.PowerOfTwo;
      var oldest := lru[0];
      ghost var s := View();
      ListedIsHandle(s, oldest);
      assert Without(lru, oldest) == lru[1..];
      var r := table.Remove(handles[oldest].key);
      Drop(oldest, s);
      EvictKeepsInv(s, oldest);
    }

    /** Evicts from the oldest on until the charges fit or the cache is empty. */
    method Shrink()
      requires Valid()
      modifies `handles, `usage, `deleted, `held, `live, `lru, table
      ensures Valid() && (usage <= capacity || lru == [])
      ensures View() == Shrunk(old(View()), capacity) && StillHeld(old(held), held)
      ensures |lru| <= |old(lru)| && lru == old(lru)[|old(lru)| - |lru|..] && OldestWent(uses, old(lru), lru)
      ensures Submap(table.m, old(table.m))
      ensures |lru| < |old(lru)| ==> LastWasNeeded(old(View()), View(), capacity)
    {
      hide Inv, Evicted, StillHeld, Recent, LastUse, OldestWent, LastWasNeeded, HandleTable.Placed,
        HandleTable.Represents, HandleTable.PowerOfTwo;
      ghost var n := 0;
      HeldByAll(held);
      while usage > capacity && lru != []
        invariant Valid() && Shrunk(View(), capacity) == Shrunk(old(View()), capacity)
        invariant 0 <= n <= |old(lru)| && lru == old(lru)[n..] && StillHeld(old(held), held)
        invariant n > 0 ==> LastWasNeeded(old(View()), View(), capacity)
        invariant SameCharges(old(handles), handles) && Submap(table.m, old(table.m))
        decreases |lru|
      {
        ghost var s := View();
        EvictKeepsHeld(s, lru[0], old(held));
        ShrinkStep(s, capacity);
        EvictionWasNeeded(old(View()), s, capacity, n);
        EvictOldest();
        n := n + 1;
      }
      SuffixIsRecent(uses, old(lru), n);
    }

    /** A new entry at the newest end of the list, not yet in the table. */
    method Append(key: Bytes, charge: nat) returns (id: nat)
      modifies `handles, `usage, `held, `live, `lru, `nextId, `uses
      ensures id == old(nextId) && uses == old(uses) + [id]
      ensures View() == Added(old(View()), key, charge).(m := table.m)
    {
      id := nextId;
      nextId := nextId + 1;
      handles := handles[id := Handle(key, charge, 2)];
      held, live := held[id := 1], live + [id];
      lru := lru + [id];
      uses := uses + [id];
      usage := usage + charge;
    }

    /** The entry that was replaced leaves. */
    method Replace(ghost s: Shard, key: Bytes, ghost charge: nat, older: nat)
      requires table.Valid() && Inv(s) && key in s.m && older == s.m[key] && View() == Added(s, key, charge)
      requires uses != [] && Recent(uses[..|uses| - 1], s.lru) && uses[|uses| - 1] == s.nextId
      modifies `handles, `usage, `deleted, `held, `live, `lru
      ensures Valid() && View() == Added(Removed(s, key), key, charge)
    {
      hide Inv, Without, Unreffed, Removed, Recent, StillHeld, HandleTable.Placed, HandleTable.Represents,
        HandleTable.PowerOfTwo;
      PutReplaces(s, uses[..|uses| - 1], key, charge);
      assert uses == uses[..|uses| - 1] + [s.nextId];
      lru := Without(lru, older);
      assert View() == Beside(s, key, charge);
      Unref(older);
    }

    /** Puts an entry in, in the place of one with its key. */
    method Put(key: Bytes, charge: nat) returns (id: nat)
      requires Valid()
      modifies `handles, `usage, `deleted, `held, `live, `lru, `nextId, `uses, table
      ensures Valid() && id == old(nextId) && nextId == id + 1 && uses == old(uses) + [id]
      ensures View() == Added(Removed(old(View()), key), key, charge)
      ensures table.m == old(table.m)[key := id] && StillHeld(old(held), held) && id in held && held[id] == 1
      ensures lru == (if key in old(table.m) then Without(old(lru), old(table.m)[key]) else old(lru)) + [id]
    {
      hide Inv, Without, Unreffed, Evicted, Removed, Recent, StillHeld, HandleTable.Placed, HandleTable.Represents,
        HandleTable.PowerOfTwo;
      ghost var s := View();
      id := Append(key, charge);
      var older := table.Insert(key, id);
      assert View() == Added(s, key, charge);
      if older.Some? {
        PutReplaces(s, old(uses), key, charge);
        assert uses[..|uses| - 1] == old(uses);
        Replace(s, key, charge, older.value);
      } else {
        PutAdds(s, old(uses), key, charge);
      }
    }

    /**
     Puts an entry in and makes room. The caller gets a handle to it, even if making room
     has already evicted it. Whatever goes to make room was last used before whatever stays.
     */
    method Insert(key: Bytes, charge: nat) returns (id: nat)
      requires Valid()
      modifies `handles, `usage, `deleted, `held, `live, `lru, `nextId, `uses, table
      ensures Valid() && id == old(nextId) && nextId == id + 1 && uses == old(uses) + [id]
      ensures View() == Shrunk(Added(Removed(old(View()), key), key, charge), capacity)
      ensures id in held && held[id] == 1 && StillHeld(old(held), held)
      ensures usage <= capacity || lru == []
      ensures Submap(table.m, old(table.m)[key := id])
      ensures OldestWent(uses, (if key in old(table.m) then Without(old(lru), old(table.m)[key]) else old(lru)) + [id], lru)
    {
      hide Inv, Unreffed, Shrunk, Added, Removed, Recent, OldestWent, Without, Submap, HandleTable.Placed,
        HandleTable.Represents, HandleTable.PowerOfTwo;
      id := Put(key, charge);
      Shrink();
    }
  }

  ghost predicate Submap(m: map<Bytes, nat>, of: map<Bytes, nat>)
  {
    forall k :: k in m ==> k in of && m[k] == of[k]
  }

  /** What putting an entry in the place of another leaves. */
  lemma {:induction false} PutReplaces(s: Shard, uses: seq<nat>, key: Bytes, charge: nat)
    requires Inv(s) && Recent(uses, s.lru) && key in s.m
    ensures s.m[key] in s.lru && s.m[key] in s.handles && s.handles[s.m[key]].refs > 0 && s.m[key] != s.nextId
    ensures s.usage >= s.handles[s.m[key]].charge
    ensures var t := Added(Removed(s, key), key, charge);
      && Unreffed(Beside(s, key, charge), s.m[key]) == t && Inv(t) && StillHeld(s.held, t.held)
      && t.lru == Without(s.lru, s.m[key]) + [s.nextId] && Recent(uses + [s.nextId], t.lru)
      && t.m == s.m[key := s.nextId] && t.nextId == s.nextId + 1 && s.nextId in t.held && t.held[s.nextId] == 1
  {
    hide Inv, Without, Unreffed, Recent, StillHeld;
    var id := s.m[key];
    NotListed(s);
    MappedIsListed(s, key);
    ListedIsHandle(s, id);
    EvictKeepsInv(s, id);
    ChargeFits(s, id);
    ReplacedIs(s, key, charge, id);
    AddKeepsInv(Evicted(s, id), key, charge);
    HeldByAll(s.held);
    EvictKeepsHeld(s, id, s.held);
    OneMoreHeld(s.held, Evicted(s, id).held, s.nextId);
    ReplacedIsNewest(s, uses, id, s.nextId);
  }

  lemma {:induction false} PutAdds(s: Shard, uses: seq<nat>, key: Bytes, charge: nat)
    requires Inv(s) && Recent(uses, s.lru) && key !in s.m
    ensures var t := Added(Removed(s, key), key, charge);
      && t == Added(s, key, charge) && Inv(t) && StillHeld(s.held, t.held) && Recent(uses + [s.nextId], s.lru + [s.nextId])
      && t.m == s.m[key := s.nextId] && t.nextId == s.nextId + 1 && s.nextId in t.held && t.held[s.nextId] == 1
  {
    hide Inv, Recent, StillHeld;
    NotListed(s);
    AddKeepsInv(s, key, charge);
    HeldByAll(s.held);
    OneMoreHeld(s.held, s.held, s.nextId);
    UseIsNewest(uses, s.lru, s.nextId);
  }

  ghost predicate SameCharges(before: map<nat, Handle>, after: map<nat, Handle>)
  {
    forall id :: id in after ==> id in before && after[id].charge == before[id].charge
  }

  /** Without the last eviction, the charges would not fit. */
  ghost predicate LastWasNeeded(s: Shard, s': Shard, capacity: nat)
  {
    && |s'.lru| < |s.lru|
    && var id := s.lru[|s.lru| - |s'.lru| - 1];
       id in s.handles && s'.usage + (if id in s'.handles then 0 else s.handles[id].charge) > capacity
  }

  lemma {:induction false} EvictionWasNeeded(s0: Shard, s: Shard, capacity: nat, n: nat)
    requires Inv(s) && s.usage > capacity && s.lru != [] && SameCharges(s0.handles, s.handles)
    requires n <= |s0.lru| && s.lru == s0.lru[n..]
    ensures s.lru[0] in s.handles && s.handles[s.lru[0]].refs > 0
    ensures LastWasNeeded(s0, Evicted(s, s.lru[0]), capacity)
    ensures SameCharges(s0.handles, Evicted(s, s.lru[0]).handles)
  {
    hide Inv;
    ListedIsHandle(s, s.lru[0]);
    ChargeFits(s, s.lru[0]);
    assert Without(s.lru, s.lru[0]) == s.lru[1..];
  }

  /** No one loses a handle they hold. */
  ghost predicate StillHeld(before: map<nat, nat>, after: map<nat, nat>)
  {
    forall id :: id in before && before[id] > 0 ==> id in after && after[id] == before[id]
  }

  lemma {:induction false} HeldByAll(held: map<nat, nat>)
    ensures StillHeld(held, held)
  {
  }

  lemma {:induction false} OneMoreHeld(before: map<nat, nat>, after: map<nat, nat>, id: nat)
    requires StillHeld(before, after) && id !in before
    ensures StillHeld(before, after[id := 1])
  {
  }

  /** The new entry takes the newest place and the one it replaces leaves its own. */
  lemma {:induction false} ReplacedIsNewest(s: Shard, uses: seq<nat>, older: nat, id: nat)
    requires Inv(s) && Recent(uses, s.lru) && older in s.lru && id !in s.lru
    ensures Without(s.lru + [id], older) == Without(s.lru, older) + [id]
    ensures Recent(uses + [id], Without(s.lru, older) + [id])
  {
    hide Inv, Recent, Without;
    ListIsUnrepeated(s);
    WithoutLast(s.lru, older, id);
    WithoutMembers(s.lru, older);
    WithoutIsRecent(uses, s.lru, older);
    UseIsNewest(uses, Without(s.lru, older), id);
  }

  lemma {:induction false} EvictKeepsHeld(s: Shard, id: nat, before: map<nat, nat>)
    requires Inv(s) && id in s.lru && StillHeld(before, s.held)
    ensures id in s.handles && s.handles[id].refs > 0 && StillHeld(before, Evicted(s, id).held)
  {
    ListedIsHandle(s, id);
    hide ListInv, UsageInv, DeletedInv;
  }

  lemma {:induction false} RemovedCounter(s: Shard, key: Bytes)
    ensures Removed(s, key).nextId == s.nextId
  {
  }

  lemma {:induction false} MappedIsListed(s: Shard, key: Bytes)
    requires Inv(s) && key in s.m
    ensures s.m[key] in s.lru && s.m[key] in s.handles && s.m[key] in s.held && s.handles[s.m[key]].key == key
  {
  }

  lemma {:induction false} ChargeFits(s: Shard, id: nat)
    requires Inv(s) && id in s.handles
    ensures s.usage >= s.handles[id].charge
  {
    FreedCharge(s, id);
  }

  /** The new entry is in and the one it replaces is off the list, but still counted. */
  function Beside(s: Shard, key: Bytes, charge: nat): (t: Shard)
    requires key in s.m
    ensures s.nextId != s.m[key] && s.m[key] in s.handles ==> s.m[key] in t.handles && t.handles[s.m[key]] == s.handles[s.m[key]]
  {
    s.(handles := s.handles[s.nextId := Handle(key, charge, 2)], lru := Without(s.lru + [s.nextId], s.m[key]),
       m := s.m[key := s.nextId], usage := s.usage + charge, nextId := s.nextId + 1,
       held := s.held[s.nextId := 1], live := s.live + [s.nextId])
  }

  /** Adding first and evicting the old entry second is evicting first and adding second. */
  lemma {:induction false} ReplacedIs(s: Shard, key: Bytes, charge: nat, id: nat)
    requires Inv(s) && key in s.m && s.m[key] == id && id in s.handles && s.handles[id].refs > 0
    ensures s.nextId != id
    ensures Unreffed(Beside(s, key, charge), id) == Added(Evicted(s, id), key, charge)
  {
    hide Inv, Without;
    NotListed(s);
    MappedIsListed(s, key);
    ChargeFits(s, id);
    IsLive(s, id);
    WithoutLast(s.lru, id, s.nextId);
    WithoutLast(s.live, id, s.nextId);
    assert s.m[key := s.nextId] == (s.m - {key})[key := s.nextId];
    assert s.handles[s.nextId := Handle(key, charge, 2)] - {id} == (s.handles - {id})[s.nextId := Handle(key, charge, 2)];
    assert s.held[s.nextId := 1] - {id} == (s.held - {id})[s.nextId := 1];
    var e := s.handles[id].(refs := s.handles[id].refs - 1);
    assert s.handles[s.nextId := Handle(key, charge, 2)][id := e] == s.handles[id := e][s.nextId := Handle(key, charge, 2)];
  }

  lemma {:induction false} IsLive(s: Shard, id: nat)
    requires Inv(s) && id in s.handles
    ensures id in s.live
  {
  }
}

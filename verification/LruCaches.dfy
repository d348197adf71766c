/** LRUCache: a shard of the cache. */
module LruCaches {
  import opened Boundary
  import opened HandleTables
  import opened LruLists

  class LRUCache {
    const table: HandleTable
    const capacity: nat
    var usage: nat
    /** The handles allocated, by address. */
    var handles: Handles
    /** The LRU list, oldest first, and the list of handles in use by clients. */
    var lru: seq<nat>
    var inUse: seq<nat>
    var nextAddress: nat
    /** How often each handle is held by clients; the specification. */
    ghost var held: multiset<nat>

    /** All but the table, with the handles in `gone` just taken out of that. */
    ghost predicate Whole(gone: set<nat>)
      reads this, table
    {
      && table.Valid()
      && ListsOk(handles, lru, inUse)
      && RefsOk(handles, held)
      && UsageOk(handles, lru, inUse, usage)
      && TableOk(handles, table.contents, gone)
      && (forall id | id in handles :: id < nextAddress)
    }

    ghost predicate Valid()
      reads this, table
    {
      Whole({})
    }

    ghost function State(): Shard
      reads this, table
    {
      Shard(table.contents, handles, lru, inUse)
    }

    constructor (capacity: nat, hash: Hash)
      ensures Valid() && fresh(table) && table.contents == map[] && handles == map[] && held == multiset{}
      ensures this.capacity == capacity && usage == 0 && lru == [] && inUse == []
    {
      table := new HandleTable(hash);
      this.capacity := capacity;
      usage, handles, lru, inUse, nextAddress, held := 0, map[], [], [], 0, multiset{};
    }

    /** Ref. */
    method Ref(id: nat)
      requires Valid() && id in handles
      modifies this`handles, this`lru, this`inUse, this`held
      ensures Valid() && held == old(held) + multiset{id}
      ensures handles == old(handles)[id := Referred(old(handles)[id])]
      ensures if id in old(lru) then lru == Without(old(lru), id) && inUse == old(inUse) + [id]
              else lru == old(lru) && inUse == old(inUse)
    {
      hide ListsOk, UsageOk, RefsOk, TableOk, Without, HandleTable.Valid;
      ghost var now := handles[id := Referred(handles[id])];
      RefKeepsLists(handles, lru, inUse, id);
      RefKeepsRefs(handles, held, id);
      RefsPositive(handles, held, id);
      SameKeysTable(handles, now, table.contents);
      MoveKeepsUsage(handles, now, lru, inUse, id, usage);
      OnWhichList(handles, lru, inUse, id);
      if handles[id].refs == 1 && handles[id].inCache {
        lru := Without(lru, id);
        inUse := inUse + [id];
      }
      handles := handles[id := Referred(handles[id])];
      held := held + multiset{id};
    }

    /** Lookup. */
    method Lookup(key: Key) returns (r: Option<nat>)
      requires Valid()
      modifies this`handles, this`lru, this`inUse, this`held
      ensures Valid()
      ensures r == if key in table.contents then Some(table.contents[key]) else None
      ensures r.None? ==> State() == old(State()) && held == old(held)
      ensures r.Some? ==>
                var id := r.value;
                && id in old(handles) && old(handles)[id].key == key && held == old(held) + multiset{id}
                && handles == old(handles)[id := Referred(old(handles)[id])]
                && if id in old(lru) then lru == Without(old(lru), id) && inUse == old(inUse) + [id]
                   else lru == old(lru) && inUse == old(inUse)
    {
      hide ListsOk, UsageOk, RefsOk, TableOk, Without, HandleTable.Valid;
      r := table.Lookup(key);
      if r.Some? {
        RemovedFromTable(handles, table.contents, key);
        Ref(r.value);
      }
    }

    /** Release: Unref of a reference that a client holds. */
    method Release(id: nat)
      requires Valid() && id in held
      modifies this`handles, this`lru, this`inUse, this`held
      ensures Valid() && held == old(held) - multiset{id} && table.contents == old(table.contents)
      ensures id in old(handles)
      ensures old(handles)[id].refs == 1 ==> handles == old(handles) - {id} && lru == old(lru) && inUse == old(inUse)
      ensures old(handles)[id].refs > 1 ==> handles == old(handles)[id := old(handles)[id].(refs := old(handles)[id].refs - 1)]
      ensures old(handles)[id].refs > 1 ==>
                if id in old(inUse) && old(handles)[id].refs == 2 then lru == old(lru) + [id] && inUse == Without(old(inUse), id)
                else lru == old(lru) && inUse == old(inUse)
    {
      hide ListsOk, UsageOk, RefsOk, TableOk, Without, HandleTable.Valid;
      UnrefKeepsRefs(handles, held, id);
      if handles[id].refs == 1 {
        ReleaseLast(id);
      } else {
        ReleaseOne(id);
      }
    }

    method ReleaseLast(id: nat)
      requires Valid() && id in held && id in handles && handles[id].refs == 1
      modifies this`handles, this`held
      ensures Valid() && held == old(held) - multiset{id} && handles == old(handles) - {id}
    {
      hide ListsOk, UsageOk, RefsOk, TableOk, Without, HandleTable.Valid;
      UnrefKeepsRefs(handles, held, id);
      FreeKeepsLists(handles, lru, inUse, id, usage);
      OutsideKeepsTable(handles, handles - {id}, table.contents, id);
      Free(id);
    }

    method ReleaseOne(id: nat)
      requires Valid() && id in held && id in handles && handles[id].refs > 1
      modifies this`handles, this`held, this`lru, this`inUse
      ensures Valid() && held == old(held) - multiset{id}
      ensures handles == old(handles)[id := old(handles)[id].(refs := old(handles)[id].refs - 1)]
      ensures if id in old(inUse) && old(handles)[id].refs == 2 then lru == old(lru) + [id] && inUse == Without(old(inUse), id)
              else lru == old(lru) && inUse == old(inUse)
    {
      hide ListsOk, UsageOk, RefsOk, TableOk, Without, HandleTable.Valid;
      ghost var now := handles[id := handles[id].(refs := handles[id].refs - 1)];
      UnrefKeepsRefs(handles, held, id);
      UnrefKeepsLists(handles, lru, inUse, id);
      SameKeysTable(handles, now, table.contents);
      MoveKeepsUsage(handles, now, lru, inUse, id, usage);
      OnWhichList(handles, lru, inUse, id);
      Unref(id);
    }

    /** The last reference goes, and with it the handle. */
    method Free(id: nat)
      modifies this`handles, this`held
      ensures handles == old(handles) - {id} && held == old(held) - multiset{id}
    {
      hide *;
      held := held - multiset{id};
      handles := handles - {id};
    }

    /** One reference of several goes; a cached handle that no client holds any more moves to the LRU list. */
    method Unref(id: nat)
      requires id in handles && handles[id].refs > 1
      modifies this`handles, this`held, this`lru, this`inUse
      ensures held == old(held) - multiset{id}
      ensures handles == old(handles)[id := old(handles)[id].(refs := old(handles)[id].refs - 1)]
      ensures if old(handles)[id].inCache && old(handles)[id].refs == 2
              then lru == old(lru) + [id] && inUse == Without(old(inUse), id)
              else lru == old(lru) && inUse == old(inUse)
    {
      hide *;
      var h := handles[id];
      held := held - multiset{id};
      handles := handles[id := h.(refs := h.refs - 1)];
      if h.inCache && h.refs == 2 {
        inUse := Without(inUse, id);
        lru := lru + [id];
      }
    }

    /** FinishErase: the handle has been taken out of the table, and now leaves the cache; it is freed if nobody
        holds it. */
    method FinishErase(id: nat)
      requires Whole({id}) && id in handles && handles[id].inCache
      modifies this`usage, this`handles, this`lru, this`inUse
      ensures Valid() && usage == old(usage) - old(handles)[id].charge
      ensures lru == Without(old(lru), id) && inUse == Without(old(inUse), id)
      ensures handles == OutOfCache(old(handles), held, id)
    {
      hide ListsOk, UsageOk, RefsOk, TableOk, Without, HandleTable.Valid;
      var h := handles[id];
      OutKeepsRefs(handles, held, id);
      ghost var now := if h.refs == 1 then handles - {id} else handles[id := Dropped(h)];
      OutKeepsLists(handles, lru, inUse, id, now);
      OutKeepsUsage(handles, lru, inUse, id, now, usage);
      OutKeepsTable(handles, now, table.contents, id);
      lru := Without(lru, id);
      inUse := Without(inUse, id);
      usage := usage - h.charge;
      if h.refs == 1 {
        handles := handles - {id};
      } else {
        handles := handles[id := h.(inCache := false, refs := h.refs - 1)];
      }
    }

    /** Erase. */
    method Erase(key: Key)
      requires Valid()
      modifies this`usage, this`handles, this`lru, this`inUse, table
      ensures Valid() && table.contents == old(table.contents) - {key}
      ensures forall id | id in held :: id in handles
      ensures key !in old(table.contents) ==> lru == old(lru) && inUse == old(inUse) && handles == old(handles) && usage == old(usage)
      ensures key in old(table.contents) ==>
                var id := old(table.contents)[key];
                && lru == Without(old(lru), id) && inUse == Without(old(inUse), id)
                && id in old(handles) && usage == old(usage) - old(handles)[id].charge
                && handles == OutOfCache(old(handles), held, id)
    {
      hide ListsOk, UsageOk, RefsOk, TableOk, Without, HandleTable.Valid;
      RemovedFromTable(handles, table.contents, key);
      var was := table.Remove(key);
      if was.Some? {
        FinishErase(was.value);
      }
      HeldExist(handles, held);
    }

    /** A cached handle that nobody holds is taken out and freed. */
    method EraseUnheld(id: nat)
      requires Valid() && id in handles && handles[id].inCache && id !in held
      modifies this`usage, this`handles, this`lru, this`inUse, table
      ensures Valid() && lru == Without(old(lru), id) && inUse == Without(old(inUse), id) && handles == old(handles) - {id}
      ensures table.contents == old(table.contents) - {old(handles)[id].key} && usage == old(usage) - old(handles)[id].charge
    {
      hide ListsOk, UsageOk, RefsOk, TableOk, Without, HandleTable.Valid, OutOfCache, Dropped;
      FoundInTable(handles, table.contents, id);
      FreedIfUnheld(handles, held, id);
      Erase(handles[id].key);
    }

    /** One round of eviction: the oldest handle of the LRU list goes. */
    method EvictOldest()
      requires Valid() && lru != []
      modifies this`usage, this`handles, this`lru, this`inUse, table
      ensures Valid() && Evicts(old(State()), State(), 1)
      ensures old(lru)[0] in old(handles) && old(handles)[old(lru)[0]].inCache
      ensures usage == old(usage) - old(handles)[old(lru)[0]].charge
    {
      hide ListsOk, UsageOk, RefsOk, TableOk, Without, HandleTable.Valid, Evicts;
      ghost var a := State();
      Oldest(handles, lru, inUse, held);
      EraseUnheld(lru[0]);
      EvictsFirst(a, State());
    }

    /** Insert.  The handle is cached unless the capacity is zero; then the oldest unused handles go until the usage
        fits or none is left. */
    method Insert(key: Key, charge: nat) returns (id: nat)
      requires Valid()
      modifies this, table
      ensures Valid() && id !in old(handles) && id in handles && handles[id].key == key && handles[id].charge == charge
      ensures held == old(held) + multiset{id}
      ensures usage <= capacity || lru == []
      ensures capacity > 0 ==> key in table.contents && table.contents[key] == id
      ensures capacity == 0 && old(usage) == 0 ==> table.contents == old(table.contents)
      ensures exists added, n: nat ::
                && Adds(old(State()), added, old(held), capacity, key, charge, id) && Evicts(added, State(), n)
                && (n > 0 ==> added.lru[n - 1] in added.handles && usage + added.handles[added.lru[n - 1]].charge > capacity)
    {
      hide ListsOk, UsageOk, Without, RefsOk, TableOk, HandleTable.Valid, Evicts, Adds;
      id := AddHandle(key, charge);
      ghost var added, n: nat := State(), 0;
      EvictsNothing(added);
      while usage > capacity && lru != []
        invariant Valid() && id in handles
        invariant handles[id] == LRUHandle(key, charge, capacity > 0, if capacity > 0 then 2 else 1)
        invariant held == old(held) + multiset{id}
        invariant Evicts(added, State(), n) && n <= |added.lru|
        invariant n > 0 ==> added.lru[n - 1] in added.handles && usage + added.handles[added.lru[n - 1]].charge > capacity
        invariant capacity > 0 ==> key in table.contents && table.contents[key] == id
        invariant old(usage) == 0 && capacity == 0 ==> usage == 0 && table.contents == old(table.contents)
        decreases |lru|
      {
        NotOldest(handles, lru, inUse, table.contents, id);
        ghost var before := State();
        EvictOldest();
        EvictsOneMore(added, before, State(), n);
        EvictedAre(added, before, n);
        EvictedIs(before, State());
        n := n + 1;
      }
    }

    method AddInside(id: nat, h: LRUHandle)
      modifies this`handles, this`held, this`inUse, this`usage
      ensures handles == old(handles)[id := h] && held == old(held) + multiset{id}
      ensures inUse == old(inUse) + [id] && usage == old(usage) + h.charge
    {
      hide *;
      handles := handles[id := h];
      held := held + multiset{id};
      inUse := inUse + [id];
      usage := usage + h.charge;
    }

    /** Insert up to the evictions. */
    method AddHandle(key: Key, charge: nat) returns (id: nat)
      requires Valid()
      modifies this, table
      ensures Valid() && id !in old(handles) && id in handles
      ensures handles[id] == LRUHandle(key, charge, capacity > 0, if capacity > 0 then 2 else 1)
      ensures held == old(held) + multiset{id}
      ensures Adds(old(State()), State(), old(held), capacity, key, charge, id)
      ensures table.contents == if capacity > 0 then old(table.contents)[key := id] else old(table.contents)
      ensures capacity == 0 ==> usage == old(usage)
    {
      hide ListsOk, UsageOk, RefsOk, TableOk, Without, HandleTable.Valid, OutOfCache;
      ghost var hs, was0, inUse0 := handles, held, inUse;
      id := nextAddress;
      nextAddress := nextAddress + 1;
      if capacity > 0 {
        var h := LRUHandle(key, charge, true, 2);
        NewInside(handles, lru, inUse, id, h, usage);
        NewKeepsRefs(handles, held, id, h);
        AddedToTable(handles, table.contents, id, h);
        AddInside(id, h);
        if key in table.contents {
          RemovedFromTable(hs, table.contents, key);
          RefsPositive(hs, was0, table.contents[key]);
        }
        var was := table.Insert(key, id);
        if was.Some? {
          FinishErase(was.value);
          AddsInPlace(hs, was0, id, was.value, h, inUse0);
        }
      } else {
        var h := LRUHandle(key, charge, false, 1);
        NewOutside(handles, lru, inUse, id, h, usage);
        NewKeepsRefs(handles, held, id, h);
        OutsideKeepsTable(handles, handles[id := h], table.contents, id);
        handles := handles[id := h];
        held := held + multiset{id};
      }
    }

    /** Prune: everything nobody holds goes, and nothing else. */
    method Prune()
      requires Valid()
      modifies this`usage, this`handles, this`lru, this`inUse, table
      ensures Valid() && lru == [] && Evicts(old(State()), State(), |old(lru)|)
      ensures forall id | id in held :: id in handles
    {
      hide ListsOk, UsageOk, RefsOk, TableOk, Evicts;
      ghost var a, n: nat := State(), 0;
      EvictsNothing(a);
      while lru != []
        invariant Valid() && Evicts(a, State(), n) && n + |lru| == |a.lru|
        decreases |lru|
      {
        ghost var before := State();
        EvictOldest();
        EvictsOneMore(a, before, State(), n);
        EvictedIs(before, State());
        n := n + 1;
      }
      HeldExist(handles, held);
    }
  }
}

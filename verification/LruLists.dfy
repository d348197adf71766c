/** What holds a cache shard together: handles, their references, and the two lists they are on. */
module LruLists {
  import opened HandleTables

  /** `refs` counts the clients' references and the cache's own. */
  datatype LRUHandle = LRUHandle(key: Key, charge: nat, inCache: bool, refs: nat)

  type Handles = map<nat, LRUHandle>

  /** LRU_Remove: unlinking a handle from the list it is on. */
  function Without(ids: seq<nat>, id: nat): seq<nat> {
    if ids == [] then []
    else Without(ids[..|ids| - 1], id) + if ids[|ids| - 1] == id then [] else [ids[|ids| - 1]]
  }

  ghost predicate Once(ids: seq<nat>) {
    forall i, j | 0 <= i < j < |ids| :: ids[i] != ids[j]
  }

  lemma {:induction false} WithoutMeaning(ids: seq<nat>, id: nat)
    ensures forall x :: x in Without(ids, id) <==> x in ids && x != id
    ensures Once(ids) ==> Once(Without(ids, id))
  {
    if ids != [] {
      var init, last := ids[..|ids| - 1], ids[|ids| - 1];
      WithoutMeaning(init, id);
      assert ids == init + [last];
      if Once(ids) && last != id {
        LastIsOther(ids);
        AppendOnce(Without(init, id), last);
      }
    }
  }

  lemma LastIsOther(ids: seq<nat>)
    requires ids != [] && Once(ids)
    ensures ids[|ids| - 1] !in ids[..|ids| - 1]
  {
  }

  lemma AppendOnce(ids: seq<nat>, id: nat)
    requires Once(ids) && id !in ids
    ensures Once(ids + [id])
  {
  }

  lemma {:induction false} WithoutAbsent(ids: seq<nat>, id: nat)
    requires id !in ids
    ensures Without(ids, id) == ids
  {
    if ids != [] {
      WithoutAbsent(ids[..|ids| - 1], id);
    }
  }

  /** Unlinking the oldest leaves the rest in order. */
  lemma {:induction false} WithoutFirst(ids: seq<nat>)
    requires ids != [] && Once(ids)
    ensures Without(ids, ids[0]) == ids[1..]
  {
    if |ids| > 1 {
      var init := ids[..|ids| - 1];
      WithoutFirst(init);
      assert ids[1..] == init[1..] + [ids[|ids| - 1]];
    } else {
      assert Without(ids[..0], ids[0]) == [];
    }
  }

  ghost predicate Known(hs: Handles, ids: seq<nat>) {
    forall id | id in ids :: id in hs
  }

  /** The charges of the handles on a list. */
  function Sum(hs: Handles, ids: seq<nat>): nat
    requires Known(hs, ids)
  {
    if ids == [] then 0 else Sum(hs, ids[..|ids| - 1]) + hs[ids[|ids| - 1]].charge
  }

  lemma {:induction false} SumWithout(hs: Handles, ids: seq<nat>, id: nat)
    requires Known(hs, ids) && Once(ids) && id in ids
    ensures Known(hs, Without(ids, id)) && Sum(hs, ids) == Sum(hs, Without(ids, id)) + hs[id].charge
  {
    WithoutMeaning(ids, id);
    var init, last := ids[..|ids| - 1], ids[|ids| - 1];
    LastIsOther(ids);
    if last == id {
      WithoutAbsent(init, id);
      assert Without(init, id) + [] == init;
    } else {
      SumWithout(hs, init, id);
      WithoutMeaning(init, id);
      SumAppend(hs, Without(init, id), last);
    }
  }

  lemma {:induction false} SumSame(hs: Handles, now: Handles, ids: seq<nat>)
    requires Known(hs, ids) && Known(now, ids) && forall id | id in ids :: now[id].charge == hs[id].charge
    ensures Sum(now, ids) == Sum(hs, ids)
  {
    if ids != [] {
      SumSame(hs, now, ids[..|ids| - 1]);
    }
  }

  // ---- The invariant, in parts

  /** Every handle in the cache is on exactly one list: the LRU list if only the cache refers to it. */
  ghost predicate ListsOk(hs: Handles, lru: seq<nat>, inUse: seq<nat>) {
    && Once(lru) && Once(inUse)
    && (forall id | id in lru :: id in hs && hs[id].inCache && hs[id].refs == 1)
    && (forall id | id in inUse :: id in hs && hs[id].inCache && hs[id].refs >= 2)
    && (forall id | id in hs && hs[id].inCache :: id in lru || id in inUse)
  }

  /** A handle exists as long as somebody refers to it, and its count says how often. */
  ghost predicate RefsOk(hs: Handles, held: multiset<nat>) {
    && (forall id | id in hs :: hs[id].refs == held[id] + (if hs[id].inCache then 1 else 0) && hs[id].refs > 0)
    && (forall id | id in held :: id in hs)
  }

  /** The table holds exactly the handles in the cache, but for `gone`, which has just been taken out of it. */
  ghost predicate TableOk(hs: Handles, contents: map<Key, nat>, gone: set<nat>) {
    && (forall key | key in contents ::
          contents[key] in hs && contents[key] !in gone && hs[contents[key]].inCache && hs[contents[key]].key == key)
    && (forall id | id in hs && hs[id].inCache && id !in gone :: hs[id].key in contents && contents[hs[id].key] == id)
  }

  ghost predicate UsageOk(hs: Handles, lru: seq<nat>, inUse: seq<nat>, usage: nat) {
    Known(hs, lru) && Known(hs, inUse) && usage == Sum(hs, lru) + Sum(hs, inUse)
  }

  /** No handle is on both lists, and one that is on a list has its charge counted once. */
  lemma OnOneList(hs: Handles, lru: seq<nat>, inUse: seq<nat>, id: nat)
    requires ListsOk(hs, lru, inUse) && id in hs && hs[id].inCache
    ensures (id in lru) != (id in inUse)
    ensures id in lru <==> hs[id].refs == 1
  {
  }

  /** Which list a handle is on. */
  lemma OnWhichList(hs: Handles, lru: seq<nat>, inUse: seq<nat>, id: nat)
    requires ListsOk(hs, lru, inUse) && id in hs
    ensures id in lru <==> hs[id].inCache && hs[id].refs == 1
    ensures id in inUse <==> hs[id].inCache && hs[id].refs >= 2
  {
  }

  // ---- One more reference

  function Referred(h: LRUHandle): LRUHandle {
    h.(refs := h.refs + 1)
  }

  lemma RefKeepsLists(hs: Handles, lru: seq<nat>, inUse: seq<nat>, id: nat)
    requires ListsOk(hs, lru, inUse) && id in hs
    ensures var now := hs[id := Referred(hs[id])];
            if hs[id].refs == 1 && hs[id].inCache then ListsOk(now, Without(lru, id), inUse + [id])
            else hs[id].refs > 0 ==> ListsOk(now, lru, inUse)
  {
    if hs[id].refs == 1 && hs[id].inCache {
      OnOneList(hs, lru, inUse, id);
      WithoutMeaning(lru, id);
      AppendOnce(inUse, id);
    }
  }

  lemma MoveKeepsUsage(hs: Handles, now: Handles, lru: seq<nat>, inUse: seq<nat>, id: nat, usage: nat)
    requires ListsOk(hs, lru, inUse) && UsageOk(hs, lru, inUse, usage) && id in hs
    requires now.Keys == hs.Keys && forall x | x in hs :: now[x].charge == hs[x].charge
    ensures UsageOk(now, lru, inUse, usage)
    ensures id in lru ==> UsageOk(now, Without(lru, id), inUse + [id], usage)
    ensures id in inUse ==> UsageOk(now, lru + [id], Without(inUse, id), usage)
  {
    SumSame(hs, now, lru);
    SumSame(hs, now, inUse);
    WithoutMeaning(lru, id);
    WithoutMeaning(inUse, id);
    if id in lru {
      SumWithout(now, lru, id);
      SumAppend(now, inUse, id);
    }
    if id in inUse {
      SumWithout(now, inUse, id);
      SumAppend(now, lru, id);
    }
  }

  lemma SumAppend(hs: Handles, ids: seq<nat>, id: nat)
    requires Known(hs, ids) && id in hs
    ensures Known(hs, ids + [id]) && Sum(hs, ids + [id]) == Sum(hs, ids) + hs[id].charge
  {
    assert (ids + [id])[..|ids|] == ids;
  }

  // ---- One reference less, the handle staying

  lemma UnrefKeepsLists(hs: Handles, lru: seq<nat>, inUse: seq<nat>, id: nat)
    requires ListsOk(hs, lru, inUse) && id in hs && hs[id].refs >= 2
    ensures var now := hs[id := hs[id].(refs := hs[id].refs - 1)];
            if hs[id].inCache && hs[id].refs == 2 then ListsOk(now, lru + [id], Without(inUse, id))
            else ListsOk(now, lru, inUse)
  {
    if hs[id].inCache && hs[id].refs == 2 {
      OnOneList(hs, lru, inUse, id);
      WithoutMeaning(inUse, id);
      AppendOnce(lru, id);
    }
  }

  // ---- Out of the cache

  /** Without the cache's reference. */
  function Dropped(h: LRUHandle): LRUHandle
    requires h.refs > 0
  {
    h.(inCache := false, refs := h.refs - 1)
  }

  /** Taking a handle out of the cache: off its list, and its charge out of the usage. */
  lemma OutKeepsLists(hs: Handles, lru: seq<nat>, inUse: seq<nat>, id: nat, now: Handles)
    requires ListsOk(hs, lru, inUse) && id in hs && hs[id].inCache
    requires id in now ==> !now[id].inCache
    requires forall x | x != id :: (x in now <==> x in hs) && (x in hs ==> now[x] == hs[x])
    ensures ListsOk(now, Without(lru, id), Without(inUse, id))
  {
    WithoutMeaning(lru, id);
    WithoutMeaning(inUse, id);
  }

  lemma OutKeepsUsage(hs: Handles, lru: seq<nat>, inUse: seq<nat>, id: nat, now: Handles, usage: nat)
    requires ListsOk(hs, lru, inUse) && UsageOk(hs, lru, inUse, usage) && id in hs && hs[id].inCache
    requires forall x | x != id :: (x in now <==> x in hs) && (x in hs ==> now[x] == hs[x])
    ensures usage >= hs[id].charge && UsageOk(now, Without(lru, id), Without(inUse, id), usage - hs[id].charge)
  {
    OnOneList(hs, lru, inUse, id);
    WithoutMeaning(lru, id);
    WithoutMeaning(inUse, id);
    if id in lru {
      SumWithout(hs, lru, id);
      WithoutAbsent(inUse, id);
    } else {
      SumWithout(hs, inUse, id);
      WithoutAbsent(lru, id);
    }
    SumSame(hs, now, Without(lru, id));
    SumSame(hs, now, Without(inUse, id));
  }

  /** A handle outside the cache is on no list, so it may come and go. */
  lemma FreeKeepsLists(hs: Handles, lru: seq<nat>, inUse: seq<nat>, id: nat, usage: nat)
    requires ListsOk(hs, lru, inUse) && UsageOk(hs, lru, inUse, usage) && id in hs && !hs[id].inCache
    ensures ListsOk(hs - {id}, lru, inUse) && UsageOk(hs - {id}, lru, inUse, usage)
  {
    SumSame(hs, hs - {id}, lru);
    SumSame(hs, hs - {id}, inUse);
  }

  lemma NewOutside(hs: Handles, lru: seq<nat>, inUse: seq<nat>, id: nat, h: LRUHandle, usage: nat)
    requires ListsOk(hs, lru, inUse) && UsageOk(hs, lru, inUse, usage) && id !in hs && !h.inCache
    ensures ListsOk(hs[id := h], lru, inUse) && UsageOk(hs[id := h], lru, inUse, usage)
  {
    SumSame(hs, hs[id := h], lru);
    SumSame(hs, hs[id := h], inUse);
  }

  lemma NewInside(hs: Handles, lru: seq<nat>, inUse: seq<nat>, id: nat, h: LRUHandle, usage: nat)
    requires ListsOk(hs, lru, inUse) && UsageOk(hs, lru, inUse, usage) && id !in hs && h.inCache && h.refs >= 2
    ensures ListsOk(hs[id := h], lru, inUse + [id]) && UsageOk(hs[id := h], lru, inUse + [id], usage + h.charge)
  {
    SumSame(hs, hs[id := h], lru);
    SumSame(hs, hs[id := h], inUse);
    SumAppend(hs[id := h], inUse, id);
    AppendOnce(inUse, id);
  }

  // ---- The counts

  lemma RefKeepsRefs(hs: Handles, held: multiset<nat>, id: nat)
    requires RefsOk(hs, held) && id in hs
    ensures RefsOk(hs[id := Referred(hs[id])], held + multiset{id})
  {
  }

  lemma UnrefKeepsRefs(hs: Handles, held: multiset<nat>, id: nat)
    requires RefsOk(hs, held) && id in held
    ensures id in hs && hs[id].refs > 0
    ensures hs[id].refs == 1 ==> !hs[id].inCache && RefsOk(hs - {id}, held - multiset{id})
    ensures hs[id].refs > 1 ==> RefsOk(hs[id := hs[id].(refs := hs[id].refs - 1)], held - multiset{id})
  {
  }

  lemma OutKeepsRefs(hs: Handles, held: multiset<nat>, id: nat)
    requires RefsOk(hs, held) && id in hs && hs[id].inCache
    ensures hs[id].refs > 0 && (hs[id].refs == 1 <==> id !in held)
    ensures hs[id].refs == 1 ==> RefsOk(hs - {id}, held)
    ensures hs[id].refs > 1 ==> RefsOk(hs[id := Dropped(hs[id])], held)
  {
  }

  lemma NewKeepsRefs(hs: Handles, held: multiset<nat>, id: nat, h: LRUHandle)
    requires RefsOk(hs, held) && id !in hs && h.refs == 1 + if h.inCache then 1 else 0
    ensures RefsOk(hs[id := h], held + multiset{id})
  {
  }

  lemma RefsPositive(hs: Handles, held: multiset<nat>, id: nat)
    requires RefsOk(hs, held) && id in hs
    ensures hs[id].refs > 0
  {
  }

  lemma HeldExist(hs: Handles, held: multiset<nat>)
    requires RefsOk(hs, held)
    ensures forall id | id in held :: id in hs
  {
  }

  // ---- The table

  lemma SameKeysTable(hs: Handles, now: Handles, contents: map<Key, nat>)
    requires TableOk(hs, contents, {}) && now.Keys == hs.Keys
    requires forall x | x in hs :: now[x].key == hs[x].key && now[x].inCache == hs[x].inCache
    ensures TableOk(now, contents, {})
  {
  }

  lemma OutsideKeepsTable(hs: Handles, now: Handles, contents: map<Key, nat>, id: nat)
    requires TableOk(hs, contents, {}) && (id in hs ==> !hs[id].inCache) && (id in now ==> !now[id].inCache)
    requires forall x | x != id :: (x in now <==> x in hs) && (x in hs ==> now[x] == hs[x])
    ensures TableOk(now, contents, {})
  {
  }

  lemma OutKeepsTable(hs: Handles, now: Handles, contents: map<Key, nat>, id: nat)
    requires TableOk(hs, contents, {id}) && (id in now ==> !now[id].inCache)
    requires forall x | x != id :: (x in now <==> x in hs) && (x in hs ==> now[x] == hs[x])
    ensures TableOk(now, contents, {})
  {
  }

  lemma RemovedFromTable(hs: Handles, contents: map<Key, nat>, key: Key)
    requires TableOk(hs, contents, {})
    ensures key in contents ==> contents[key] in hs && hs[contents[key]].inCache && hs[contents[key]].key == key
    ensures TableOk(hs, contents - {key}, if key in contents then {contents[key]} else {})
  {
  }

  lemma AddedToTable(hs: Handles, contents: map<Key, nat>, id: nat, h: LRUHandle)
    requires TableOk(hs, contents, {}) && id !in hs && h.inCache
    ensures TableOk(hs[id := h], contents[h.key := id], if h.key in contents then {contents[h.key]} else {})
    ensures h.key in contents ==> contents[h.key] in hs && hs[contents[h.key]].inCache
  {
  }

  lemma FoundInTable(hs: Handles, contents: map<Key, nat>, id: nat)
    requires TableOk(hs, contents, {}) && id in hs && hs[id].inCache
    ensures hs[id].key in contents && contents[hs[id].key] == id
  {
  }

  /** The oldest of the LRU list is held by nobody. */
  lemma Oldest(hs: Handles, lru: seq<nat>, inUse: seq<nat>, held: multiset<nat>)
    requires ListsOk(hs, lru, inUse) && RefsOk(hs, held) && lru != []
    ensures lru[0] in hs && hs[lru[0]].inCache && hs[lru[0]].refs == 1 && lru[0] !in held
    ensures Without(lru, lru[0]) == lru[1..] && Without(inUse, lru[0]) == inUse
  {
    assert lru[0] in lru;
    WithoutFirst(lru);
    WithoutAbsent(inUse, lru[0]);
  }

  /** A handle somebody holds is not the oldest of the LRU list, nor has it its key. */
  lemma NotOldest(hs: Handles, lru: seq<nat>, inUse: seq<nat>, contents: map<Key, nat>, id: nat)
    requires ListsOk(hs, lru, inUse) && TableOk(hs, contents, {}) && lru != [] && id in hs && (hs[id].inCache ==> hs[id].refs >= 2)
    ensures lru[0] in hs && lru[0] != id
    ensures hs[id].inCache ==> hs[lru[0]].key != hs[id].key
  {
    assert lru[0] in lru;
  }

  // ---- What the operations leave of a shard

  /** A shard: its table, its handles, and its two lists. */
  datatype Shard = Shard(contents: map<Key, nat>, handles: Handles, lru: seq<nat>, inUse: seq<nat>)

  ghost function IdSet(ids: seq<nat>): set<nat> {
    set id | id in ids
  }

  ghost function WithoutIds(contents: map<Key, nat>, gone: set<nat>): map<Key, nat> {
    map key | key in contents && contents[key] !in gone :: contents[key]
  }

  /** A handle leaves the cache, and is freed unless a client holds it. */
  ghost function OutOfCache(hs: Handles, held: multiset<nat>, id: nat): Handles
    requires id in hs && (id in held ==> hs[id].refs > 0)
  {
    if id in held then hs[id := Dropped(hs[id])] else hs - {id}
  }

  /** The `n` oldest unused handles are gone, with their keys; nothing else changed. */
  ghost predicate Evicts(a: Shard, b: Shard, n: nat) {
    && n <= |a.lru| && b.lru == a.lru[n..] && b.inUse == a.inUse
    && b.handles == a.handles - IdSet(a.lru[..n])
    && b.contents == WithoutIds(a.contents, IdSet(a.lru[..n]))
  }

  /** A new handle is in use, in place of the handle its key had, if any; nothing else changed.  Without capacity it
      is not cached. */
  ghost predicate Adds(a: Shard, b: Shard, held: multiset<nat>, capacity: nat, key: Key, charge: nat, id: nat) {
    if capacity == 0 then
      b == a.(handles := a.handles[id := LRUHandle(key, charge, false, 1)])
    else
      var h := LRUHandle(key, charge, true, 2);
      if key in a.contents then
        var was := a.contents[key];
        && was in a.handles && (was in held ==> a.handles[was].refs > 0)
        && b == Shard(a.contents[key := id], OutOfCache(a.handles, held, was)[id := h], Without(a.lru, was), Without(a.inUse, was) + [id])
      else b == Shard(a.contents[key := id], a.handles[id := h], a.lru, a.inUse + [id])
  }

  lemma EvictsNothing(a: Shard)
    ensures Evicts(a, a, 0)
  {
    assert a.lru[..0] == [] && a.lru[0..] == a.lru && IdSet([]) == {};
    assert WithoutIds(a.contents, {}) == a.contents;
  }

  lemma EvictsOneMore(a: Shard, b: Shard, c: Shard, n: nat)
    requires Evicts(a, b, n) && Evicts(b, c, 1)
    ensures Evicts(a, c, n + 1)
  {
    assert b.lru[..1] == [b.lru[0]] && b.lru[0] == a.lru[n];
    assert a.lru[..n + 1] == a.lru[..n] + [a.lru[n]] && a.lru[n..][1..] == a.lru[n + 1..];
    assert IdSet([b.lru[0]]) == {b.lru[0]} && IdSet(a.lru[..n + 1]) == IdSet(a.lru[..n]) + {a.lru[n]};
  }

  lemma FreedIfUnheld(hs: Handles, held: multiset<nat>, id: nat)
    requires id in hs && id !in held
    ensures OutOfCache(hs, held, id) == hs - {id}
  {
  }

  lemma EvictedAre(a: Shard, b: Shard, n: nat)
    requires Evicts(a, b, n) && b.lru != []
    ensures n < |a.lru| && a.lru[n] == b.lru[0]
    ensures b.lru[0] in b.handles ==> b.lru[0] in a.handles && a.handles[b.lru[0]] == b.handles[b.lru[0]]
  {
  }

  lemma EvictedIs(a: Shard, b: Shard)
    requires Evicts(a, b, 1)
    ensures a.lru != [] && b.lru == a.lru[1..] && b.inUse == a.inUse
    ensures b.handles == a.handles - {a.lru[0]} && b.contents == WithoutIds(a.contents, {a.lru[0]})
  {
    assert a.lru[..1] == [a.lru[0]] && IdSet([a.lru[0]]) == {a.lru[0]};
  }

  /** Taking the key of a cached handle out of the table takes out that handle only. */
  lemma KeyIsHandle(hs: Handles, contents: map<Key, nat>, id: nat)
    requires TableOk(hs, contents, {}) && id in hs && hs[id].inCache
    ensures contents - {hs[id].key} == WithoutIds(contents, {id})
  {
  }

  lemma EvictsFirst(a: Shard, b: Shard)
    requires a.lru != [] && TableOk(a.handles, a.contents, {}) && a.lru[0] in a.handles && a.handles[a.lru[0]].inCache
    requires b == Shard(a.contents - {a.handles[a.lru[0]].key}, a.handles - {a.lru[0]}, a.lru[1..], a.inUse)
    ensures Evicts(a, b, 1)
  {
    hide TableOk;
    KeyIsHandle(a.handles, a.contents, a.lru[0]);
    assert a.lru[..1] == [a.lru[0]] && IdSet([a.lru[0]]) == {a.lru[0]};
  }

  /** The handle of the key that was there leaves after the new one came. */
  lemma AddsInPlace(hs: Handles, held: multiset<nat>, id: nat, was: nat, h: LRUHandle, inUse: seq<nat>)
    requires was in hs && was != id && (was in held ==> hs[was].refs > 0)
    ensures OutOfCache(hs[id := h], held + multiset{id}, was) == OutOfCache(hs, held, was)[id := h]
    ensures Without(inUse + [id], was) == Without(inUse, was) + [id]
  {
    assert (inUse + [id])[..|inUse|] == inUse;
  }
}

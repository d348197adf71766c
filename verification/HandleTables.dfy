/** The hash table of a cache shard: buckets of chained handles. */
module HandleTables {
  import opened Boundary

  type Key = string

  /** A handle's place in a chain: which handle, and its key. */
  datatype Slot = Slot(id: nat, key: Key)

  type Hash = Key -> nat

  ghost predicate KeysOnce(chain: seq<Slot>) {
    forall i, j | 0 <= i < j < |chain| :: chain[i].key != chain[j].key
  }

  class HandleTable {
    const hash: Hash
    var buckets: seq<seq<Slot>>
    var elems: nat
    /** The map the table stands for. */
    ghost var contents: map<Key, nat>

    function BucketOf(key: Key): nat
      requires |buckets| > 0
      reads this`buckets
    {
      hash(key) % |buckets|
    }

    ghost predicate Chained()
      reads this`buckets, this`contents
    {
      Stored(hash, buckets, contents)
    }

    ghost predicate Valid()
      reads this
    {
      Chained() && elems == |contents|
    }

    constructor (hash: Hash)
      ensures Valid() && contents == map[]
    {
      this.hash := hash;
      buckets, elems, contents := [[], [], [], []], 0, map[];
    }

    /** FindPointer: the place of the key in its chain; the end of the chain if it is not there. */
    method FindPointer(key: Key) returns (b: nat, p: nat)
      requires Chained()
      ensures b < |buckets| && b == BucketOf(key) && p <= |buckets[b]|
      ensures p < |buckets[b]| ==> buckets[b][p].key == key
      ensures p < |buckets[b]| <==> key in contents
      ensures key in contents ==> p < |buckets[b]| && buckets[b][p] == Slot(contents[key], key)
    {
      b := BucketOf(key);
      p := 0;
      while p < |buckets[b]| && buckets[b][p].key != key
        invariant p <= |buckets[b]|
        invariant forall i | 0 <= i < p :: buckets[b][i].key != key
      {
        p := p + 1;
      }
      if p < |buckets[b]| {
        assert SlotOk(hash, buckets, contents, b, buckets[b][p]);
      }
    }

    method Lookup(key: Key) returns (r: Option<nat>)
      requires Valid()
      ensures r == if key in contents then Some(contents[key]) else None
    {
      var b, p := FindPointer(key);
      if p < |buckets[b]| {
        assert SlotOk(hash, buckets, contents, b, buckets[b][p]);
        r := Some(buckets[b][p].id);
      } else {
        r := None;
      }
    }

    /** Insert: replaces the handle of the key, if there is one, and returns it. */
    method Insert(key: Key, id: nat) returns (was: Option<nat>)
      requires Valid()
      modifies this
      ensures Valid() && contents == old(contents)[key := id]
      ensures was == if key in old(contents) then Some(old(contents)[key]) else None
    {
      hide Stored, SlotOk;
      var b, p := FindPointer(key);
      assert PutSlot(buckets[b], p, Slot(id, key)) == if p < |buckets[b]| then buckets[b][p := Slot(id, key)] else buckets[b] + [Slot(id, key)];
      SizeAfterPut(contents, key, id);
      PutStored(hash, buckets, contents, b, p, Slot(id, key));
      if p < |buckets[b]| {
        was := Some(buckets[b][p].id);
        buckets := buckets[b := buckets[b][p := Slot(id, key)]];
        contents := contents[key := id];
      } else {
        was := None;
        buckets := buckets[b := buckets[b] + [Slot(id, key)]];
        contents := contents[key := id];
        elems := elems + 1;
        if elems > |buckets| {
          Resize();
        }
      }
    }

    /** Remove. */
    method Remove(key: Key) returns (was: Option<nat>)
      requires Valid()
      modifies this
      ensures Valid() && contents == old(contents) - {key}
      ensures was == if key in old(contents) then Some(old(contents)[key]) else None
    {
      hide Stored, SlotOk;
      var b, p := FindPointer(key);
      SizeAfterRemove(contents, key);
      if p < |buckets[b]| {
        RemoveStored(hash, buckets, contents, b, p, key);
        was := Some(buckets[b][p].id);
        buckets := buckets[b := buckets[b][..p] + buckets[b][p + 1..]];
        contents := contents - {key};
        elems := elems - 1;
      } else {
        was := None;
      }
    }

    /** Resize: every handle is moved to its chain in a table of four times a power of two. */
    method Resize()
      requires Valid()
      modifies this`buckets
      ensures Valid() && |buckets| >= 4 && |buckets| >= elems
    {
      hide Stored;
      var newLength := 4;
      while newLength < elems
        invariant newLength >= 4
      {
        newLength := newLength * 2;
      }
      buckets := Rehash(hash, buckets, contents, newLength);
    }
  }

  /** The outer loop of Resize, over the old chains. */
  method Rehash(hash: Hash, buckets: seq<seq<Slot>>, ghost contents: map<Key, nat>, newLength: nat)
    returns (newBuckets: seq<seq<Slot>>)
    requires Stored(hash, buckets, contents) && newLength > 0
    ensures |newBuckets| == newLength && Stored(hash, newBuckets, contents)
  {
    hide Stored, MovedUpTo;
    newBuckets := seq(newLength, _ => []);
    ghost var moved: map<Key, nat> := map[];
    NothingMoved(hash, buckets, contents, newBuckets);
    for i := 0 to |buckets|
      invariant |newBuckets| == newLength && Stored(hash, newBuckets, moved)
      invariant MovedUpTo(buckets, contents, moved, i, 0)
    {
      newBuckets, moved := MoveChain(hash, buckets, contents, buckets[i], i, newBuckets, moved);
      NextChain(buckets, contents, moved, i);
    }
    AllMoved(hash, buckets, contents, moved);
  }

  /** The inner loop of Resize: every handle of chain `i` goes to the front of its new chain. */
  method MoveChain(hash: Hash, ghost buckets: seq<seq<Slot>>, ghost contents: map<Key, nat>, chain: seq<Slot>, ghost i: nat,
                   into: seq<seq<Slot>>, ghost done: map<Key, nat>)
    returns (newBuckets: seq<seq<Slot>>, ghost moved: map<Key, nat>)
    requires Stored(hash, buckets, contents) && i < |buckets| && buckets[i] == chain
    requires |into| > 0 && Stored(hash, into, done) && MovedUpTo(buckets, contents, done, i, 0)
    ensures |newBuckets| == |into| && Stored(hash, newBuckets, moved)
    ensures MovedUpTo(buckets, contents, moved, i, |chain|)
  {
    hide Stored, MovedUpTo;
    newBuckets, moved := into, done;
    for j := 0 to |chain|
      invariant |newBuckets| == |into| && Stored(hash, newBuckets, moved)
      invariant MovedUpTo(buckets, contents, moved, i, j)
    {
      var s := chain[j];
      var b := hash(s.key) % |newBuckets|;
      MoveOne(hash, buckets, contents, moved, i, j);
      PushStored(hash, newBuckets, moved, b, s);
      newBuckets := newBuckets[b := [s] + newBuckets[b]];
      moved := moved[s.key := s.id];
    }
  }

  /** A slot of chain `b` belongs there and holds what the map says. */
  ghost predicate SlotOk(hash: Hash, buckets: seq<seq<Slot>>, contents: map<Key, nat>, b: nat, s: Slot)
    requires |buckets| > 0
  {
    hash(s.key) % |buckets| == b && s.key in contents && contents[s.key] == s.id
  }

  /** The chains hold exactly the map. */
  ghost predicate Stored(hash: Hash, buckets: seq<seq<Slot>>, contents: map<Key, nat>) {
    && |buckets| > 0
    && (forall b | 0 <= b < |buckets| :: KeysOnce(buckets[b]))
    && (forall b, s | 0 <= b < |buckets| && s in buckets[b] :: SlotOk(hash, buckets, contents, b, s))
    && (forall key | key in contents :: Slot(contents[key], key) in buckets[hash(key) % |buckets|])
  }

  /** A chain holds exactly what the map has in its bucket. */
  ghost predicate ChainHolds(hash: Hash, n: nat, contents: map<Key, nat>, b: nat, chain: seq<Slot>)
    requires n > 0
  {
    forall s: Slot :: s in chain <==> s.key in contents && contents[s.key] == s.id && hash(s.key) % n == b
  }

  lemma StoredChain(hash: Hash, buckets: seq<seq<Slot>>, contents: map<Key, nat>, b: nat)
    requires Stored(hash, buckets, contents) && b < |buckets|
    ensures KeysOnce(buckets[b]) && ChainHolds(hash, |buckets|, contents, b, buckets[b])
  {
    forall s | s in buckets[b]
      ensures s.key in contents && contents[s.key] == s.id && hash(s.key) % |buckets| == b
    {
      assert SlotOk(hash, buckets, contents, b, s);
    }
  }

  /** Changing one chain and the map alike. */
  lemma ChangeStored(hash: Hash, buckets: seq<seq<Slot>>, contents: map<Key, nat>, b: nat, chain: seq<Slot>, now: map<Key, nat>)
    requires Stored(hash, buckets, contents) && b < |buckets|
    requires KeysOnce(chain) && ChainHolds(hash, |buckets|, now, b, chain)
    requires forall key | hash(key) % |buckets| != b :: key in now <==> key in contents
    requires forall key | hash(key) % |buckets| != b && key in now :: now[key] == contents[key]
    ensures Stored(hash, buckets[b := chain], now)
  {
    var after := buckets[b := chain];
    forall c, s | 0 <= c < |after| && s in after[c]
      ensures SlotOk(hash, after, now, c, s)
    {
      if c != b {
        assert SlotOk(hash, buckets, contents, c, s);
      }
    }
  }

  /** A slot put in the place of its key, or at the end of the chain. */
  function PutSlot(chain: seq<Slot>, p: nat, s: Slot): seq<Slot>
    requires p <= |chain|
  {
    if p < |chain| then chain[p := s] else chain + [s]
  }

  lemma PutChain(chain: seq<Slot>, p: nat, s: Slot)
    requires KeysOnce(chain) && p <= |chain| && (p < |chain| ==> chain[p].key == s.key)
    requires p == |chain| ==> forall t | t in chain :: t.key != s.key
    ensures KeysOnce(PutSlot(chain, p, s))
    ensures forall t :: t in PutSlot(chain, p, s) <==> t == s || (t in chain && t.key != s.key)
  {
    var r := PutSlot(chain, p, s);
    assert r[p] == s;
    forall t
      ensures t in r <==> t == s || (t in chain && t.key != s.key)
    {
      if t in chain && t.key != s.key {
        var i :| 0 <= i < |chain| && chain[i] == t;
        assert r[i] == t;
      }
    }
  }

  lemma PutStored(hash: Hash, buckets: seq<seq<Slot>>, contents: map<Key, nat>, b: nat, p: nat, s: Slot)
    requires Stored(hash, buckets, contents) && b < |buckets| && b == hash(s.key) % |buckets| && p <= |buckets[b]|
    requires p < |buckets[b]| ==> buckets[b][p].key == s.key
    requires p == |buckets[b]| ==> s.key !in contents
    ensures Stored(hash, buckets[b := PutSlot(buckets[b], p, s)], contents[s.key := s.id])
  {
    hide Stored, KeysOnce, PutSlot;
    StoredChain(hash, buckets, contents, b);
    PutChain(buckets[b], p, s);
    ChangeStored(hash, buckets, contents, b, PutSlot(buckets[b], p, s), contents[s.key := s.id]);
  }

  lemma SizeAfterPut(m: map<Key, nat>, key: Key, id: nat)
    ensures |m[key := id]| == |m| + if key in m then 0 else 1
  {
    var after := m[key := id];
    assert after.Keys == m.Keys + {key};
    assert |after| == |after.Keys| && |m| == |m.Keys|;
  }

  lemma SizeAfterRemove(m: map<Key, nat>, key: Key)
    ensures |m - {key}| == |m| - if key in m then 1 else 0
    ensures key !in m ==> m - {key} == m
  {
    var after := m - {key};
    assert after.Keys == m.Keys - {key};
    assert |after| == |after.Keys| && |m| == |m.Keys|;
  }

  /** A chain without one of its slots. */
  lemma ChainWithout(chain: seq<Slot>, p: nat)
    requires p < |chain| && KeysOnce(chain)
    ensures var rest := chain[..p] + chain[p + 1..];
            KeysOnce(rest) && forall s :: s in rest <==> s in chain && s.key != chain[p].key
  {
    var rest := chain[..p] + chain[p + 1..];
    forall i | 0 <= i < |rest|
      ensures rest[i] == chain[if i < p then i else i + 1]
    {
    }
    forall s
      ensures s in rest <==> s in chain && s.key != chain[p].key
    {
      if s in chain && s.key != chain[p].key {
        var i :| 0 <= i < |chain| && chain[i] == s;
        assert rest[if i < p then i else i - 1] == s;
      }
    }
  }

  lemma RemoveStored(hash: Hash, buckets: seq<seq<Slot>>, contents: map<Key, nat>, b: nat, p: nat, key: Key)
    requires Stored(hash, buckets, contents) && b < |buckets| && p < |buckets[b]| && buckets[b][p].key == key
    ensures Stored(hash, buckets[b := buckets[b][..p] + buckets[b][p + 1..]], contents - {key})
  {
    hide Stored, KeysOnce;
    StoredChain(hash, buckets, contents, b);
    ChainWithout(buckets[b], p);
    assert buckets[b][p] in buckets[b];
    ChangeStored(hash, buckets, contents, b, buckets[b][..p] + buckets[b][p + 1..], contents - {key});
  }

  lemma PushStored(hash: Hash, buckets: seq<seq<Slot>>, contents: map<Key, nat>, b: nat, s: Slot)
    requires Stored(hash, buckets, contents) && b < |buckets| && b == hash(s.key) % |buckets| && s.key !in contents
    ensures Stored(hash, buckets[b := [s] + buckets[b]], contents[s.key := s.id])
  {
    hide Stored;
    StoredChain(hash, buckets, contents, b);
    ChangeStored(hash, buckets, contents, b, [s] + buckets[b], contents[s.key := s.id]);
  }

  lemma NothingMoved(hash: Hash, buckets: seq<seq<Slot>>, contents: map<Key, nat>, empty: seq<seq<Slot>>)
    requires |empty| > 0 && forall b | 0 <= b < |empty| :: empty[b] == []
    ensures Stored(hash, empty, map[]) && MovedUpTo(buckets, contents, map[], 0, 0)
  {
  }

  /** What has been moved: the chains before `i`, and the first `j` of chain `i`. */
  ghost predicate MovedUpTo(buckets: seq<seq<Slot>>, contents: map<Key, nat>, moved: map<Key, nat>, i: nat, j: nat) {
    && (forall key :: key in moved <==> key in contents && MovedKey(buckets, key, i, j))
    && (forall key | key in moved && key in contents :: moved[key] == contents[key])
  }

  ghost predicate MovedKey(buckets: seq<seq<Slot>>, key: Key, i: nat, j: nat) {
    exists b, p :: 0 <= b < |buckets| && 0 <= p < |buckets[b]| && buckets[b][p].key == key && (b < i || (b == i && p < j))
  }

  lemma MoveOne(hash: Hash, buckets: seq<seq<Slot>>, contents: map<Key, nat>, moved: map<Key, nat>, i: nat, j: nat)
    requires Stored(hash, buckets, contents) && i < |buckets| && j < |buckets[i]| && MovedUpTo(buckets, contents, moved, i, j)
    ensures var s := buckets[i][j];
            && s.key !in moved && MovedUpTo(buckets, contents, moved[s.key := s.id], i, j + 1)
  {
    var s := buckets[i][j];
    assert SlotOk(hash, buckets, contents, i, s);
    forall b, p | 0 <= b < |buckets| && 0 <= p < |buckets[b]| && buckets[b][p].key == s.key
      ensures b == i && p == j
    {
      assert SlotOk(hash, buckets, contents, b, buckets[b][p]);
    }
    forall key
      ensures MovedKey(buckets, key, i, j + 1) <==> MovedKey(buckets, key, i, j) || key == s.key
    {
    }
  }

  lemma NextChain(buckets: seq<seq<Slot>>, contents: map<Key, nat>, moved: map<Key, nat>, i: nat)
    requires i < |buckets| && MovedUpTo(buckets, contents, moved, i, |buckets[i]|)
    ensures MovedUpTo(buckets, contents, moved, i + 1, 0)
  {
    forall key
      ensures MovedKey(buckets, key, i + 1, 0) <==> MovedKey(buckets, key, i, |buckets[i]|)
    {
    }
  }

  lemma AllMoved(hash: Hash, buckets: seq<seq<Slot>>, contents: map<Key, nat>, moved: map<Key, nat>)
    requires Stored(hash, buckets, contents) && MovedUpTo(buckets, contents, moved, |buckets|, 0)
    ensures moved == contents
  {
    forall key | key in contents
      ensures key in moved && moved[key] == contents[key]
    {
      var b := hash(key) % |buckets|;
      var p :| 0 <= p < |buckets[b]| && buckets[b][p] == Slot(contents[key], key);
      assert buckets[b][p].key == key && b < |buckets|;
      assert MovedKey(buckets, key, |buckets|, 0);
    }
    assert moved.Keys == contents.Keys;
  }
}

/** Building a block. */
module BlockBuilders {
  import opened Coding
  import opened BlockFormat

  class BlockBuilder {
    const interval: nat
    var buffer: Bytes
    var restarts: seq<nat>
    var counter: nat
    var lastKey: Bytes
    /** What was added, and where it went; the specification. */
    ghost var entries: seq<KV>
    ghost var shape: Shape

    ghost predicate Valid()
      reads this
    {
      && interval >= 1 && counter <= interval
      && Holds(buffer, restarts, entries, shape)
      && lastKey == (if entries == [] then [] else entries[|entries| - 1].key)
      && (entries == [] ==> counter == 0)
    }

    constructor (interval: nat)
      requires interval >= 1
      ensures Valid() && entries == []
    {
      this.interval := interval;
      buffer, restarts, counter, lastKey := [], [0], 0, [];
      entries, shape := [], Shape([0], [], [0]);
    }

    /** Add. */
    method Add(key: Bytes, value: Bytes)
      requires Valid()
      modifies this
      ensures Valid() && entries == old(entries) + [KV(key, value)]
    {
      hide EntryBytes, PutVarint;
      var shared := 0;
      ghost var rs := shape.rs;
      if counter < interval {
        var minLength := if |lastKey| < |key| then |lastKey| else |key|;
        while shared < minLength && lastKey[shared] == key[shared]
          invariant shared <= minLength && lastKey[..shared] == key[..shared]
        {
          shared := shared + 1;
        }
      } else {
        restarts := restarts + [|buffer|];
        counter := 0;
        rs := rs + [|entries|];
      }
      EntryAdded(old(buffer), old(restarts), restarts, old(entries), old(shape), rs, shared, KV(key, value));
      AppendParts(buffer, shared, KV(key, value));
      buffer := buffer + PutVarint(shared);
      buffer := buffer + PutVarint(|key| - shared);
      buffer := buffer + PutVarint(|value|);
      buffer := buffer + key[shared..];
      buffer := buffer + value;
      lastKey := lastKey[..shared] + key[shared..];
      counter := counter + 1;
      shape := Shape(shape.offs + [|buffer|], shape.shared + [shared], rs);
      entries := entries + [KV(key, value)];
      assert lastKey == key;
    }

    /** Finish. */
    method Finish() returns (contents: Bytes)
      requires Valid()
      ensures contents == Contents(buffer, restarts)
    {
      var tail := PutRestarts(restarts);
      contents := buffer + tail + PutFixed32(|restarts|);
    }
  }

  /** The loop of Finish. */
  method PutRestarts(restarts: seq<nat>) returns (r: Bytes)
    ensures r == RestartArray(restarts)
  {
    hide PutFixed32;
    r := [];
    for i := 0 to |restarts|
      invariant r == RestartArray(restarts[..i])
    {
      assert restarts[..i + 1][..i] == restarts[..i];
      r := r + PutFixed32(restarts[i]);
    }
    assert restarts[..|restarts|] == restarts;
  }

  lemma AppendParts(buffer: Bytes, shared: nat, e: KV)
    requires shared <= |e.key|
    ensures buffer + PutVarint(shared) + PutVarint(|e.key| - shared) + PutVarint(|e.value|) + e.key[shared..] + e.value
            == buffer + EntryBytes(shared, e)
  {
    hide PutVarint;
  }

  /** The block with one more entry. */
  lemma EntryAdded(buffer: Bytes, restarts: seq<nat>, restarts': seq<nat>, es: seq<KV>, sh: Shape, rs: seq<nat>, shared: nat, e: KV)
    requires Holds(buffer, restarts, es, sh) && shared <= |e.key|
    requires shared > 0 ==> es != [] && shared <= |es[|es| - 1].key| && es[|es| - 1].key[..shared] == e.key[..shared]
    requires (restarts' == restarts && rs == sh.rs)
             || (es != [] && shared == 0 && restarts' == restarts + [|buffer|] && rs == sh.rs + [|es|])
    ensures var b := buffer + EntryBytes(shared, e);
            Holds(b, restarts', es + [e], Shape(sh.offs + [|b|], sh.shared + [shared], rs))
  {
    hide EntryBytes;
    EntryLength(shared, e);
    var b := buffer + EntryBytes(shared, e);
    var es', sh' := es + [e], Shape(sh.offs + [|b|], sh.shared + [shared], rs);
    forall i | 0 <= i < |es'|
      ensures EntryAt(b, es', sh', i)
    {
      if i < |es| {
        assert EntryAt(buffer, es, sh, i);
        assert b[sh.offs[i]..sh.offs[i + 1]] == buffer[sh.offs[i]..sh.offs[i + 1]];
      } else {
        assert b[|buffer|..|b|] == EntryBytes(shared, e);
      }
    }
    forall j | 0 <= j < |restarts'|
      ensures RestartAt(es', sh', restarts', j)
    {
      if j < |restarts| {
        assert RestartAt(es, sh, restarts, j);
        FirstSharesNothing(es, sh, shared, j, restarts);
      }
    }
    forall i, j | 0 <= i < j < |rs|
      ensures rs[i] < rs[j]
    {
      if j == |sh.rs| {
        assert RestartAt(es, sh, restarts, i);
      }
    }
  }

  lemma EntryLength(shared: nat, e: KV)
    requires shared <= |e.key|
    ensures |EntryBytes(shared, e)| >= 3
  {
    hide PutVarint;
  }

  /** In a block that was empty the new entry is at the restart point, and has nothing to share. */
  lemma FirstSharesNothing(es: seq<KV>, sh: Shape, shared: nat, j: nat, restarts: seq<nat>)
    requires Sized(es, sh) && |sh.rs| == |restarts| && j < |restarts| && RestartAt(es, sh, restarts, j)
    requires shared > 0 ==> es != []
    ensures sh.rs[j] == |es| ==> shared == 0
  {
  }
}

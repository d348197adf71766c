/** A block built and read back. */
module BlockRoundTrip {
  import opened Coding
  import opened BlockFormat
  import opened BlockBuilders
  import opened BlockIterators

  method Build(interval: nat, es: seq<KV>) returns (b: BlockBuilder, contents: Bytes)
    requires interval >= 1
    ensures b.Valid() && b.entries == es && contents == Contents(b.buffer, b.restarts)
  {
    hide Holds;
    b := new BlockBuilder(interval);
    for i := 0 to |es|
      invariant fresh(b) && b.Valid() && b.entries == es[..i]
    {
      b.Add(es[i].key, es[i].value);
    }
    contents := b.Finish();
  }

  function Reversed(es: seq<KV>): seq<KV> {
    if es == [] then [] else [es[|es| - 1]] + Reversed(es[..|es| - 1])
  }

  method ReadForward(it: Iter) returns (forward: seq<KV>)
    requires it.Standing()
    modifies it
    ensures it.Standing() && forward == it.entries
  {
    hide Iter.Built;
    forward := [];
    it.SeekToFirst();
    it.ValidMeansEntry();
    while it.Valid()
      invariant it.Standing() && it.at <= |it.entries| && (it.Valid() <==> it.at < |it.entries|)
      invariant forward == it.entries[..it.at]
      decreases |it.entries| - it.at
    {
      forward := forward + [KV(it.key, it.data[it.valueStart..it.valueStart + it.valueLength])];
      it.Next();
      it.ValidMeansEntry();
    }
  }

  method ReadBackward(it: Iter) returns (backward: seq<KV>)
    requires it.Standing()
    modifies it
    ensures it.Standing() && backward == Reversed(it.entries)
  {
    hide Iter.Built;
    backward := [];
    it.SeekToLast();
    it.ValidMeansEntry();
    ghost var left := if it.entries == [] then 0 else it.at + 1;
    assert it.entries[..left] == it.entries;
    while it.Valid()
      invariant it.Standing() && 0 <= left <= |it.entries|
      invariant it.Valid() <==> left > 0
      invariant left > 0 ==> it.at + 1 == left
      invariant backward + Reversed(it.entries[..left]) == Reversed(it.entries)
      decreases left
    {
      backward := backward + [KV(it.key, it.data[it.valueStart..it.valueStart + it.valueLength])];
      ReversedTakes(it.entries, left);
      left := left - 1;
      it.Prev();
      it.ValidMeansEntry();
    }
  }

  lemma ReversedTakes(es: seq<KV>, n: nat)
    requires 0 < n <= |es|
    ensures Reversed(es[..n]) == [es[n - 1]] + Reversed(es[..n - 1])
  {
    assert es[..n][..n - 1] == es[..n - 1];
  }

  /** Every block built of ascending entries, with any restart interval, iterates to exactly those entries, forwards
      from SeekToFirst and backwards from SeekToLast. */
  method ReadBack(less: Less, interval: nat, es: seq<KV>) returns (contents: Bytes, forward: seq<KV>, backward: seq<KV>)
    requires interval >= 1 && IsOrder(less) && Ascending(less, es)
    requires forall i | 0 <= i < |es| :: |es[i].key| + |es[i].value| < TWO_32
    ensures |contents| < TWO_32 ==> forward == es && backward == Reversed(es)
  {
    hide Holds, Iter.Built;
    var b, c := Build(interval, es);
    contents, forward, backward := c, [], [];
    if |contents| < TWO_32 {
      var it := new Iter(less, contents, b.buffer, b.restarts, es, b.shape);
      forward := ReadForward(it);
      backward := ReadBackward(it);
    }
  }
}

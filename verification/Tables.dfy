/** Tables: data blocks under an index of separators. */
module Tables {
  import opened InternalKeys
  import opened Version
  import opened Boundary
  import opened Coding
  import opened FilterBlock
  import opened Bloom
  import opened CompactionLoop
  import opened Outputs

  /** The index key of each block is at or after the block's keys, and before the keys of all later blocks. */
  ghost predicate Separated(blocks: seq<seq<Entry>>, seps: seq<InternalKey>) {
    && |seps| == |blocks|
    && (forall b | 0 <= b < |blocks| :: Sorted(blocks[b]))
    && (forall b, e | 0 <= b < |blocks| && e in blocks[b] :: AtOrBefore(e.k, seps[b]))
    && (forall b, c, e | 0 <= b < c < |blocks| && e in blocks[c] :: Before(seps[b], e.k))
  }

  /** Where block `b` starts among all entries. */
  function Start(blocks: seq<seq<Entry>>, b: nat): nat
    requires b <= |blocks|
  {
    |Flatten(blocks[..b])|
  }

  lemma StartStep(blocks: seq<seq<Entry>>, b: nat)
    requires b < |blocks|
    ensures Start(blocks, b + 1) == Start(blocks, b) + |blocks[b]|
  {
    assert blocks[..b + 1][..b] == blocks[..b];
  }

  lemma {:induction false} FlattenAt(blocks: seq<seq<Entry>>, b: nat, i: nat)
    requires b < |blocks| && i < |blocks[b]|
    ensures Start(blocks, b) + i < |Flatten(blocks)| && Flatten(blocks)[Start(blocks, b) + i] == blocks[b][i]
    decreases |blocks|
  {
    var init := blocks[..|blocks| - 1];
    if b < |init| {
      FlattenAt(init, b, i);
      assert init[..b] == blocks[..b];
    }
  }

  /** Which block an entry is in, and where. */
  lemma {:induction false} BlockOf(blocks: seq<seq<Entry>>, p: nat) returns (b: nat, i: nat)
    requires p < |Flatten(blocks)|
    ensures b < |blocks| && i < |blocks[b]| && p == Start(blocks, b) + i
    decreases |blocks|
  {
    var init := blocks[..|blocks| - 1];
    if p < |Flatten(init)| {
      b, i := BlockOf(init, p);
      assert init[..b] == blocks[..b];
    } else {
      b, i := |init|, p - |Flatten(init)|;
    }
  }

  lemma {:induction false} StartsIncrease(blocks: seq<seq<Entry>>, b: nat, c: nat)
    requires b <= c <= |blocks|
    ensures Start(blocks, b) <= Start(blocks, c)
    decreases c
  {
    if b < c {
      StartsIncrease(blocks, b, c - 1);
      StartStep(blocks, c - 1);
    }
  }

  /** `p` is where the entries at or after `k` begin. */
  ghost predicate IsBound(es: seq<Entry>, k: InternalKey, p: nat) {
    && p <= |es|
    && (forall i | 0 <= i < p :: Before(es[i].k, k))
    && (forall i | p <= i < |es| :: AtOrBefore(k, es[i].k))
  }

  lemma LowerBoundIsBound(es: seq<Entry>, k: InternalKey)
    requires Sorted(es)
    ensures IsBound(es, k, LowerBound(es, k))
  {
    var p := LowerBound(es, k);
    forall i | p <= i < |es|
      ensures AtOrBefore(k, es[i].k)
    {
      CompareIsTotalOrder(k, es[p].k, es[i].k);
      CompareIsTotalOrder(es[p].k, es[i].k, k);
      assert i > p ==> Before(es[p].k, es[i].k);
    }
  }

  /** Index seek: the first block whose index key is at or after `k`. */
  function SeekIndex(seps: seq<InternalKey>, k: InternalKey): (b: nat)
    ensures b <= |seps|
    ensures forall i | 0 <= i < b :: Before(seps[i], k)
    ensures b < |seps| ==> AtOrBefore(k, seps[b])
  {
    if seps == [] || !Before(seps[0], k) then 0 else 1 + SeekIndex(seps[1..], k)
  }

  lemma BeforeChain(a: InternalKey, b: InternalKey, c: InternalKey)
    ensures AtOrBefore(a, b) && Before(b, c) ==> Before(a, c)
    ensures Before(a, b) && AtOrBefore(b, c) ==> Before(a, c)
  {
    CompareIsTotalOrder(a, b, c);
    CompareIsTotalOrder(b, c, a);
  }

  /** A seek in the block the index leads to finds the place among all entries. */
  lemma SeekLands(blocks: seq<seq<Entry>>, seps: seq<InternalKey>, k: InternalKey)
    requires Separated(blocks, seps)
    ensures var b := SeekIndex(seps, k);
            b < |blocks| ==> IsBound(Flatten(blocks), k, Start(blocks, b) + LowerBound(blocks[b], k))
    ensures SeekIndex(seps, k) == |blocks| ==> IsBound(Flatten(blocks), k, |Flatten(blocks)|)
  {
    var b, es := SeekIndex(seps, k), Flatten(blocks);
    var p := if b < |blocks| then Start(blocks, b) + LowerBound(blocks[b], k) else |es|;
    if b < |blocks| {
      BlockInside(blocks, b);
      LowerBoundIsBound(blocks[b], k);
    }
    forall i | 0 <= i < |es|
      ensures if i < p then Before(es[i].k, k) else AtOrBefore(k, es[i].k)
    {
      var c, j := BlockOf(blocks, i);
      FlattenAt(blocks, c, j);
      PlacedByBlock(blocks, seps, k, b, c, j);
      if c < b {
        StartsIncrease(blocks, c + 1, b);
        StartStep(blocks, c);
      } else if c > b {
        StartsIncrease(blocks, b + 1, c);
        StartStep(blocks, b);
      }
    }
  }

  lemma BlockInside(blocks: seq<seq<Entry>>, b: nat)
    requires b < |blocks|
    ensures Start(blocks, b) + |blocks[b]| <= |Flatten(blocks)|
  {
    StartStep(blocks, b);
    StartsIncrease(blocks, b + 1, |blocks|);
    assert blocks[..|blocks|] == blocks;
  }

  lemma PlacedByBlock(blocks: seq<seq<Entry>>, seps: seq<InternalKey>, k: InternalKey, b: nat, c: nat, j: nat)
    requires Separated(blocks, seps) && b == SeekIndex(seps, k) && c < |blocks| && j < |blocks[c]|
    ensures c < b ==> Before(blocks[c][j].k, k)
    ensures c > b ==> AtOrBefore(k, blocks[c][j].k)
    ensures c == b ==> (Before(blocks[c][j].k, k) <==> j < LowerBound(blocks[c], k))
  {
    var e := blocks[c][j];
    assert e in blocks[c];
    if c < b {
      BeforeChain(e.k, seps[c], k);
    } else if c > b {
      BeforeChain(k, seps[b], e.k);
      CompareIsTotalOrder(k, e.k, k);
    } else {
      LowerBoundIsBound(blocks[c], k);
    }
  }

  // ---- Building

  /** FindShortestSeparator and FindShortSuccessor of the internal key comparator, as far as blocks rely on them. */
  ghost predicate IsSeparator(r: InternalKey, a: InternalKey, b: InternalKey) {
    r == a || (a.user < r.user < b.user)
  }

  ghost predicate IsSuccessor(r: InternalKey, a: InternalKey) {
    r == a || a.user < r.user
  }

  type Shorten = (InternalKey, InternalKey) -> InternalKey

  type Succeed = InternalKey -> InternalKey

  ghost predicate Shortens(shorten: Shorten) {
    forall a, b | Before(a, b) :: IsSeparator(shorten(a, b), a, b)
  }

  ghost predicate Succeeds(succeed: Succeed) {
    forall a :: IsSuccessor(succeed(a), a)
  }

  function Last(es: seq<Entry>): InternalKey
    requires es != []
  {
    es[|es| - 1].k
  }

  /** The index of a finished table: a separator for each block and the next, a successor for the last. */
  ghost predicate Indexed(blocks: seq<seq<Entry>>, seps: seq<InternalKey>) {
    && |seps| == |blocks|
    && (forall b | 0 <= b < |blocks| :: blocks[b] != [])
    && (forall b | 0 <= b < |blocks| - 1 :: IsSeparator(seps[b], Last(blocks[b]), blocks[b + 1][0].k))
    && (blocks != [] ==> IsSuccessor(seps[|blocks| - 1], Last(blocks[|blocks| - 1])))
  }

  lemma SortedBlocks(blocks: seq<seq<Entry>>, b: nat, i: nat, c: nat, j: nat)
    requires Sorted(Flatten(blocks)) && b < |blocks| && i < |blocks[b]| && c < |blocks| && j < |blocks[c]|
    requires b < c || (b == c && i < j)
    ensures Before(blocks[b][i].k, blocks[c][j].k)
  {
    FlattenAt(blocks, b, i);
    FlattenAt(blocks, c, j);
    if b < c {
      StartStep(blocks, b);
      StartsIncrease(blocks, b + 1, c);
    }
  }

  /** The index of a built table separates its blocks. */
  lemma IndexedIsSeparated(blocks: seq<seq<Entry>>, seps: seq<InternalKey>)
    requires Indexed(blocks, seps) && Sorted(Flatten(blocks))
    ensures Separated(blocks, seps)
  {
    forall b | 0 <= b < |blocks|
      ensures Sorted(blocks[b])
    {
      forall i, j | 0 <= i < j < |blocks[b]|
        ensures Before(blocks[b][i].k, blocks[b][j].k)
      {
        SortedBlocks(blocks, b, i, b, j);
      }
    }
    forall b, e | 0 <= b < |blocks| && e in blocks[b]
      ensures AtOrBefore(e.k, seps[b])
    {
      var i :| 0 <= i < |blocks[b]| && blocks[b][i] == e;
      KeyAtOrBeforeSep(blocks, seps, b, i);
    }
    forall b, c, e | 0 <= b < c < |blocks| && e in blocks[c]
      ensures Before(seps[b], e.k)
    {
      var i :| 0 <= i < |blocks[c]| && blocks[c][i] == e;
      SepBeforeKey(blocks, seps, b, c, i);
    }
  }

  lemma KeyAtOrBeforeSep(blocks: seq<seq<Entry>>, seps: seq<InternalKey>, b: nat, i: nat)
    requires Indexed(blocks, seps) && Sorted(Flatten(blocks)) && b < |blocks| && i < |blocks[b]|
    ensures AtOrBefore(blocks[b][i].k, seps[b])
  {
    var k, last := blocks[b][i].k, Last(blocks[b]);
    if i < |blocks[b]| - 1 {
      SortedBlocks(blocks, b, i, b, |blocks[b]| - 1);
    }
    if b < |blocks| - 1 {
      assert IsSeparator(seps[b], last, blocks[b + 1][0].k);
    }
    assert seps[b] == last || last.user < seps[b].user;
    CompareIsTotalOrder(k, last, k);
  }

  lemma SepBeforeKey(blocks: seq<seq<Entry>>, seps: seq<InternalKey>, b: nat, c: nat, i: nat)
    requires Indexed(blocks, seps) && Sorted(Flatten(blocks)) && b < c < |blocks| && i < |blocks[c]|
    ensures Before(seps[b], blocks[c][i].k)
    ensures seps[b] == Last(blocks[b]) || seps[b].user < blocks[c][i].k.user
  {
    var k, next := blocks[c][i].k, blocks[b + 1][0].k;
    assert IsSeparator(seps[b], Last(blocks[b]), next);
    SortedBlocks(blocks, b, |blocks[b]| - 1, c, i);
    if b + 1 < c || i > 0 {
      SortedBlocks(blocks, b + 1, 0, c, i);
    }
    assert next.user <= k.user;
  }

  /** What the filter was told: the offset of the block a user key was added for. */
  /** What a table's reader has of the filter: the policy's hash and the filter block, if there is one. */
  datatype Filter = NoFilter | FilterOf(hash: Hash, contents: seq<Byte>)

  /** The filter sees user keys only (InternalFilterPolicy). */
  predicate AskFilter(filter: Filter, userBytes: UserKey -> seq<Byte>, offset: nat, u: UserKey) {
    filter.FilterOf? ==> MayContain(filter.hash, filter.contents, offset, userBytes(u))
  }

  class TableBuilder {
    const shorten: Shorten
    const succeed: Succeed
    /** The filter block, if there is a policy, and the bytes of a user key. */
    const filterBlock: FilterBlockBuilder?
    const userBytes: UserKey -> seq<Byte>
    var dataBlock: seq<Entry>
    var pendingIndexEntry: bool
    var lastKey: InternalKey
    /** The blocks written, the offset of each, and the index block. */
    var blocks: seq<seq<Entry>>
    var offsets: seq<nat>
    var index: seq<InternalKey>
    var offset: nat
    ghost var entries: seq<Entry>

    ghost predicate Valid()
      reads this, filterBlock
    {
      && Shortens(shorten) && Succeeds(succeed)
      && BlocksOk(blocks, dataBlock, offsets, entries, lastKey)
      && IndexOk(blocks, dataBlock, index, pendingIndexEntry)
      && (filterBlock != null ==>
            && filterBlock.Valid() && filterBlock.current == offset
            && FilterOk(userBytes, blocks, offsets, dataBlock, offset, filterBlock.added))
    }

    constructor (shorten: Shorten, succeed: Succeed, filterBlock: FilterBlockBuilder?, userBytes: UserKey -> seq<Byte>)
      requires Shortens(shorten) && Succeeds(succeed)
      requires filterBlock != null ==> filterBlock.Valid() && filterBlock.added == [] && filterBlock.current == 0
      ensures Valid() && entries == [] && this.filterBlock == filterBlock && this.userBytes == userBytes
    {
      this.shorten, this.succeed, this.filterBlock, this.userBytes := shorten, succeed, filterBlock, userBytes;
      dataBlock, pendingIndexEntry, lastKey := [], false, InternalKey(0.0, 0, Deletion);
      blocks, offsets, index, offset, entries := [], [], [], 0, [];
    }

    /** Add.  `full` is whether the block has grown to its size by then, `size` what it takes in the file. */
    method Add(e: Entry, full: bool, size: nat)
      requires Valid() && (entries != [] ==> Before(Last(entries), e.k))
      modifies this, filterBlock
      ensures Valid() && entries == old(entries) + [e]
    {
      Append(e);
      if full {
        Flush(size);
      }
    }

    method Append(e: Entry)
      requires Valid() && (entries != [] ==> Before(Last(entries), e.k))
      modifies this, filterBlock
      ensures Valid() && entries == old(entries) + [e]
    {
      hide Shortens, Succeeds, BlocksOk, IndexOk, FilterOk, Before, FilterBlockBuilder.Valid;
      AppendKeepsIndex(shorten, blocks, dataBlock, offsets, entries, lastKey, index, pendingIndexEntry, e);
      AppendKeepsBlocks(blocks, dataBlock, offsets, entries, lastKey, e);
      if pendingIndexEntry {
        index := index + [shorten(lastKey, e.k)];
        pendingIndexEntry := false;
      }
      if filterBlock != null {
        AppendKeepsFilter(userBytes, blocks, offsets, dataBlock, offset, filterBlock.added, e);
        filterBlock.AddKey(userBytes(e.k.user));
      }
      lastKey := e.k;
      dataBlock := dataBlock + [e];
      entries := entries + [e];
    }

    /** Flush: the data block is written, and the filter told where the next one starts. */
    method Flush(size: nat)
      requires Valid()
      modifies this, filterBlock
      ensures Valid() && entries == old(entries) && dataBlock == []
    {
      hide Shortens, Succeeds, BlocksOk, IndexOk, FilterOk, FilterBlockBuilder.Valid;
      if dataBlock == [] {
        return;
      }
      FlushKeepsBlocks(blocks, dataBlock, offsets, entries, lastKey, offset);
      FlushKeepsIndex(blocks, dataBlock, index, pendingIndexEntry);
      if filterBlock != null {
        FlushKeepsFilter(userBytes, blocks, offsets, dataBlock, offset, filterBlock.added, size);
        SlotsPassed(filterBlock, offset + size);
        filterBlock.StartBlock(offset + size);
      }
      blocks := blocks + [dataBlock];
      offsets := offsets + [offset];
      offset := offset + size;
      dataBlock := [];
      pendingIndexEntry := true;
    }

    /** Finish: the last block, its index key, and the filter block. */
    method Finish(size: nat) returns (filter: Filter)
      requires Valid()
      modifies this, filterBlock
      ensures Flatten(blocks) == old(entries) && Indexed(blocks, index) && Separated(blocks, index)
      ensures |offsets| == |blocks| && (filter.NoFilter? <==> filterBlock == null)
      ensures (filter.FilterOf? ==> |filter.contents| < TWO_32) ==>
                forall b, e | 0 <= b < |blocks| && e in blocks[b] :: AskFilter(filter, userBytes, offsets[b], e.k.user)
    {
      hide Shortens, Succeeds, BlocksOk, IndexOk, FilterOk, Indexed, Separated, Flatten, FilterBlockBuilder.Valid, MayContain;
      Flush(size);
      filter := NoFilter;
      if filterBlock != null {
        FinishedFilter(userBytes, blocks, offsets, offset, filterBlock.added);
        var contents := filterBlock.Finish();
        filter := FilterOf(filterBlock.hash, contents);
      }
      FinishedIndex(succeed, blocks, offsets, entries, lastKey, index, pendingIndexEntry);
      if pendingIndexEntry {
        index := index + [succeed(lastKey)];
        pendingIndexEntry := false;
      }
    }
  }

  /** Offsets do not go back behind the filters generated. */
  lemma SlotsPassed(f: FilterBlockBuilder, offset: nat)
    requires f.Valid() && f.current <= offset
    ensures offset / BASE >= |f.filterOffsets|
  {
    hide Ordered, Covered;
  }

  // ---- What the builder has done so far

  /** The first key after block `b`. */
  function KeyAfter(blocks: seq<seq<Entry>>, open: seq<Entry>, b: nat): InternalKey
    requires b < |blocks| && (forall c | 0 <= c < |blocks| :: blocks[c] != []) && (b + 1 == |blocks| ==> open != [])
  {
    if b + 1 < |blocks| then blocks[b + 1][0].k else open[0].k
  }

  ghost predicate BlocksOk(blocks: seq<seq<Entry>>, open: seq<Entry>, offsets: seq<nat>, entries: seq<Entry>, lastKey: InternalKey) {
    && Sorted(entries) && entries == Flatten(blocks) + open
    && (entries != [] ==> lastKey == Last(entries))
    && (forall b | 0 <= b < |blocks| :: blocks[b] != [])
    && |offsets| == |blocks|
  }

  ghost predicate IndexOk(blocks: seq<seq<Entry>>, open: seq<Entry>, index: seq<InternalKey>, pending: bool) {
    && |index| == |blocks| - (if pending then 1 else 0)
    && (pending ==> open == [] && blocks != [])
    && (!pending && open == [] ==> blocks == [])
    && (forall b | 0 <= b < |blocks| :: blocks[b] != [])
    && (forall b | 0 <= b < |index| :: IsSeparator(index[b], Last(blocks[b]), KeyAfter(blocks, open, b)))
  }

  ghost predicate FilterOk(userBytes: UserKey -> seq<Byte>, blocks: seq<seq<Entry>>, offsets: seq<nat>, open: seq<Entry>,
                           offset: nat, added: seq<Added>) {
    && |offsets| == |blocks|
    && (forall b, e | 0 <= b < |blocks| && e in blocks[b] :: Added(offsets[b], userBytes(e.k.user)) in added)
    && (forall e | e in open :: Added(offset, userBytes(e.k.user)) in added)
  }

  lemma AppendKeepsBlocks(blocks: seq<seq<Entry>>, open: seq<Entry>, offsets: seq<nat>, entries: seq<Entry>, lastKey: InternalKey, e: Entry)
    requires BlocksOk(blocks, open, offsets, entries, lastKey) && (entries != [] ==> Before(Last(entries), e.k))
    ensures BlocksOk(blocks, open + [e], offsets, entries + [e], e.k)
  {
    hide Flatten, Sorted, Before;
    AppendSorted(entries, e);
    assert Flatten(blocks) + (open + [e]) == entries + [e];
  }

  /** The pending index key separates the last block from the key that opens the next one. */
  lemma AppendKeepsIndex(shorten: Shorten, blocks: seq<seq<Entry>>, open: seq<Entry>, offsets: seq<nat>, entries: seq<Entry>,
                         lastKey: InternalKey, index: seq<InternalKey>, pending: bool, e: Entry)
    requires Shortens(shorten) && BlocksOk(blocks, open, offsets, entries, lastKey) && IndexOk(blocks, open, index, pending)
    requires entries != [] ==> Before(Last(entries), e.k)
    ensures IndexOk(blocks, open + [e], if pending then index + [shorten(lastKey, e.k)] else index, false)
  {
    hide Flatten, Sorted, Before, IsSeparator;
    LastBlockKey(blocks, open, entries);
    if pending {
      ShortenSeparates(shorten, lastKey, e.k);
    }
    var now := if pending then index + [shorten(lastKey, e.k)] else index;
    forall b | 0 <= b < |now|
      ensures IsSeparator(now[b], Last(blocks[b]), KeyAfter(blocks, open + [e], b))
    {
      if b < |index| {
        assert KeyAfter(blocks, open + [e], b) == KeyAfter(blocks, open, b);
      }
    }
  }

  lemma ShortenSeparates(shorten: Shorten, a: InternalKey, b: InternalKey)
    requires Shortens(shorten) && Before(a, b)
    ensures IsSeparator(shorten(a, b), a, b)
  {
  }

  lemma AppendKeepsFilter(userBytes: UserKey -> seq<Byte>, blocks: seq<seq<Entry>>, offsets: seq<nat>, open: seq<Entry>,
                          offset: nat, added: seq<Added>, e: Entry)
    requires FilterOk(userBytes, blocks, offsets, open, offset, added)
    ensures FilterOk(userBytes, blocks, offsets, open + [e], offset, added + [Added(offset, userBytes(e.k.user))])
  {
  }

  lemma FlushKeepsBlocks(blocks: seq<seq<Entry>>, open: seq<Entry>, offsets: seq<nat>, entries: seq<Entry>, lastKey: InternalKey, offset: nat)
    requires BlocksOk(blocks, open, offsets, entries, lastKey) && open != []
    ensures BlocksOk(blocks + [open], [], offsets + [offset], entries, lastKey)
  {
    hide Sorted, Flatten;
    FlattenAppend(blocks, open);
    assert entries + [] == entries;
  }

  lemma FlushKeepsIndex(blocks: seq<seq<Entry>>, open: seq<Entry>, index: seq<InternalKey>, pending: bool)
    requires IndexOk(blocks, open, index, pending) && open != []
    ensures !pending && IndexOk(blocks + [open], [], index, true)
  {
    hide IsSeparator;
    forall b | 0 <= b < |index|
      ensures IsSeparator(index[b], Last((blocks + [open])[b]), KeyAfter(blocks + [open], [], b))
    {
      assert KeyAfter(blocks + [open], [], b) == KeyAfter(blocks, open, b);
    }
  }

  lemma FlushKeepsFilter(userBytes: UserKey -> seq<Byte>, blocks: seq<seq<Entry>>, offsets: seq<nat>, open: seq<Entry>,
                         offset: nat, added: seq<Added>, size: nat)
    requires FilterOk(userBytes, blocks, offsets, open, offset, added)
    ensures FilterOk(userBytes, blocks + [open], offsets + [offset], [], offset + size, added)
  {
  }

  lemma FinishedFilter(userBytes: UserKey -> seq<Byte>, blocks: seq<seq<Entry>>, offsets: seq<nat>, offset: nat, added: seq<Added>)
    requires FilterOk(userBytes, blocks, offsets, [], offset, added)
    ensures |offsets| == |blocks|
    ensures forall b, e | 0 <= b < |blocks| && e in blocks[b] :: Added(offsets[b], userBytes(e.k.user)) in added
  {
  }

  lemma FinishedIndex(succeed: Succeed, blocks: seq<seq<Entry>>, offsets: seq<nat>, entries: seq<Entry>, lastKey: InternalKey,
                      index: seq<InternalKey>, pending: bool)
    requires Succeeds(succeed) && BlocksOk(blocks, [], offsets, entries, lastKey) && IndexOk(blocks, [], index, pending)
    ensures var now := if pending then index + [succeed(lastKey)] else index;
            Flatten(blocks) == entries && Indexed(blocks, now) && Separated(blocks, now) && |offsets| == |blocks|
  {
    hide Flatten, Separated;
    LastBlockKey(blocks, [], entries);
    assert Flatten(blocks) + [] == Flatten(blocks);
    IndexedIsSeparated(blocks, if pending then index + [succeed(lastKey)] else index);
  }

  /** With no open block the last key is that of the last block. */
  lemma LastBlockKey(blocks: seq<seq<Entry>>, open: seq<Entry>, entries: seq<Entry>)
    requires entries == Flatten(blocks) + open
    ensures open == [] && blocks != [] && blocks[|blocks| - 1] != [] ==> entries != [] && Last(entries) == Last(blocks[|blocks| - 1])
  {
  }

  lemma AppendSorted(es: seq<Entry>, e: Entry)
    requires Sorted(es) && (es != [] ==> Before(Last(es), e.k))
    ensures Sorted(es + [e])
  {
    forall i | 0 <= i < |es|
      ensures Before(es[i].k, e.k)
    {
      CompareIsTotalOrder(es[i].k, Last(es), e.k);
      assert i < |es| - 1 ==> Before(es[i].k, Last(es));
    }
  }

  // ---- Lookup

  /** Table::InternalGet. */
  method InternalGet(blocks: seq<seq<Entry>>, seps: seq<InternalKey>, offsets: seq<nat>, filter: Filter,
                     userBytes: UserKey -> seq<Byte>, k: InternalKey)
    returns (r: Option<Entry>)
    requires Separated(blocks, seps) && Indexed(blocks, seps) && |offsets| == |blocks| && Sorted(Flatten(blocks))
    requires forall b, e | 0 <= b < |blocks| && e in blocks[b] :: AskFilter(filter, userBytes, offsets[b], e.k.user)
    ensures r.Some? ==> exists p: nat :: IsBound(Flatten(blocks), k, p) && p < |Flatten(blocks)| && Flatten(blocks)[p] == r.value
    ensures forall p: nat | IsBound(Flatten(blocks), k, p) && p < |Flatten(blocks)| && Flatten(blocks)[p].k.user == k.user ::
              r == Some(Flatten(blocks)[p])
  {
    hide Separated, Indexed, IsBound, AskFilter;
    var b := SeekIndex(seps, k);
    SeekLands(blocks, seps, k);
    SameLength(blocks, seps);
    r := None;
    if b < |seps| {
      ghost var found := LowerBound(blocks[b], k);
      BlockInside(blocks, b);
      if AskFilter(filter, userBytes, offsets[b], k.user) {
        var pos := LowerBound(blocks[b], k);
        if pos < |blocks[b]| {
          FlattenAt(blocks, b, pos);
          r := Some(blocks[b][pos]);
        }
      }
      forall p: nat | IsBound(Flatten(blocks), k, p) && p < |Flatten(blocks)| && Flatten(blocks)[p].k.user == k.user
        ensures r == Some(Flatten(blocks)[p])
      {
        BoundsAgree(Flatten(blocks), k, p, Start(blocks, b) + found);
        WantedIsInBlock(blocks, seps, k, b, p);
        FlattenAt(blocks, b, found);
        assert blocks[b][found] in blocks[b];
      }
    } else {
      forall p: nat | IsBound(Flatten(blocks), k, p)
        ensures p == |Flatten(blocks)|
      {
        BoundsAgree(Flatten(blocks), k, p, |Flatten(blocks)|);
      }
    }
  }

  lemma SameLength(blocks: seq<seq<Entry>>, seps: seq<InternalKey>)
    requires Separated(blocks, seps)
    ensures |seps| == |blocks|
  {
  }

  lemma BoundsAgree(es: seq<Entry>, k: InternalKey, p: nat, q: nat)
    requires IsBound(es, k, p) && IsBound(es, k, q)
    ensures p == q
  {
    assert p < q ==> Before(es[p].k, k) && AtOrBefore(k, es[p].k);
    assert q < p ==> Before(es[q].k, k) && AtOrBefore(k, es[q].k);
  }

  /** The first entry at or after `k`, if it has the user key of `k`, is in the block the index leads to: the index
      key lies before any later entry of that user key. */
  lemma WantedIsInBlock(blocks: seq<seq<Entry>>, seps: seq<InternalKey>, k: InternalKey, b: nat, p: nat)
    requires Indexed(blocks, seps) && Sorted(Flatten(blocks)) && b < |blocks| && b == SeekIndex(seps, k)
    requires p == Start(blocks, b) + LowerBound(blocks[b], k) && p < |Flatten(blocks)|
    requires Flatten(blocks)[p].k.user == k.user
    ensures LowerBound(blocks[b], k) < |blocks[b]|
  {
    if LowerBound(blocks[b], k) == |blocks[b]| {
      var c, j := BlockOf(blocks, p);
      FlattenAt(blocks, c, j);
      StartStep(blocks, b);
      if c <= b {
        StartStep(blocks, c);
        StartsIncrease(blocks, c + 1, b + 1);
      } else {
        SepBeforeKey(blocks, seps, b, c, j);
        LastIsBelow(blocks[b], k);
        CompareIsTotalOrder(seps[b], k, seps[b]);
      }
    }
  }

  lemma LastIsBelow(es: seq<Entry>, k: InternalKey)
    requires es != [] && LowerBound(es, k) == |es|
    ensures Before(Last(es), k)
  {
  }

  /** A lookup through index and filter is the lookup among all the table's entries: reading a table in blocks
      makes no difference to TableCache::Get. */
  lemma GetIsLookup(blocks: seq<seq<Entry>>, u: UserKey, s: nat, r: Option<Entry>)
    requires Sorted(Flatten(blocks))
    requires r.Some? ==> exists p: nat :: IsBound(Flatten(blocks), SeekKey(u, s), p) && p < |Flatten(blocks)| && Flatten(blocks)[p] == r.value
    requires forall p: nat | IsBound(Flatten(blocks), SeekKey(u, s), p) && p < |Flatten(blocks)| && Flatten(blocks)[p].k.user == u ::
               r == Some(Flatten(blocks)[p])
    ensures LookupIn(Flatten(blocks), u, s)
            == if r.Some? && r.value.k.user == u then Hit(r.value) else Miss
  {
    hide IsBound, Sorted;
    var es, k := Flatten(blocks), SeekKey(u, s);
    var i := LowerBound(es, k);
    LowerBoundIsBound(es, k);
    if r.Some? {
      var p: nat :| IsBound(es, k, p) && p < |es| && es[p] == r.value;
      BoundsAgree(es, k, p, i);
    }
  }

  /** A table built from sorted entries and asked for a key: index, filter and blocks make no difference, the answer is
      that of a search among all the entries.  `full` and `size` are the block's state as its builder sees it. */
  method BuildAndGet(builder: TableBuilder, es: seq<Entry>, full: seq<Entry> -> bool, size: seq<Entry> -> nat, u: UserKey, s: nat)
    returns (filter: Filter, hit: Hit)
    requires Sorted(es) && builder.Valid() && builder.entries == []
    modifies builder, builder.filterBlock
    ensures filter.NoFilter? <==> builder.filterBlock == null
    ensures (filter.FilterOf? ==> |filter.contents| < TWO_32) ==> hit == LookupIn(es, u, s)
  {
    hide TableBuilder.Valid, AskFilter, Separated, Indexed, IsBound;
    for i := 0 to |es|
      invariant builder.Valid() && builder.entries == es[..i]
    {
      assert i > 0 ==> Before(es[i - 1].k, es[i].k) && Last(es[..i]) == es[i - 1].k;
      builder.Add(es[i], full(builder.dataBlock + [es[i]]), size(builder.dataBlock + [es[i]]));
    }
    assert es[..|es|] == es;
    filter := builder.Finish(size(builder.dataBlock));
    if filter.FilterOf? && |filter.contents| >= TWO_32 {
      hit := Miss;
    } else {
      var r := InternalGet(builder.blocks, builder.index, builder.offsets, filter, builder.userBytes, SeekKey(u, s));
      GetIsLookup(builder.blocks, u, s, r);
      hit := if r.Some? && r.value.k.user == u then Hit(r.value) else Miss;
    }
  }
}

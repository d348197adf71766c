/** TwoLevelIterator: an index of separators over blocks, as one cursor over all entries. */
module TwoLevel {
  import opened InternalKeys
  import opened Version
  import opened CompactionLoop
  import opened Boundary
  import opened Tables

  /** Where the data iterator is: in which block, and at which entry; the block's length if at none. */
  datatype DataAt = DataAt(block: nat, pos: nat)

  /** The block iterators' moves back and to the end: no entry is the length. */
  function Previous(n: nat, pos: nat): nat {
    if pos == 0 then n else pos - 1
  }

  function LastPosition(n: nat): nat {
    if n == 0 then 0 else n - 1
  }

  class TwoLevelIterator {
    const blocks: seq<seq<Entry>>
    const seps: seq<InternalKey>
    /** The index iterator, at no entry when it is the number of blocks. */
    var indexAt: nat
    var data: Option<DataAt>
    /** Where the cursor stands among all entries; their number if at none. */
    ghost var at: nat

    ghost predicate Made()
    {
      Separated(blocks, seps)
    }

    /** Where the iterator is between operations. */
    ghost predicate Standing()
      reads this
    {
      && Made()
      && if data.None? then at == |Flatten(blocks)|
         else
           && data.value.block == indexAt < |blocks| && data.value.pos < |blocks[indexAt]|
           && at == Start(blocks, indexAt) + data.value.pos && at < |Flatten(blocks)|
    }

    predicate Valid()
      reads this
    {
      data.Some?
    }

    function Entry(): Entry
      requires Standing() && Valid()
      reads this
    {
      blocks[indexAt][data.value.pos]
    }

    /** The entry shown is the one the cursor stands at. */
    lemma EntryAtCursor()
      requires Standing() && Valid()
      ensures at < |Flatten(blocks)| && Entry() == Flatten(blocks)[at]
    {
      FlattenAt(blocks, indexAt, data.value.pos);
    }

    lemma ValidIffInside()
      requires Standing()
      ensures at <= |Flatten(blocks)| && (Valid() <==> at < |Flatten(blocks)|)
    {
    }

    constructor (blocks: seq<seq<Entry>>, seps: seq<InternalKey>)
      requires Separated(blocks, seps)
      ensures Standing() && !Valid() && this.blocks == blocks && this.seps == seps
    {
      this.blocks, this.seps := blocks, seps;
      indexAt, data, at := |blocks|, None, |Flatten(blocks)|;
    }

    /** InitDataBlock: the iterator of the block the index stands at, the same one as before if it is that block's. */
    method InitDataBlock()
      requires indexAt <= |blocks|
      modifies this`data
      ensures if indexAt == |blocks| then data.None? else data.Some? && data.value.block == indexAt
    {
      if indexAt == |blocks| {
        data := None;
      } else if data.Some? && data.value.block == indexAt {
      } else {
        data := Some(DataAt(indexAt, |blocks[indexAt]|));
      }
    }

    predicate AtEntry()
      requires data.Some? ==> data.value.block < |blocks|
      reads this
    {
      data.Some? && data.value.pos < |blocks[data.value.block]|
    }

    /** SkipEmptyDataBlocksForward: from a place that may be past the end of a block, to the next entry. */
    method SkipEmptyDataBlocksForward()
      requires Made() && indexAt <= |blocks|
      requires data.Some? ==> data.value.block == indexAt < |blocks| && data.value.pos <= |blocks[indexAt]|
      requires data.None? ==> indexAt == |blocks|
      modifies this
      ensures Standing()
      ensures at == if old(data).None? then |Flatten(blocks)| else Start(blocks, old(indexAt)) + old(data).value.pos
    {
      hide Separated;
      at := if data.None? then |Flatten(blocks)| else Start(blocks, indexAt) + data.value.pos;
      WholeStart(blocks);
      while !AtEntry()
        invariant indexAt <= |blocks|
        invariant data.Some? ==> data.value.block == indexAt < |blocks| && data.value.pos <= |blocks[indexAt]|
        invariant data.None? ==> indexAt == |blocks|
        invariant at == if data.None? then |Flatten(blocks)| else Start(blocks, indexAt) + data.value.pos
        invariant at == if old(data).None? then |Flatten(blocks)| else Start(blocks, old(indexAt)) + old(data).value.pos
        decreases |blocks| - indexAt
      {
        if indexAt == |blocks| {
          data := None;
          return;
        }
        StartStep(blocks, indexAt);
        indexAt := indexAt + 1;
        InitDataBlock();
        if data.Some? {
          data := Some(DataAt(indexAt, 0));
        }
      }
      FlattenAt(blocks, indexAt, data.value.pos);
    }

    /** SkipEmptyDataBlocksBackward: to the last entry before `p`, where `p` is behind all of the entries up to the
        present place. */
    method SkipEmptyDataBlocksBackward(ghost p: nat)
      requires Made() && indexAt <= |blocks|
      requires data.Some? ==> data.value.block == indexAt < |blocks| && data.value.pos <= |blocks[indexAt]|
      requires data.None? ==> indexAt == |blocks| && p == 0
      requires data.Some? ==> if data.value.pos < |blocks[indexAt]| then p == Start(blocks, indexAt) + data.value.pos + 1
                              else p == Start(blocks, indexAt)
      modifies this
      ensures Standing() && at == if p == 0 then |Flatten(blocks)| else p - 1
    {
      hide Separated;
      NoStart(blocks);
      while !AtEntry()
        invariant indexAt <= |blocks|
        invariant data.Some? ==> data.value.block == indexAt < |blocks| && data.value.pos <= |blocks[indexAt]|
        invariant data.None? ==> indexAt == |blocks| && p == 0
        invariant data.Some? ==> if data.value.pos < |blocks[indexAt]| then p == Start(blocks, indexAt) + data.value.pos + 1
                                 else p == Start(blocks, indexAt)
        decreases if data.None? then 0 else indexAt + 1
      {
        if indexAt == |blocks| {
          data := None;
          at := |Flatten(blocks)|;
          return;
        }
        indexAt := Previous(|blocks|, indexAt);
        InitDataBlock();
        if data.Some? {
          StartStep(blocks, indexAt);
          data := Some(DataAt(indexAt, LastPosition(|blocks[indexAt]|)));
        }
      }
      at := p - 1;
      FlattenAt(blocks, indexAt, data.value.pos);
    }

    method Seek(target: InternalKey)
      requires Made()
      modifies this
      ensures Standing() && IsBound(Flatten(blocks), target, at)
    {
      SeekLands(blocks, seps, target);
      hide Separated, IsBound;
      SameLength(blocks, seps);
      indexAt := SeekIndex(seps, target);
      InitDataBlock();
      if data.Some? {
        data := Some(DataAt(indexAt, LowerBound(blocks[indexAt], target)));
      }
      SkipEmptyDataBlocksForward();
    }

    method SeekToFirst()
      requires Made()
      modifies this
      ensures Standing() && at == 0
    {
      hide Separated;
      NoStart(blocks);
      WholeStart(blocks);
      indexAt := 0;
      InitDataBlock();
      if data.Some? {
        data := Some(DataAt(indexAt, 0));
      }
      SkipEmptyDataBlocksForward();
    }

    method SeekToLast()
      requires Made()
      modifies this
      ensures Standing() && at == LastPosition(|Flatten(blocks)|)
    {
      hide Separated;
      NoStart(blocks);
      WholeStart(blocks);
      indexAt := LastPosition(|blocks|);
      InitDataBlock();
      if data.Some? {
        StartStep(blocks, indexAt);
        data := Some(DataAt(indexAt, LastPosition(|blocks[indexAt]|)));
      }
      SkipEmptyDataBlocksBackward(|Flatten(blocks)|);
    }

    method Next()
      requires Standing() && Valid()
      modifies this
      ensures Standing() && at == old(at) + 1
    {
      hide Separated;
      data := Some(DataAt(indexAt, data.value.pos + 1));
      SkipEmptyDataBlocksForward();
    }

    method Prev()
      requires Standing() && Valid()
      modifies this
      ensures Standing() && at == Previous(|Flatten(blocks)|, old(at))
    {
      hide Separated;
      ghost var p := at;
      data := Some(DataAt(indexAt, Previous(|blocks[indexAt]|, data.value.pos)));
      SkipEmptyDataBlocksBackward(p);
    }
  }

  /** A scan meets every entry of the table, in order. */
  method Scan(it: TwoLevelIterator) returns (es: seq<Entry>)
    requires it.Made()
    modifies it
    ensures it.Standing() && es == Flatten(it.blocks)
  {
    hide TwoLevelIterator.Standing;
    es := [];
    it.SeekToFirst();
    it.ValidIffInside();
    while it.Valid()
      invariant it.Standing() && it.at <= |Flatten(it.blocks)| && (it.Valid() <==> it.at < |Flatten(it.blocks)|)
      invariant es == Flatten(it.blocks)[..it.at]
      decreases |Flatten(it.blocks)| - it.at
    {
      it.EntryAtCursor();
      es := es + [it.Entry()];
      it.Next();
      it.ValidIffInside();
    }
  }

  lemma WholeStart(blocks: seq<seq<Entry>>)
    ensures Start(blocks, |blocks|) == |Flatten(blocks)|
  {
    assert blocks[..|blocks|] == blocks;
  }

  lemma NoStart(blocks: seq<seq<Entry>>)
    ensures Start(blocks, 0) == 0
  {
    assert blocks[..0] == [];
  }
}

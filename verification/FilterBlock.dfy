/** The filter block: one filter for every 2 KiB of table offsets. */
module FilterBlock {
  import opened Coding
  import opened Bloom

  const BASE_LG: Byte := 11
  const BASE: nat := 2048

  /** x >> n. */
  function ShiftRight(x: nat, n: nat): nat
    decreases n
  {
    if n == 0 then x else ShiftRight(x / 2, n - 1)
  }

  lemma ShiftByBase(x: nat)
    ensures ShiftRight(x, BASE_LG as int) == x / BASE
  {
    ShiftBy4(x);
    ShiftBy4(x / 16);
    assert x / 16 / 16 == x / 256;
    ShiftBy3(x / 256);
    assert x / 256 / 8 == x / BASE;
    ShiftTwice(x, 4, 4);
    ShiftTwice(x, 8, 3);
  }

  lemma ShiftBy3(x: nat)
    ensures ShiftRight(x, 3) == x / 8
  {
    assert ShiftRight(x, 3) == ShiftRight(x / 2 / 2 / 2, 0);
  }

  lemma ShiftBy4(x: nat)
    ensures ShiftRight(x, 4) == x / 16
  {
    assert ShiftRight(x, 4) == ShiftRight(x / 2 / 2, 2) == ShiftRight(x / 2 / 2 / 2 / 2, 0);
  }

  lemma {:induction false} ShiftTwice(x: nat, m: nat, n: nat)
    ensures ShiftRight(x, m + n) == ShiftRight(ShiftRight(x, m), n)
    decreases m
  {
    if m > 0 {
      ShiftTwice(x / 2, m - 1, n);
    }
  }

  function Offsets(fo: seq<nat>): (r: seq<Byte>)
    ensures |r| == 4 * |fo|
  {
    if fo == [] then [] else Offsets(fo[..|fo| - 1]) + PutFixed32(fo[|fo| - 1])
  }

  lemma {:induction false} OffsetAt(fo: seq<nat>, i: nat)
    requires i < |fo|
    ensures Offsets(fo)[4 * i..4 * i + 4] == PutFixed32(fo[i])
  {
    if i < |fo| - 1 {
      OffsetAt(fo[..|fo| - 1], i);
    }
  }

  /** What FilterBlockReader keeps of a block's contents: where the offset array starts, how many entries it has,
      and the encoding parameter. */
  datatype Layout = Layout(start: nat, num: nat, baseLg: nat)

  /** The constructor of FilterBlockReader. */
  function ReadLayout(contents: seq<Byte>): (r: Layout)
    ensures r.num > 0 ==> r.start + 4 * r.num + 5 <= |contents|
  {
    var n := |contents|;
    if n < 5 then Layout(0, 0, 0)
    else
      var start := GetFixed32(contents, n - 5);
      if start > n - 5 then Layout(0, 0, contents[n - 1] as int)
      else Layout(start, (n - 5 - start) / 4, contents[n - 1] as int)
  }

  /** FilterBlockReader::KeyMayMatch. */
  predicate MayContain(hash: Hash, contents: seq<Byte>, blockOffset: nat, key: seq<Byte>) {
    var l := ReadLayout(contents);
    var index := ShiftRight(blockOffset, l.baseLg);
    if index >= l.num then true
    else
      var start := GetFixed32(contents, l.start + 4 * index);
      var limit := GetFixed32(contents, l.start + 4 * index + 4);
      if start <= limit && limit <= l.start then KeyMayMatch(hash, key, contents[start..limit])
      else start != limit
  }

  /** A key, and the offset of the data block it was added for. */
  datatype Added = Added(offset: nat, key: seq<Byte>)

  /** The filter in slot `i`: what lies between its offset and the next. */
  function Slot(filters: seq<Byte>, fo: seq<nat>, i: nat): seq<Byte>
    requires i < |fo| && fo[i] <= |filters|
    requires i + 1 < |fo| ==> fo[i] <= fo[i + 1] <= |filters|
  {
    filters[fo[i]..if i + 1 < |fo| then fo[i + 1] else |filters|]
  }

  ghost predicate Ordered(filters: seq<Byte>, fo: seq<nat>) {
    && (forall i | 0 <= i < |fo| :: fo[i] <= |filters|)
    && (forall i | 0 <= i < |fo| - 1 :: fo[i] <= fo[i + 1])
  }

  /** The key has made it into its slot's filter, or waits for the next filter to be generated. */
  ghost predicate Covered(hash: Hash, filters: seq<Byte>, fo: seq<nat>, keys: seq<seq<Byte>>, a: Added)
    requires Ordered(filters, fo)
  {
    var slot := a.offset / BASE;
    if slot < |fo| then KeyMayMatch(hash, a.key, Slot(filters, fo, slot)) else slot == |fo| && a.key in keys
  }

  /** A slot appended without keys leaves the filters before it as they were. */
  lemma EmptySlot(hash: Hash, filters: seq<Byte>, fo: seq<nat>, a: Added)
    requires Ordered(filters, fo) && Covered(hash, filters, fo, [], a)
    ensures Ordered(filters, fo + [|filters|]) && Covered(hash, filters, fo + [|filters|], [], a)
  {
    hide KeyMayMatch;
  }

  /** So does a new filter, and it covers the keys it was made for. */
  lemma NewSlot(hash: Hash, filters: seq<Byte>, fo: seq<nat>, keys: seq<seq<Byte>>, filter: seq<Byte>, a: Added)
    requires Ordered(filters, fo) && Covered(hash, filters, fo, keys, a)
    requires forall key | key in keys :: KeyMayMatch(hash, key, filter)
    ensures Ordered(filters + filter, fo + [|filters|]) && Covered(hash, filters + filter, fo + [|filters|], [], a)
  {
    hide KeyMayMatch;
    var slot := a.offset / BASE;
    var fo' := fo + [|filters|];
    if slot < |fo| {
      assert Slot(filters + filter, fo', slot) == Slot(filters, fo, slot);
    } else {
      assert Slot(filters + filter, fo', slot) == filter;
    }
  }

  /** The finished block. */
  function Block(filters: seq<Byte>, fo: seq<nat>): seq<Byte> {
    filters + Offsets(fo) + PutFixed32(|filters|) + [BASE_LG]
  }

  /** The reader finds in a finished block where the builder put the filters. */
  lemma LayoutOfBlock(filters: seq<Byte>, fo: seq<nat>)
    requires |Block(filters, fo)| < TWO_32
    ensures ReadLayout(Block(filters, fo)) == Layout(|filters|, |fo|, BASE_LG as int)
  {
    hide PutFixed32, GetFixed32, Offsets;
    var b := Block(filters, fo);
    assert b[|b| - 5..|b| - 1] == PutFixed32(|filters|);
    Fixed32RoundTrip(|filters|, b, |b| - 5);
  }

  /** The offsets of slot `i`: its own and the next, which for the last slot is the start of the array. */
  lemma SlotOffsets(filters: seq<Byte>, fo: seq<nat>, i: nat)
    requires |Block(filters, fo)| < TWO_32 && i < |fo| && Ordered(filters, fo)
    ensures GetFixed32(Block(filters, fo), |filters| + 4 * i) == fo[i]
    ensures GetFixed32(Block(filters, fo), |filters| + 4 * i + 4) == if i + 1 < |fo| then fo[i + 1] else |filters|
  {
    hide PutFixed32, GetFixed32, Offsets;
    var b := Block(filters, fo);
    OffsetInBlock(filters, fo, i);
    Fixed32RoundTrip(fo[i], b, |filters| + 4 * i);
    if i + 1 < |fo| {
      OffsetInBlock(filters, fo, i + 1);
      Fixed32RoundTrip(fo[i + 1], b, |filters| + 4 * i + 4);
    } else {
      assert b[|filters| + 4 * |fo|..|filters| + 4 * |fo| + 4] == PutFixed32(|filters|);
      Fixed32RoundTrip(|filters|, b, |filters| + 4 * i + 4);
    }
  }

  lemma OffsetInBlock(filters: seq<Byte>, fo: seq<nat>, i: nat)
    requires i < |fo|
    ensures Block(filters, fo)[|filters| + 4 * i..|filters| + 4 * i + 4] == PutFixed32(fo[i])
  {
    hide PutFixed32, Offsets;
    OffsetAt(fo, i);
    var b, o := Block(filters, fo), Offsets(fo);
    assert b[|filters|..|filters| + |o|] == o;
    assert b[|filters| + 4 * i..|filters| + 4 * i + 4] == o[4 * i..4 * i + 4];
  }

  /** What the reader answers for a slot is what its filter says. */
  lemma ReaderAsksSlot(hash: Hash, filters: seq<Byte>, fo: seq<nat>, offset: nat, key: seq<Byte>)
    requires |Block(filters, fo)| < TWO_32 && Ordered(filters, fo)
    ensures MayContain(hash, Block(filters, fo), offset, key)
            <==> offset / BASE >= |fo| || KeyMayMatch(hash, key, Slot(filters, fo, offset / BASE))
  {
    hide KeyMayMatch, PutFixed32, GetFixed32, Offsets, ReadLayout, ShiftRight;
    ShiftByBase(offset);
    LayoutOfBlock(filters, fo);
    var i := offset / BASE;
    if i < |fo| {
      SlotOffsets(filters, fo, i);
      var limit := if i + 1 < |fo| then fo[i + 1] else |filters|;
      assert Block(filters, fo)[fo[i]..limit] == filters[fo[i]..limit];
    }
  }

  /** The loop of Finish. */
  method PutOffsets(fo: seq<nat>) returns (r: seq<Byte>)
    ensures r == Offsets(fo)
  {
    hide PutFixed32, Offsets;
    NoOffsets();
    assert fo[..0] == [];
    r := [];
    for i := 0 to |fo|
      invariant r == Offsets(fo[..i])
    {
      OffsetsGrow(fo, i);
      r := r + PutFixed32(fo[i]);
    }
    assert fo[..|fo|] == fo;
  }

  lemma NoOffsets()
    ensures Offsets([]) == []
  {
  }

  class FilterBlockBuilder {
    const hash: Hash
    const bitsPerKey: nat
    /** How many probes the policy makes for each key. */
    const k: nat
    /** The keys since the last filter. */
    var keys: seq<seq<Byte>>
    /** The filters so far, and where each starts. */
    var filters: seq<Byte>
    var filterOffsets: seq<nat>
    /** Everything added, and the offset of the block being added to; the specification. */
    ghost var added: seq<Added>
    ghost var current: nat

    ghost predicate Valid()
      reads this
    {
      && 1 <= k <= 30
      && Ordered(filters, filterOffsets)
      && current / BASE == |filterOffsets|
      && forall a | a in added :: Covered(hash, filters, filterOffsets, keys, a)
    }

    constructor (hash: Hash, bitsPerKey: nat)
      ensures Valid() && added == [] && current == 0
    {
      this.hash, this.bitsPerKey, k := hash, bitsPerKey, Probes(bitsPerKey);
      keys, filters, filterOffsets := [], [], [];
      added, current := [], 0;
    }

    /** GenerateFilter. */
    method GenerateFilter()
      requires 1 <= k <= 30 && Ordered(filters, filterOffsets)
      requires forall a | a in added :: Covered(hash, filters, filterOffsets, keys, a)
      modifies this`keys, this`filters, this`filterOffsets
      ensures Ordered(filters, filterOffsets) && |filterOffsets| == |old(filterOffsets)| + 1 && keys == []
      ensures forall a | a in added :: Covered(hash, filters, filterOffsets, keys, a)
    {
      hide KeyMayMatch, Covered;
      if keys == [] {
        forall a | a in added
          ensures Ordered(filters, filterOffsets + [|filters|])
          ensures Covered(hash, filters, filterOffsets + [|filters|], [], a)
        {
          EmptySlot(hash, filters, filterOffsets, a);
        }
        filterOffsets := filterOffsets + [|filters|];
        return;
      }
      var filter := CreateFilter(hash, bitsPerKey, k, keys);
      forall key | key in keys
        ensures KeyMayMatch(hash, key, filter)
      {
        NoFalseNegatives(hash, bitsPerKey, k, keys, filter, key);
      }
      forall a | a in added
        ensures Ordered(filters + filter, filterOffsets + [|filters|])
        ensures Covered(hash, filters + filter, filterOffsets + [|filters|], [], a)
      {
        NewSlot(hash, filters, filterOffsets, keys, filter, a);
      }
      filterOffsets := filterOffsets + [|filters|];
      filters := filters + filter;
      keys := [];
    }

    /** StartBlock; table offsets do not go back behind the filters generated. */
    method StartBlock(blockOffset: nat)
      requires Valid() && blockOffset / BASE >= |filterOffsets|
      modifies this
      ensures Valid() && current == blockOffset && added == old(added)
    {
      hide KeyMayMatch, Covered;
      var filterIndex := blockOffset / BASE;
      while filterIndex > |filterOffsets|
        invariant 1 <= k <= 30 && Ordered(filters, filterOffsets) && filterIndex >= |filterOffsets|
        invariant added == old(added) && forall a | a in added :: Covered(hash, filters, filterOffsets, keys, a)
      {
        GenerateFilter();
      }
      current := blockOffset;
    }

    /** AddKey. */
    method AddKey(key: seq<Byte>)
      requires Valid()
      modifies this`keys, this`added
      ensures Valid() && added == old(added) + [Added(current, key)]
    {
      hide KeyMayMatch;
      keys := keys + [key];
      added := added + [Added(current, key)];
    }

    /** Finish. */
    method Finish() returns (contents: seq<Byte>)
      requires Valid()
      modifies this`keys, this`filters, this`filterOffsets
      ensures |contents| < TWO_32 ==> forall a | a in added :: MayContain(hash, contents, a.offset, a.key)
    {
      hide KeyMayMatch, Covered, MayContain, Offsets, Slot;
      if keys != [] {
        GenerateFilter();
      }
      var offsets := PutOffsets(filterOffsets);
      contents := filters + offsets + PutFixed32(|filters|) + [BASE_LG];
      if |contents| < TWO_32 {
        forall a | a in added
          ensures MayContain(hash, contents, a.offset, a.key)
        {
          ReaderAsksSlot(hash, filters, filterOffsets, a.offset, a.key);
          CoveredAtEnd(hash, filters, filterOffsets, a);
        }
      }
    }
  }

  lemma OffsetsGrow(fo: seq<nat>, i: nat)
    requires i < |fo|
    ensures Offsets(fo[..i + 1]) == Offsets(fo[..i]) + PutFixed32(fo[i])
  {
    assert fo[..i + 1][..i] == fo[..i];
  }

  lemma CoveredAtEnd(hash: Hash, filters: seq<Byte>, fo: seq<nat>, a: Added)
    requires Ordered(filters, fo) && Covered(hash, filters, fo, [], a)
    ensures a.offset / BASE < |fo| && KeyMayMatch(hash, a.key, Slot(filters, fo, a.offset / BASE))
  {
    hide KeyMayMatch;
  }
}

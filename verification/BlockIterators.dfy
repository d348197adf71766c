/** Iterating over a block: a cursor over the entries that were added. */
module BlockIterators {
  import opened Coding
  import opened BlockFormat

  type Less = (Bytes, Bytes) -> bool

  /** The comparator is a total order. */
  ghost predicate IsOrder(less: Less) {
    && (forall a, b | less(a, b) :: !less(b, a))
    && (forall a, b, c | less(a, b) && less(b, c) :: less(a, c))
    && (forall a, b | a != b :: less(a, b) || less(b, a))
  }

  ghost predicate Ascending(less: Less, es: seq<KV>) {
    forall i, j | 0 <= i < j < |es| :: less(es[i].key, es[j].key)
  }

  /** The index of the first entry at or after `target`. */
  ghost predicate IsLowerBound(less: Less, es: seq<KV>, target: Bytes, p: nat) {
    && p <= |es|
    && (forall i | 0 <= i < p :: less(es[i].key, target))
    && (forall i | p <= i < |es| :: !less(es[i].key, target))
  }

  lemma BoundHere(less: Less, es: seq<KV>, target: Bytes, p: nat)
    requires IsOrder(less) && Ascending(less, es) && p <= |es|
    requires p > 0 ==> less(es[p - 1].key, target)
    requires p < |es| ==> !less(es[p].key, target)
    ensures IsLowerBound(less, es, target, p)
  {
    forall i | 0 <= i < p
      ensures less(es[i].key, target)
    {
      assert i < p - 1 ==> less(es[i].key, es[p - 1].key);
    }
    forall i | p <= i < |es|
      ensures !less(es[i].key, target)
    {
      assert i > p ==> less(es[p].key, es[i].key);
    }
  }

  /** The iterator stands where it can parse entry `i`: with the key before it, or with any key if nothing is shared. */
  ghost predicate Ready(es: seq<KV>, sh: Shape, key: Bytes, i: nat)
    requires Sized(es, sh)
  {
    && i <= |es|
    && (i < |es| ==> sh.shared[i] == 0 || (i > 0 && key == es[i - 1].key))
  }

  class Iter {
    const less: Less
    const data: Bytes
    /** Where the restart array starts, and how many entries it has. */
    const restarts: nat
    const numRestarts: nat
    /** What the block was built from; the specification. */
    ghost const restartList: seq<nat>
    ghost const entries: seq<KV>
    ghost const shape: Shape

    var current: nat
    var restartIndex: nat
    var key: Bytes
    /** The value, as the place it has in the block. */
    var valueStart: nat
    var valueLength: nat
    /** The index of the current entry, and the number of entries when there is none. */
    ghost var at: nat

    /** The block is one a builder made. */
    ghost predicate Built()
    {
      && IsOrder(less) && Ascending(less, entries)
      && (forall i | 0 <= i < |entries| :: |entries[i].key| + |entries[i].value| < TWO_32)
      && restarts <= |data| < TWO_32 && numRestarts == |restartList|
      && data == Contents(data[..restarts], restartList)
      && Holds(data[..restarts], restartList, entries, shape)
    }

    /** Where the iterator stands between operations. */
    ghost predicate Standing()
      reads this
    {
      && Built() && at <= |entries|
      && if at == |entries| then current == restarts
         else
           && current == shape.offs[at] && key == entries[at].key
           && valueStart + valueLength == shape.offs[at + 1] <= |data| && data[valueStart..valueStart + valueLength] == entries[at].value
           && restartIndex < numRestarts && restartList[restartIndex] <= current
    }

    predicate Valid()
      reads this
    {
      current < restarts
    }

    /** Valid says whether there is a current entry. */
    lemma ValidMeansEntry()
      requires Standing()
      ensures Valid() <==> at < |entries|
    {
      if at < |entries| {
        OffsetsIncrease(data[..restarts], restartList, entries, shape, at, at);
        assert EntryAt(data[..restarts], entries, shape, at);
      }
    }

    /** An iterator over the block `contents`, which a builder made of `entries`. */
    constructor (less: Less, contents: Bytes, ghost buffer: Bytes, ghost restartList: seq<nat>, ghost entries: seq<KV>, ghost shape: Shape)
      requires IsOrder(less) && Ascending(less, entries) && |contents| < TWO_32
      requires forall i | 0 <= i < |entries| :: |entries[i].key| + |entries[i].value| < TWO_32
      requires contents == Contents(buffer, restartList) && Holds(buffer, restartList, entries, shape)
      ensures Standing() && !Valid() && at == |entries| && this.entries == entries
    {
      var trailer := ReadTrailer(contents);
      TrailerOfContents(buffer, restartList);
      assert contents[..|buffer|] == buffer;
      this.less := less;
      this.data, this.restarts, this.numRestarts := contents, trailer.0, trailer.1;
      this.restartList, this.entries, this.shape := restartList, entries, shape;
      this.current, this.restartIndex := trailer.0, trailer.1;
      this.key, this.valueStart, this.valueLength := [], 0, 0;
      this.at := |entries|;
    }

    method GetRestartPoint(index: nat) returns (r: nat)
      requires Built() && index < numRestarts
      ensures r == restartList[index] && r <= restarts
    {
      assert RestartAt(entries, shape, restartList, index);
      OffsetsIncrease(data[..restarts], restartList, entries, shape, shape.rs[index], shape.rs[index]);
      RestartInContents(data[..restarts], restartList, index);
      assert restarts + 4 * index + 4 <= |data| by {
        assert |data| == restarts + 4 * numRestarts + 4;
      }
      r := GetFixed32(data, restarts + 4 * index);
    }

    /** Stand before the entry at a restart point. */
    method SeekToRestartPoint(index: nat)
      requires Built() && index < numRestarts
      modifies this
      ensures restartIndex == index && key == []
      ensures RestartAt(entries, shape, restartList, index) && valueStart + valueLength == restartList[index]
      ensures Ready(entries, shape, key, shape.rs[index])
    {
      key := [];
      restartIndex := index;
      var offset := GetRestartPoint(index);
      assert RestartAt(entries, shape, restartList, index);
      valueStart, valueLength := offset, 0;
    }

    /** ParseNextKey: from before entry `i`. */
    method ParseNextKey(ghost i: nat) returns (ok: bool)
      requires Built() && Ready(entries, shape, key, i) && valueStart + valueLength == shape.offs[i]
      requires restartIndex < numRestarts && restartList[restartIndex] <= shape.offs[i]
      modifies this
      ensures Standing() && at == i && (ok <==> i < |entries|)
    {
      hide IsOrder, Ascending, Holds, EntryAt, DecodeEntry;
      current := valueStart + valueLength;
      at := i;
      EndOrEntry(data, restarts, restartList, entries, shape, i);
      if current >= restarts {
        current := restarts;
        restartIndex := numRestarts;
        return false;
      }
      TakeEntry(i);
      AdvanceRestart();
      ok := true;
    }

    /** The part of ParseNextKey that decodes the entry at `current`. */
    method TakeEntry(ghost i: nat)
      requires Built() && Sized(entries, shape) && i < |entries| && current == shape.offs[i] && EntryAt(data[..restarts], entries, shape, i)
      requires Ready(entries, shape, key, i)
      modifies this`key, this`valueStart, this`valueLength
      ensures key == entries[i].key && valueStart + valueLength == shape.offs[i + 1] <= |data|
      ensures data[valueStart..valueStart + valueLength] == entries[i].value
    {
      hide IsOrder, Ascending, Holds, EntryAt, DecodeEntry, Ready;
      EntryHere(data, restarts, entries, shape, i);
      KeyRebuilt(data[..restarts], entries, shape, i, key);
      var h := DecodeEntry(data[current..restarts]);
      if h.Damaged? || |key| < h.shared {
        // The block is damaged; not reached in one that a builder made.
        assert false;
      }
      key := key[..h.shared] + data[current + h.start..current + h.start + h.nonShared];
      valueStart, valueLength := current + h.start + h.nonShared, h.valueLength;
    }

    /** The loop at the end of ParseNextKey. */
    method AdvanceRestart()
      requires Built() && restartIndex < numRestarts && restartList[restartIndex] <= current
      modifies this`restartIndex
      ensures restartIndex < numRestarts && restartList[restartIndex] <= current
      ensures restartIndex + 1 < numRestarts ==> restartList[restartIndex + 1] >= current
    {
      while restartIndex + 1 < numRestarts
        invariant restartIndex < numRestarts && restartList[restartIndex] <= current
        decreases numRestarts - restartIndex
      {
        var next := GetRestartPoint(restartIndex + 1);
        if next >= current {
          break;
        }
        restartIndex := restartIndex + 1;
      }
    }

    method Next()
      requires Standing() && Valid()
      modifies this
      ensures Standing() && at == old(at) + 1
    {
      ValidMeansEntry();
      ghost var i := at + 1;
      if i < |entries| {
        assert EntryAt(data[..restarts], entries, shape, i);
      }
      OffsetsIncrease(data[..restarts], restartList, entries, shape, at, i);
      var _ := ParseNextKey(i);
    }

    method SeekToFirst()
      requires Standing()
      modifies this
      ensures Standing() && at == 0
    {
      SeekToRestartPoint(0);
      var _ := ParseNextKey(0);
    }

    /** Parse on until the current entry is the last that ends before `limit`. */
    method ParseUntil(limit: nat, ghost i: nat, ghost last: nat)
      requires Built() && Ready(entries, shape, key, i) && valueStart + valueLength == shape.offs[i]
      requires restartIndex < numRestarts && restartList[restartIndex] <= shape.offs[i]
      requires i <= last < |entries| && limit == shape.offs[last + 1]
      modifies this
      ensures Standing() && at == last
    {
      ghost var j := i;
      while true
        invariant Built() && i <= j <= last && Ready(entries, shape, key, j) && valueStart + valueLength == shape.offs[j]
        invariant restartIndex < numRestarts && restartList[restartIndex] <= shape.offs[j]
        decreases last - j
      {
        var ok := ParseNextKey(j);
        OffsetsIncrease(data[..restarts], restartList, entries, shape, j + 1, last + 1);
        OffsetsIncrease(data[..restarts], restartList, entries, shape, j, j + 1);
        if !ok || valueStart + valueLength >= limit {
          return;
        }
        ReadyAfter(data[..restarts], restartList, entries, shape, j);
        j := j + 1;
      }
    }

    method Prev()
      requires Standing() && Valid()
      modifies this
      ensures Standing() && at == if old(at) == 0 then |entries| else old(at) - 1
    {
      ValidMeansEntry();
      var original := current;
      while true
        invariant Built() && at == old(at) && current == original && restartIndex < numRestarts
        decreases restartIndex
      {
        var point := GetRestartPoint(restartIndex);
        if point < original {
          break;
        }
        if restartIndex == 0 {
          FirstPoint(data[..restarts], restartList, entries, shape, at);
          current := restarts;
          restartIndex := numRestarts;
          at := |entries|;
          return;
        }
        restartIndex := restartIndex - 1;
      }
      PointBefore(data[..restarts], restartList, entries, shape, restartIndex, at);
      SeekToRestartPoint(restartIndex);
      ParseUntil(original, shape.rs[restartIndex], old(at) - 1);
    }

    method SeekToLast()
      requires Standing()
      modifies this
      ensures Standing() && at == if entries == [] then 0 else |entries| - 1
    {
      SeekToRestartPoint(numRestarts - 1);
      assert RestartAt(entries, shape, restartList, numRestarts - 1);
      if restarts == 0 {
        OffsetsIncrease(data[..restarts], restartList, entries, shape, 0, |entries|);
        var _ := ParseNextKey(0);
      } else {
        ParseUntil(restarts, shape.rs[numRestarts - 1], |entries| - 1);
      }
    }

    /** The binary search of Seek: the last restart point with a key before `target`, or the first point. */
    method FindRestart(target: Bytes) returns (left: nat)
      requires Built()
      ensures left < numRestarts && RestartAt(entries, shape, restartList, left)
      ensures left > 0 ==> shape.rs[left] < |entries| && less(entries[shape.rs[left]].key, target)
    {
      hide IsOrder, Ascending, EntryAt, DecodeEntry;
      left := 0;
      var right := numRestarts - 1;
      while left < right
        invariant 0 <= left <= right < numRestarts
        invariant left > 0 ==> shape.rs[left] < |entries| && less(entries[shape.rs[left]].key, target)
        decreases right - left
      {
        var mid := (left + right + 1) / 2;
        var regionOffset := GetRestartPoint(mid);
        RestartEntry(data, restarts, restartList, entries, shape, mid);
        var h := DecodeEntry(data[regionOffset..restarts]);
        if h.Damaged? || h.shared != 0 {
          // The block is damaged; not reached in one that a builder made.
          assert false;
        }
        var midKey := data[regionOffset + h.start..regionOffset + h.start + h.nonShared];
        if less(midKey, target) {
          left := mid;
        } else {
          right := mid - 1;
        }
      }
    }

    /** Seek: binary search among the restart points, then on through the entries. */
    method Seek(target: Bytes)
      requires Standing()
      modifies this
      ensures Standing() && IsLowerBound(less, entries, target, at)
    {
      hide IsOrder, Ascending, IsLowerBound, EntryAt;
      var left := FindRestart(target);
      SeekToRestartPoint(left);
      ghost var i := shape.rs[left];
      while true
        invariant Built() && i <= |entries| && Ready(entries, shape, key, i) && valueStart + valueLength == shape.offs[i]
        invariant restartIndex < numRestarts && restartList[restartIndex] <= shape.offs[i]
        invariant shape.rs[left] <= i && (i > shape.rs[left] ==> less(entries[i - 1].key, target))
        decreases |entries| - i
      {
        var ok := ParseNextKey(i);
        if !ok || !less(key, target) {
          SeekLands(less, entries, shape, target, left, i);
          return;
        }
        OffsetsIncrease(data[..restarts], restartList, entries, shape, i, i + 1);
        ReadyAfter(data[..restarts], restartList, entries, shape, i);
        i := i + 1;
      }
    }
  }

  /** What decoding the entry at a place gives. */
  lemma EntryHere(data: Bytes, restarts: nat, es: seq<KV>, sh: Shape, i: nat)
    requires restarts <= |data| && Sized(es, sh) && i < |es| && EntryAt(data[..restarts], es, sh, i)
    requires |es[i].key| + |es[i].value| < TWO_32
    ensures var s := data[sh.offs[i]..restarts]; var h := DecodeEntry(s);
            && h.Header? && h.shared == sh.shared[i] && h.nonShared == |es[i].key| - sh.shared[i]
            && var o := sh.offs[i] + h.start;
            && o + h.nonShared + h.valueLength == sh.offs[i + 1] <= restarts
            && data[o..o + h.nonShared] == es[i].key[sh.shared[i]..]
            && data[o + h.nonShared..o + h.nonShared + h.valueLength] == es[i].value
  {
    hide EntryBytes, DecodeEntry;
    var e := EntryBytes(sh.shared[i], es[i]);
    var from, to := sh.offs[i], sh.offs[i + 1];
    var s, rest := data[from..restarts], data[to..restarts];
    SliceOfSlice(data, 0, restarts, from, to);
    SlicesJoin(data, from, to, restarts);
    DecodeRoundTrip(sh.shared[i], es[i], rest);
    var h := DecodeEntry(s);
    SliceOfSlice(data, from, restarts, h.start, h.start + h.nonShared);
    SliceOfSlice(data, from, restarts, h.start + h.nonShared, h.start + h.nonShared + h.valueLength);
  }

  lemma SliceOfSlice(s: Bytes, a: nat, b: nat, i: nat, j: nat)
    requires a <= b <= |s| && i <= j <= b - a
    ensures s[a..b][i..j] == s[a + i..a + j]
  {
    var x, y := s[a..b][i..j], s[a + i..a + j];
    forall k | 0 <= k < j - i
      ensures x[k] == y[k]
    {
      assert x[k] == s[a..b][i + k] == s[a + i + k];
    }
  }

  lemma SlicesJoin(s: Bytes, a: nat, b: nat, c: nat)
    requires a <= b <= c <= |s|
    ensures s[a..c] == s[a..b] + s[b..c]
  {
  }

  /** Before the end of the entries there is one, and at the end none. */
  lemma EndOrEntry(data: Bytes, restarts: nat, restartList: seq<nat>, es: seq<KV>, sh: Shape, i: nat)
    requires restarts <= |data| && Holds(data[..restarts], restartList, es, sh) && i <= |es|
    ensures Sized(es, sh)
    ensures if i < |es| then sh.offs[i] < sh.offs[i + 1] <= restarts && EntryAt(data[..restarts], es, sh, i) else sh.offs[i] == restarts
  {
    hide EntryBytes;
    if i < |es| {
      assert EntryAt(data[..restarts], es, sh, i);
    }
  }

  /** What is shared comes from the key before. */
  lemma KeyRebuilt(buffer: Bytes, es: seq<KV>, sh: Shape, i: nat, key: Bytes)
    requires Sized(es, sh) && i < |es| && EntryAt(buffer, es, sh, i) && Ready(es, sh, key, i)
    ensures sh.shared[i] <= |key| && sh.shared[i] <= |es[i].key|
    ensures key[..sh.shared[i]] + es[i].key[sh.shared[i]..] == es[i].key
  {
    hide EntryBytes;
  }

  /** The key at a restart point is there in full. */
  lemma RestartEntry(data: Bytes, restarts: nat, restartList: seq<nat>, es: seq<KV>, sh: Shape, j: nat)
    requires restarts <= |data| && Holds(data[..restarts], restartList, es, sh) && 0 < j < |restartList|
    requires restartList[j] <= restarts
    requires forall i | 0 <= i < |es| :: |es[i].key| + |es[i].value| < TWO_32
    ensures sh.rs[j] < |es|
    ensures var h := DecodeEntry(data[restartList[j]..restarts]);
            && h.Header? && h.shared == 0 && restartList[j] + h.start + h.nonShared <= restarts
            && data[restartList[j] + h.start..restartList[j] + h.start + h.nonShared] == es[sh.rs[j]].key
  {
    hide EntryBytes, DecodeEntry;
    assert RestartAt(es, sh, restartList, j);
    assert sh.rs[0] < sh.rs[j];
    var i := sh.rs[j];
    EntryHere(data, restarts, es, sh, i);
    assert es[i].key[0..] == es[i].key;
  }

  lemma ReadyAfter(buffer: Bytes, restartList: seq<nat>, es: seq<KV>, sh: Shape, i: nat)
    requires Holds(buffer, restartList, es, sh) && i < |es|
    ensures Ready(es, sh, es[i].key, i + 1)
  {
  }

  /** A restart point before the current entry belongs to an earlier entry. */
  lemma PointBefore(buffer: Bytes, restartList: seq<nat>, es: seq<KV>, sh: Shape, j: nat, at: nat)
    requires Holds(buffer, restartList, es, sh) && j < |restartList| && at < |es| && restartList[j] < sh.offs[at]
    ensures sh.rs[j] < at && sh.rs[j] < |es|
  {
    assert RestartAt(es, sh, restartList, j);
    if sh.rs[j] >= at {
      OffsetsIncrease(buffer, restartList, es, sh, at, sh.rs[j]);
    }
  }

  /** The first restart point is before every entry but the first. */
  lemma FirstPoint(buffer: Bytes, restartList: seq<nat>, es: seq<KV>, sh: Shape, at: nat)
    requires Holds(buffer, restartList, es, sh) && at < |es| && restartList[0] >= sh.offs[at]
    ensures at == 0
  {
    assert RestartAt(es, sh, restartList, 0);
    OffsetsIncrease(buffer, restartList, es, sh, 0, at);
  }

  lemma SeekLands(less: Less, es: seq<KV>, sh: Shape, target: Bytes, left: nat, i: nat)
    requires IsOrder(less) && Ascending(less, es) && left < |sh.rs| && sh.rs[left] <= i <= |es|
    requires left == 0 ==> sh.rs[left] == 0
    requires left > 0 ==> sh.rs[left] < |es| && less(es[sh.rs[left]].key, target)
    requires i > sh.rs[left] ==> less(es[i - 1].key, target)
    requires i < |es| ==> !less(es[i].key, target)
    ensures IsLowerBound(less, es, target, i)
  {
    BoundHere(less, es, target, i);
  }
}

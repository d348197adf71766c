/** The loop of DoCompactionWork and the cursors of the Compaction object it consults. */
module CompactionLoop {
  import opened InternalKeys
  import opened Version
  import opened Boundary
  import opened Picking
  import opened DropRules

  /** User keys that no file below `level + 1` covers. */
  ghost function BaseKeys(v: Levels, level: nat): iset<UserKey> {
    iset u: UserKey | IsBaseKey(v, level, u)
  }

  ghost predicate IsBaseKey(v: Levels, level: nat, u: UserKey) {
    forall l, f | level + 2 <= l < |v| && f in v[l] :: !(f.smallest.user <= u <= f.largest.user)
  }

  /** All files of `fs` before index `p` end below `u`. */
  ghost predicate Passed(fs: seq<File>, p: nat, u: UserKey) {
    p <= |fs| && forall i | 0 <= i < p :: fs[i].largest.user < u
  }

  /** One level's part of IsBaseLevelForKey: move the cursor to the first file that does not end before
      `u` and look whether it contains `u`. */
  method AdvanceCursor(fs: seq<File>, start: nat, u: UserKey) returns (p: nat, inside: bool)
    requires GoodFiles(fs) && Disjoint(fs) && Passed(fs, start, u)
    ensures start <= p && Passed(fs, p, u)
    ensures inside <==> exists f :: f in fs && f.smallest.user <= u <= f.largest.user
  {
    p, inside := start, false;
    while p < |fs|
      invariant start <= p && Passed(fs, p, u)
    {
      var f := fs[p];
      if u <= f.largest.user {
        if u >= f.smallest.user {
          return p, true;
        }
        SmallestBeforeLargest(fs, p);
        forall i | p <= i < |fs|
          ensures u < fs[i].smallest.user
        {
          if p < i {
            assert Before(f.largest, fs[i].smallest);
          }
        }
        return p, false;
      }
      p := p + 1;
    }
  }

  class Compaction {
    const level: nat
    const inputVersion: Levels
    const grandparents: seq<File>
    const maxGrandparentOverlap: nat
    var levelPtrs: seq<nat>
    var grandparentIndex: nat
    var seenKey: bool
    var overlappedBytes: nat
    /** The last user key asked of IsBaseLevelForKey. */
    ghost var lastAsked: Option<UserKey>

    constructor (level: nat, inputVersion: Levels, grandparents: seq<File>, maxGrandparentOverlap: nat)
      requires GoodVersion(inputVersion) && level + 1 < NUM_LEVELS
      ensures Valid() && lastAsked == None
      ensures this.level == level && this.inputVersion == inputVersion
    {
      this.level, this.inputVersion, this.grandparents := level, inputVersion, grandparents;
      this.maxGrandparentOverlap := maxGrandparentOverlap;
      levelPtrs := seq(NUM_LEVELS, i => 0);
      grandparentIndex, seenKey, overlappedBytes := 0, false, 0;
      lastAsked := None;
    }

    ghost predicate Valid()
      reads this
    {
      && |inputVersion| == NUM_LEVELS && level + 1 < NUM_LEVELS
      && (forall l | level + 2 <= l < NUM_LEVELS :: GoodFiles(inputVersion[l]) && Disjoint(inputVersion[l]))
      && |levelPtrs| == NUM_LEVELS
      && grandparentIndex <= |grandparents|
      && (forall l | level + 2 <= l < NUM_LEVELS ::
            if lastAsked.Some? then Passed(inputVersion[l], levelPtrs[l], lastAsked.value) else levelPtrs[l] == 0)
    }

    /** IsBaseLevelForKey: exact as long as the keys asked about never decrease. */
    method IsBaseLevelForKey(u: UserKey) returns (r: bool)
      requires Valid()
      requires lastAsked.Some? ==> lastAsked.value <= u
      modifies this`levelPtrs, this`lastAsked
      ensures Valid() && lastAsked == Some(u)
      ensures r <==> u in BaseKeys(inputVersion, level)
    {
      forall l | level + 2 <= l < NUM_LEVELS
        ensures Passed(inputVersion[l], levelPtrs[l], u)
      {
      }
      lastAsked := Some(u);
      for lvl := level + 2 to NUM_LEVELS
        invariant Valid() && lastAsked == Some(u)
        invariant forall l, f | level + 2 <= l < lvl && f in inputVersion[l] :: !(f.smallest.user <= u <= f.largest.user)
      {
        var p, inside := AdvanceCursor(inputVersion[lvl], levelPtrs[lvl], u);
        levelPtrs := levelPtrs[lvl := p];
        if inside {
          return false;
        }
      }
      r := true;
    }

    /** ShouldStopBefore: cut the output once it overlaps too many grandparent bytes. */
    method ShouldStopBefore(key: InternalKey) returns (r: bool)
      requires Valid()
      modifies this`grandparentIndex, this`seenKey, this`overlappedBytes
      ensures Valid()
      ensures grandparentIndex >= old(grandparentIndex)
      ensures forall i | old(grandparentIndex) <= i < grandparentIndex :: Before(grandparents[i].largest, key)
      ensures grandparentIndex < |grandparents| ==> AtOrBefore(key, grandparents[grandparentIndex].largest)
      ensures var overlap := old(overlappedBytes)
                             + if old(seenKey) then TotalFileSize(grandparents[old(grandparentIndex)..grandparentIndex]) else 0;
              && (r <==> overlap > maxGrandparentOverlap)
              && overlappedBytes == (if r then 0 else overlap) && seenKey
    {
      ghost var first := grandparentIndex;
      while grandparentIndex < |grandparents| && Compare(key, grandparents[grandparentIndex].largest) > 0
        invariant Valid() && grandparentIndex >= first && seenKey == old(seenKey)
        invariant forall i | first <= i < grandparentIndex :: Before(grandparents[i].largest, key)
        invariant overlappedBytes == old(overlappedBytes)
                                     + if seenKey then TotalFileSize(grandparents[first..grandparentIndex]) else 0
        decreases |grandparents| - grandparentIndex
      {
        OneMoreFileSize(grandparents, first, grandparentIndex);
        if seenKey {
          overlappedBytes := overlappedBytes + grandparents[grandparentIndex].size;
        }
        grandparentIndex := grandparentIndex + 1;
      }
      seenKey := true;
      r := overlappedBytes > maxGrandparentOverlap;
      if r {
        overlappedBytes := 0;
      }
    }
  }

  lemma {:induction false} OneMoreFileSize(fs: seq<File>, first: nat, i: nat)
    requires first <= i < |fs|
    ensures TotalFileSize(fs[first..i + 1]) == TotalFileSize(fs[first..i]) + fs[i].size
    decreases i - first
  {
    assert fs[first..i + 1][0] == fs[first] && fs[first..i + 1][1..] == fs[first + 1..i + 1];
    if first < i {
      assert fs[first..i][0] == fs[first] && fs[first..i][1..] == fs[first + 1..i];
      OneMoreFileSize(fs, first + 1, i);
    }
  }

  /** Entry `i` survives the merged input `es`. */
  ghost predicate Survives(es: seq<Entry>, i: nat, smallest: nat, base: iset<UserKey>)
    requires i < |es|
  {
    Keeps(Elements(es), es[i], smallest, base)
  }

  /** The survivors of `es[..n]`, in order. */
  ghost function Survivors(es: seq<Entry>, n: nat, smallest: nat, base: iset<UserKey>): seq<Entry>
    requires n <= |es|
  {
    if n == 0 then []
    else Survivors(es, n - 1, smallest, base) + if Survives(es, n - 1, smallest, base) then [es[n - 1]] else []
  }

  function Flatten(outputs: seq<seq<Entry>>): seq<Entry> {
    if outputs == [] then [] else Flatten(outputs[..|outputs| - 1]) + outputs[|outputs| - 1]
  }

  lemma FlattenAppend(outputs: seq<seq<Entry>>, o: seq<Entry>)
    ensures Flatten(outputs + [o]) == Flatten(outputs) + o
  {
    assert (outputs + [o])[..|outputs|] == outputs;
  }

  /** In sorted order rule (A) only has to look at the entry just before. */
  lemma HiddenByPrevious(es: seq<Entry>, i: nat, smallest: nat)
    requires Sorted(es) && UniqueSeqs(Elements(es)) && i < |es|
    ensures Hidden(Elements(es), es[i], smallest)
            <==> i > 0 && es[i - 1].k.user == es[i].k.user && es[i - 1].k.sn <= smallest
  {
    hide Tag, UniqueSeqs;
    forall j | 0 <= j < |es| && j != i && es[j].k.user == es[i].k.user
      ensures es[j].k.sn > es[i].k.sn <==> j < i
    {
      SameUserOrder(es, i, j);
    }
    if x :| x in Elements(es) && x.k.user == es[i].k.user && es[i].k.sn < x.k.sn <= smallest {
      var j :| 0 <= j < |es| && es[j] == x;
      assert j < i;
      assert Before(es[i - 1].k, es[i].k);
      if j < i - 1 {
        assert Before(es[j].k, es[i - 1].k);
        assert es[i - 1].k.user == es[i].k.user;
        PreviousIsOlder(es, j, i - 1);
      }
    }
    if i > 0 && es[i - 1].k.user == es[i].k.user && es[i - 1].k.sn <= smallest {
      assert es[i - 1] in Elements(es);
    }
  }

  /** Entries of one user key are in the order of their sequence numbers, newest first. */
  lemma SameUserOrder(es: seq<Entry>, i: nat, j: nat)
    requires Sorted(es) && UniqueSeqs(Elements(es)) && i < |es| && j < |es| && j != i && es[j].k.user == es[i].k.user
    ensures es[j].k.sn > es[i].k.sn <==> j < i
  {
    assert es[j] in Elements(es) && es[i] in Elements(es);
    assert Before(es[if j < i then j else i].k, es[if j < i then i else j].k);
    TagOrder(es[j].k);
    TagOrder(es[i].k);
  }

  lemma PreviousIsOlder(es: seq<Entry>, j: nat, i: nat)
    requires Sorted(es) && j < i < |es| && es[j].k.user == es[i].k.user
    ensures es[j].k.sn >= es[i].k.sn
  {
    assert Before(es[j].k, es[i].k);
    TagOrder(es[j].k);
    TagOrder(es[i].k);
  }

  lemma TagOrder(k: InternalKey)
    ensures k.sn * 256 <= Tag(k) <= k.sn * 256 + 1
  {
  }

  /** The declarative fate of an entry, as the loop computes it from the entry before. */
  lemma SurvivesByPrevious(es: seq<Entry>, i: nat, smallest: nat, base: iset<UserKey>)
    requires Sorted(es) && UniqueSeqs(Elements(es)) && i < |es|
    ensures Survives(es, i, smallest, base) <==>
              && !(i > 0 && es[i - 1].k.user == es[i].k.user && es[i - 1].k.sn <= smallest)
              && !Obsolete(es[i], smallest, es[i].k.user in base)
    ensures i > 0 ==> es[i - 1].k.user <= es[i].k.user
  {
    HiddenByPrevious(es, i, smallest);
    if i > 0 {
      assert Before(es[i - 1].k, es[i].k);
    }
  }

  /** FinishCompactionOutputFile when `stop` holds and an output is open. */
  function MaybeFinish(outputs: seq<seq<Entry>>, builder: seq<Entry>, stop: bool): (r: (seq<seq<Entry>>, seq<Entry>))
    ensures Flatten(r.0) + r.1 == Flatten(outputs) + builder
    ensures stop ==> r.1 == []
    ensures !stop ==> r == (outputs, builder)
    ensures (forall o | o in outputs :: o != []) ==> forall o | o in r.0 :: o != []
  {
    FlattenAppend(outputs, builder);
    if stop && builder != [] then (outputs + [builder], []) else (outputs, builder)
  }

  lemma NoOutputs()
    ensures Flatten([]) == []
  {
  }

  /** The decision for entry `i`, from what the loop remembers of the entry before. */
  method DropEntry(c: Compaction, input: seq<Entry>, i: nat, smallestSnapshot: nat,
                   currentUserKey: Option<UserKey>, lastSequenceForKey: nat)
    returns (drop: bool)
    requires c.Valid() && Sorted(input) && UniqueSeqs(Elements(input))
    requires i < |input| && smallestSnapshot < MAX_SEQUENCE
    requires i == 0 ==> currentUserKey.None?
    requires i > 0 ==> currentUserKey == Some(input[i - 1].k.user) && lastSequenceForKey == input[i - 1].k.sn
    requires c.lastAsked.Some? ==> c.lastAsked.value <= input[i].k.user
    modifies c`levelPtrs, c`lastAsked
    ensures c.Valid()
    ensures c.lastAsked.Some? ==> c.lastAsked.value <= input[i].k.user
    ensures drop <==> !Survives(input, i, smallestSnapshot, BaseKeys(c.inputVersion, c.level))
  {
    var key := input[i].k;
    SurvivesByPrevious(input, i, smallestSnapshot, BaseKeys(c.inputVersion, c.level));
    drop := false;
    var last := lastSequenceForKey;
    if currentUserKey.None? || key.user != currentUserKey.value {
      last := MAX_SEQUENCE;
    }
    if last <= smallestSnapshot {
      drop := true;
    } else if key.kind.Deletion? && key.sn <= smallestSnapshot {
      drop := c.IsBaseLevelForKey(key.user);
    }
  }

  /** DoCompactionWork.  `fileSize` is the size the table builder reports for the entries added so far. */
  method DoCompactionWork(c: Compaction, input: seq<Entry>, smallestSnapshot: nat,
                          fileSize: seq<Entry> -> nat, maxOutputFileSize: nat)
    returns (outputs: seq<seq<Entry>>)
    requires c.Valid() && c.lastAsked == None
    requires Sorted(input) && UniqueSeqs(Elements(input))
    requires smallestSnapshot < MAX_SEQUENCE
    modifies c
    ensures c.Valid()
    ensures Flatten(outputs) == Survivors(input, |input|, smallestSnapshot, BaseKeys(c.inputVersion, c.level))
    ensures forall o | o in outputs :: o != []
  {
    hide Flatten, Survives, BaseKeys, UniqueSeqs, MaybeFinish;
    assert Flatten([]) == [] by {
      NoOutputs();
    }
    outputs := [];
    var builder: seq<Entry> := [];
    var currentUserKey: Option<UserKey> := None;
    var lastSequenceForKey := MAX_SEQUENCE;
    for i := 0 to |input|
      invariant c.Valid()
      invariant Flatten(outputs) + builder == Survivors(input, i, smallestSnapshot, BaseKeys(c.inputVersion, c.level))
      invariant forall o | o in outputs :: o != []
      invariant i == 0 ==> currentUserKey.None?
      invariant i > 0 ==> currentUserKey == Some(input[i - 1].k.user) && lastSequenceForKey == input[i - 1].k.sn
      invariant c.lastAsked.Some? ==> i > 0 && c.lastAsked.value <= input[i - 1].k.user
    {
      if i > 0 {
        assert Before(input[i - 1].k, input[i].k);
      }
      var stop := c.ShouldStopBefore(input[i].k);
      var (closed, open) := MaybeFinish(outputs, builder, stop);
      var drop := DropEntry(c, input, i, smallestSnapshot, currentUserKey, lastSequenceForKey);
      currentUserKey, lastSequenceForKey := Some(input[i].k.user), input[i].k.sn;
      if drop {
        outputs, builder := closed, open;
      } else {
        builder := open + [input[i]];
        var (newOutputs, newBuilder) := MaybeFinish(closed, builder, fileSize(builder) >= maxOutputFileSize);
        outputs, builder := newOutputs, newBuilder;
      }
    }
    var (all, rest) := MaybeFinish(outputs, builder, true);
    outputs := all;
  }
}

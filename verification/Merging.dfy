/** MergingIterator: a bidirectional cursor over the sorted merge of its children. */
module Merging {
  import opened InternalKeys
  import opened Version
  import opened Boundary

  /** `merged` is the sorted merge of the children, whose keys are distinct. */
  ghost predicate IsMerge(merged: seq<Entry>, children: seq<seq<Entry>>) {
    && Sorted(merged)
    && (forall j | 0 <= j < |children| :: Sorted(children[j]))
    && (forall j, e | 0 <= j < |children| && e in children[j] :: e in merged)
    && (forall e | e in merged :: exists j :: 0 <= j < |children| && e in children[j])
    && KeysDistinct(children)
  }

  ghost predicate KeysDistinct(children: seq<seq<Entry>>) {
    forall i, j, x, y | 0 <= i < |children| && 0 <= j < |children| && x in children[i] && y in children[j] && x.k == y.k :: i == j
  }

  /** Where an entry stands in the merge. */
  function Rank(merged: seq<Entry>, e: Entry): nat {
    LowerBound(merged, e.k)
  }

  lemma RankIsIndex(merged: seq<Entry>, e: Entry)
    requires Sorted(merged) && e in merged
    ensures Rank(merged, e) < |merged| && merged[Rank(merged, e)] == e
  {
    var i :| 0 <= i < |merged| && merged[i] == e;
    RankAt(merged, i);
  }

  lemma SortedAt(es: seq<Entry>, i: nat, j: nat)
    requires Sorted(es) && i < j < |es|
    ensures Before(es[i].k, es[j].k)
  {
  }

  lemma RankAt(merged: seq<Entry>, m: nat)
    requires Sorted(merged) && m < |merged|
    ensures Rank(merged, merged[m]) == m
  {
    hide Sorted, LowerBound;
    var r := Rank(merged, merged[m]);
    if r < m {
      SortedAt(merged, r, m);
    }
  }

  /** Ranks order entries as their keys do. */
  lemma RankOrders(merged: seq<Entry>, x: Entry, y: Entry)
    requires Sorted(merged) && x in merged && y in merged
    ensures Before(x.k, y.k) <==> Rank(merged, x) < Rank(merged, y)
    ensures x.k == y.k ==> x == y
  {
    RankIsIndex(merged, x);
    RankIsIndex(merged, y);
  }

  /** Child position `p` is at the first entry of rank `m` or more (its length if there is none). */
  ghost predicate PosAt(child: seq<Entry>, merged: seq<Entry>, p: nat, m: nat) {
    p <= |child| && forall i | 0 <= i < |child| :: i < p <==> Rank(merged, child[i]) < m
  }

  /** Child position `p` is at the last entry of rank below `m` (its length, the invalid position, if there
      is none). */
  ghost predicate PosBefore(child: seq<Entry>, merged: seq<Entry>, p: nat, m: nat) {
    && p <= |child|
    && (p < |child| ==> forall i | 0 <= i < |child| :: i <= p <==> Rank(merged, child[i]) < m)
    && (p == |child| ==> forall i | 0 <= i < |child| :: Rank(merged, child[i]) >= m)
  }

  // The four moves of a child iterator; the invalid position is the length.

  function ChildNext(child: seq<Entry>, p: nat): nat
    requires p < |child|
  {
    p + 1
  }

  function ChildPrev(child: seq<Entry>, p: nat): nat
    requires p < |child|
  {
    if p == 0 then |child| else p - 1
  }

  function ChildLast(child: seq<Entry>): nat {
    if child == [] then 0 else |child| - 1
  }

  lemma ChildRanks(children: seq<seq<Entry>>, merged: seq<Entry>, j: nat)
    requires IsMerge(merged, children) && j < |children|
    ensures forall i | 0 <= i < |children[j]| ::
              Rank(merged, children[j][i]) < |merged| && merged[Rank(merged, children[j][i])] == children[j][i]
    ensures forall a, b | 0 <= a < b < |children[j]| :: Rank(merged, children[j][a]) < Rank(merged, children[j][b])
  {
    var child := children[j];
    forall i | 0 <= i < |child|
      ensures Rank(merged, child[i]) < |merged| && merged[Rank(merged, child[i])] == child[i]
    {
      assert child[i] in children[j];
      RankIsIndex(merged, child[i]);
    }
    forall a, b | 0 <= a < b < |child|
      ensures Rank(merged, child[a]) < Rank(merged, child[b])
    {
      assert child[a] in children[j] && child[b] in children[j];
      RankOrders(merged, child[a], child[b]);
    }
  }

  /** A child seek puts the child where the merge would stand after the same seek. */
  lemma SeekAligns(children: seq<seq<Entry>>, merged: seq<Entry>, j: nat, target: InternalKey)
    requires IsMerge(merged, children) && j < |children|
    ensures PosAt(children[j], merged, LowerBound(children[j], target), LowerBound(merged, target))
  {
    var child, m := children[j], LowerBound(merged, target);
    ChildRanks(children, merged, j);
    forall i | 0 <= i < |child|
      ensures i < LowerBound(child, target) <==> Rank(merged, child[i]) < m
    {
      var r := Rank(merged, child[i]);
      BelowBoundIff(child, target, i);
      BelowBoundIff(merged, target, r);
    }
  }

  lemma BelowBoundIff(es: seq<Entry>, k: InternalKey, i: nat)
    requires Sorted(es) && i < |es|
    ensures i < LowerBound(es, k) <==> Before(es[i].k, k)
  {
    var b := LowerBound(es, k);
    if b <= i {
      if b < i {
        assert Before(es[b].k, es[i].k);
      }
    }
  }

  /** Two children never share a rank. */
  lemma RanksDistinct(children: seq<seq<Entry>>, merged: seq<Entry>, i: nat, a: nat, j: nat, b: nat)
    requires IsMerge(merged, children) && i < |children| && j < |children|
    requires a < |children[i]| && b < |children[j]|
    requires Rank(merged, children[i][a]) == Rank(merged, children[j][b])
    ensures i == j && a == b
  {
    ChildRanks(children, merged, i);
    ChildRanks(children, merged, j);
    assert children[i][a] in children[i] && children[j][b] in children[j];
  }

  /** Which child holds the entry of rank `m`, and where. */
  lemma HolderOf(children: seq<seq<Entry>>, merged: seq<Entry>, m: nat) returns (j: nat, i: nat)
    requires IsMerge(merged, children) && m < |merged|
    ensures j < |children| && i < |children[j]| && children[j][i] == merged[m] && Rank(merged, children[j][i]) == m
  {
    assert merged[m] in merged;
    j :| 0 <= j < |children| && merged[m] in children[j];
    i :| 0 <= i < |children[j]| && children[j][i] == merged[m];
    RankAt(merged, m);
  }

  /** The loop of FindSmallest: the valid child with the least key, the first of them on ties. */
  method SmallestChild(children: seq<seq<Entry>>, pos: seq<nat>) returns (smallest: Option<nat>)
    requires |pos| == |children| && forall j | 0 <= j < |children| :: pos[j] <= |children[j]|
    ensures smallest.None? ==> forall j | 0 <= j < |children| :: pos[j] == |children[j]|
    ensures smallest.Some? ==> smallest.value < |children| && pos[smallest.value] < |children[smallest.value]|
    ensures smallest.Some? ==> forall j | 0 <= j < |children| && pos[j] < |children[j]| ::
                                 AtOrBefore(children[smallest.value][pos[smallest.value]].k, children[j][pos[j]].k)
  {
    smallest := None;
    for i := 0 to |children|
      invariant smallest.None? ==> forall j | 0 <= j < i :: pos[j] == |children[j]|
      invariant smallest.Some? ==> smallest.value < i && pos[smallest.value] < |children[smallest.value]|
      invariant smallest.Some? ==> forall j | 0 <= j < i && pos[j] < |children[j]| ::
                                     AtOrBefore(children[smallest.value][pos[smallest.value]].k, children[j][pos[j]].k)
    {
      if pos[i] < |children[i]| {
        if smallest.None? {
          smallest := Some(i);
        } else if Compare(children[i][pos[i]].k, children[smallest.value][pos[smallest.value]].k) < 0 {
          smallest := Some(i);
        }
      }
    }
  }

  /** The loop of FindLargest: the valid child with the greatest key, the last of them on ties. */
  method LargestChild(children: seq<seq<Entry>>, pos: seq<nat>) returns (largest: Option<nat>)
    requires |pos| == |children| && forall j | 0 <= j < |children| :: pos[j] <= |children[j]|
    ensures largest.None? ==> forall j | 0 <= j < |children| :: pos[j] == |children[j]|
    ensures largest.Some? ==> largest.value < |children| && pos[largest.value] < |children[largest.value]|
    ensures largest.Some? ==> forall j | 0 <= j < |children| && pos[j] < |children[j]| ::
                                AtOrBefore(children[j][pos[j]].k, children[largest.value][pos[largest.value]].k)
  {
    largest := None;
    for i := |children| downto 0
      invariant largest.None? ==> forall j | i <= j < |children| :: pos[j] == |children[j]|
      invariant largest.Some? ==> i <= largest.value < |children| && pos[largest.value] < |children[largest.value]|
      invariant largest.Some? ==> forall j | i <= j < |children| && pos[j] < |children[j]| ::
                                    AtOrBefore(children[j][pos[j]].k, children[largest.value][pos[largest.value]].k)
    {
      if pos[i] < |children[i]| {
        if largest.None? {
          largest := Some(i);
        } else if Compare(children[i][pos[i]].k, children[largest.value][pos[largest.value]].k) > 0 {
          largest := Some(i);
        }
      }
    }
  }

  /** Next's direction switch for one child: seek to the current key and step past an equal one. */
  function AfterKey(child: seq<Entry>, key: InternalKey): nat {
    var p := LowerBound(child, key);
    if p < |child| && Compare(key, child[p].k) == 0 then ChildNext(child, p) else p
  }

  /** Prev's direction switch for one child: seek to the current key and step back, or go to the last. */
  function BeforeKey(child: seq<Entry>, key: InternalKey): nat {
    var p := LowerBound(child, key);
    if p < |child| then ChildPrev(child, p) else ChildLast(child)
  }

  lemma AfterKeyAligns(children: seq<seq<Entry>>, merged: seq<Entry>, j: nat, c: nat, q: nat, m: nat)
    requires IsMerge(merged, children) && j < |children| && c < |children| && j != c
    requires q < |children[c]| && m < |merged| && children[c][q] == merged[m]
    ensures PosAt(children[j], merged, AfterKey(children[j], merged[m].k), m + 1)
  {
    var p := LowerBound(children[j], merged[m].k);
    SeekAligns(children, merged, j, merged[m].k);
    CurrentRank(children, merged, c, q, m);
    SkipOther(children, merged, j, p, c, q, m);
    if p < |children[j]| {
      CompareIsTotalOrder(merged[m].k, children[j][p].k, merged[m].k);
    }
  }

  lemma BeforeKeyAligns(children: seq<seq<Entry>>, merged: seq<Entry>, j: nat, c: nat, q: nat, m: nat)
    requires IsMerge(merged, children) && j < |children| && c < |children|
    requires q < |children[c]| && m < |merged| && children[c][q] == merged[m]
    ensures PosBefore(children[j], merged, BeforeKey(children[j], merged[m].k), m)
  {
    SeekAligns(children, merged, j, merged[m].k);
    CurrentRank(children, merged, c, q, m);
  }

  /** The sorted merge of the children, one entry inserted after the other. */
  function MergeAll(children: seq<seq<Entry>>): seq<Entry> {
    if children == [] then [] else InsertAllByKey(MergeAll(children[..|children| - 1]), children[|children| - 1])
  }

  function InsertAllByKey(es: seq<Entry>, more: seq<Entry>): seq<Entry>
    decreases |more|
  {
    if more == [] then es else InsertAllByKey(InsertByKey(es, more[0]), more[1..])
  }

  lemma {:induction false} InsertAllByKeyMeaning(es: seq<Entry>, more: seq<Entry>)
    requires Sorted(es) && Sorted(more)
    requires forall x, y | x in es && y in more :: x.k != y.k
    ensures Sorted(InsertAllByKey(es, more))
    ensures Elements(InsertAllByKey(es, more)) == Elements(es) + Elements(more)
    decreases |more|
  {
    if more != [] {
      hide InsertByKey;
      var next := InsertByKey(es, more[0]);
      FirstAndRest(more);
      InsertByKeyMeaning(es, more[0]);
      NextStillDistinct(es, next, more);
      InsertAllByKeyMeaning(next, more[1..]);
    }
  }

  lemma FirstAndRest(more: seq<Entry>)
    requires more != [] && Sorted(more)
    ensures Sorted(more[1..]) && more[0] in more && Elements(more) == {more[0]} + Elements(more[1..])
    ensures forall y | y in more[1..] :: more[0].k != y.k
  {
    assert more == [more[0]] + more[1..];
  }

  lemma NextStillDistinct(es: seq<Entry>, next: seq<Entry>, more: seq<Entry>)
    requires more != [] && Elements(next) == Elements(es) + {more[0]}
    requires forall x, y | x in es && y in more :: x.k != y.k
    requires forall y | y in more[1..] :: more[0].k != y.k
    ensures forall x, y | x in next && y in more[1..] :: x.k != y.k
  {
    assert forall x | x in next :: x in Elements(next);
  }

  lemma PrefixDistinct(init: seq<seq<Entry>>, last: seq<Entry>)
    requires (forall j | 0 <= j < |init + [last]| :: Sorted((init + [last])[j])) && KeysDistinct(init + [last])
    ensures (forall j | 0 <= j < |init| :: Sorted(init[j])) && KeysDistinct(init) && Sorted(last)
    ensures forall j, x, y | 0 <= j < |init| && x in init[j] && y in last :: x.k != y.k
  {
    var children := init + [last];
    assert children[|init|] == last;
    assert forall j | 0 <= j < |init| :: children[j] == init[j];
  }

  /** Every family of sorted children with distinct keys has a merge. */
  lemma {:induction false} MergeAllIsMerge(children: seq<seq<Entry>>)
    requires (forall j | 0 <= j < |children| :: Sorted(children[j])) && KeysDistinct(children)
    ensures IsMerge(MergeAll(children), children)
  {
    if children != [] {
      var init, last := children[..|children| - 1], children[|children| - 1];
      assert children == init + [last];
      PrefixDistinct(init, last);
      MergeAllIsMerge(init);
      LastIsDistinct(MergeAll(init), init, last);
      InsertAllByKeyMeaning(MergeAll(init), last);
      MergeExtends(children, init, last);
    }
  }

  lemma LastIsDistinct(merged: seq<Entry>, init: seq<seq<Entry>>, last: seq<Entry>)
    requires IsMerge(merged, init)
    requires forall j, x, y | 0 <= j < |init| && x in init[j] && y in last :: x.k != y.k
    ensures forall x, y | x in merged && y in last :: x.k != y.k
  {
  }

  lemma MergeExtends(children: seq<seq<Entry>>, init: seq<seq<Entry>>, last: seq<Entry>)
    requires (forall j | 0 <= j < |children| :: Sorted(children[j])) && KeysDistinct(children)
    requires children == init + [last] && IsMerge(MergeAll(init), init)
    requires Sorted(MergeAll(children)) && Elements(MergeAll(children)) == Elements(MergeAll(init)) + Elements(last)
    ensures IsMerge(MergeAll(children), children)
  {
    forall e
      ensures e in MergeAll(children) <==> e in MergeAll(init) || e in last
    {
      assert e in MergeAll(children) <==> e in Elements(MergeAll(children));
    }
    forall j, e | 0 <= j < |children| && e in children[j]
      ensures e in MergeAll(children)
    {
      if j < |init| {
        assert e in init[j];
      }
    }
    forall e | e in MergeAll(children)
      ensures exists j :: 0 <= j < |children| && e in children[j]
    {
      if e in MergeAll(init) {
        var j :| 0 <= j < |init| && e in init[j];
        assert e in children[j];
      } else {
        assert e in children[|init|];
      }
    }
  }

  datatype Direction = Forward | Reverse

  class MergingIterator {
    const children: seq<seq<Entry>>
    var pos: seq<nat>
    var current: Option<nat>
    var direction: Direction
    /** The sorted merge and the position in it that this iterator stands for; |merged| is invalid. */
    ghost const merged: seq<Entry>
    ghost var at: nat

    constructor (children: seq<seq<Entry>>, ghost merged: seq<Entry>)
      requires IsMerge(merged, children)
      ensures Repr() && at == |this.merged| && this.merged == merged
    {
      this.children, this.merged := children, merged;
      pos := seq(|children|, j requires 0 <= j < |children| => |children[j]|);
      current, direction, at := None, Forward, |merged|;
    }

    ghost predicate Positions()
      reads this
    {
      |pos| == |children| && forall j | 0 <= j < |children| :: pos[j] <= |children[j]|
    }

    /** The invariant: where every child stands, in each direction. */
    ghost predicate Repr()
      reads this
      ensures Repr() ==> Sorted(merged) && at <= |merged| && (current.Some? <==> at < |merged|)
    {
      && IsMerge(merged, children) && Positions() && at <= |merged|
      && (current.None? <==> at == |merged|)
      && (current.Some? ==>
            && current.value < |children| && pos[current.value] < |children[current.value]|
            && children[current.value][pos[current.value]] == merged[at]
            && (direction.Forward? ==> forall j | 0 <= j < |children| :: PosAt(children[j], merged, pos[j], at))
            && (direction.Reverse? ==> forall j | 0 <= j < |children| && j != current.value ::
                                         PosBefore(children[j], merged, pos[j], at)))
    }

    predicate Valid()
      reads this
      ensures Repr() ==> (Valid() <==> at < |merged|)
    {
      current.Some?
    }

    function Entry(): Entry
      requires Repr() && Valid()
      reads this
      ensures at < |merged| && Entry() == merged[at]
    {
      children[current.value][pos[current.value]]
    }

    method FindSmallest(ghost m: nat)
      requires IsMerge(merged, children) && Positions() && m <= |merged| && direction.Forward?
      requires forall j | 0 <= j < |children| :: PosAt(children[j], merged, pos[j], m)
      modifies this`current, this`at
      ensures Repr() && at == m
    {
      var smallest := SmallestChild(children, pos);
      SmallestIsNext(children, merged, pos, m, smallest);
      current, at := smallest, m;
    }

    method FindLargest(ghost m: nat)
      requires IsMerge(merged, children) && Positions() && m <= |merged| && direction.Reverse?
      requires forall j | 0 <= j < |children| :: PosBefore(children[j], merged, pos[j], m)
      modifies this`current, this`at
      ensures Repr() && at == if m == 0 then |merged| else m - 1
    {
      var largest := LargestChild(children, pos);
      LargestIsPrevious(children, merged, pos, m, largest);
      current := largest;
      at := if m == 0 then |merged| else m - 1;
    }

    method SeekToFirst()
      requires Repr()
      modifies this
      ensures Repr() && at == 0
    {
      pos := seq(|children|, j => 0);
      direction := Forward;
      FindSmallest(0);
    }

    method SeekToLast()
      requires Repr()
      modifies this
      ensures Repr() && at == if merged == [] then 0 else |merged| - 1
    {
      pos := seq(|children|, j requires 0 <= j < |children| => ChildLast(children[j]));
      forall j | 0 <= j < |children|
        ensures PosBefore(children[j], merged, pos[j], |merged|)
      {
        ChildRanks(children, merged, j);
      }
      direction := Reverse;
      FindLargest(|merged|);
    }

    method Seek(target: InternalKey)
      requires Repr()
      modifies this
      ensures Repr() && at == LowerBound(merged, target)
    {
      pos := seq(|children|, j requires 0 <= j < |children| => LowerBound(children[j], target));
      forall j | 0 <= j < |children|
        ensures PosAt(children[j], merged, pos[j], LowerBound(merged, target))
      {
        SeekAligns(children, merged, j, target);
      }
      direction := Forward;
      FindSmallest(LowerBound(merged, target));
    }

    method Next()
      requires Repr() && Valid()
      modifies this
      ensures Repr() && at == old(at) + 1
    {
      hide IsMerge, Rank, LowerBound;
      var c := current.value;
      ghost var m := at;
      if direction != Forward {
        pos := Reposition(children, pos, c, Entry().k, AfterKey);
        forall j | 0 <= j < |children| && j != c
          ensures PosAt(children[j], merged, pos[j], m + 1)
        {
          AfterKeyAligns(children, merged, j, c, pos[c], m);
        }
        direction := Forward;
      } else {
        forall j | 0 <= j < |children| && j != c
          ensures PosAt(children[j], merged, pos[j], m + 1)
        {
          SkipOther(children, merged, j, pos[j], c, pos[c], m);
        }
      }
      CurrentAdvances(children, merged, c, pos[c], m);
      pos := pos[c := ChildNext(children[c], pos[c])];
      FindSmallest(m + 1);
    }

    method Prev()
      requires Repr() && Valid()
      modifies this
      ensures Repr() && at == if old(at) == 0 then |merged| else old(at) - 1
    {
      var c := current.value;
      ghost var m := at;
      if direction != Reverse {
        pos := Reposition(children, pos, c, Entry().k, BeforeKey);
        forall j | 0 <= j < |children| && j != c
          ensures PosBefore(children[j], merged, pos[j], m)
        {
          BeforeKeyAligns(children, merged, j, c, pos[c], m);
        }
        direction := Reverse;
      }
      CurrentRetreats(children, merged, c, pos[c], m);
      pos := pos[c := ChildPrev(children[c], pos[c])];
      FindLargest(m);
    }
  }

  /** The loop of a direction switch over all children but the current one. */
  method Reposition(children: seq<seq<Entry>>, pos: seq<nat>, c: nat, key: InternalKey, move: (seq<Entry>, InternalKey) -> nat)
    returns (r: seq<nat>)
    requires |pos| == |children| && c < |children|
    ensures |r| == |pos| && r[c] == pos[c]
    ensures forall j | 0 <= j < |children| && j != c :: r[j] == move(children[j], key)
  {
    r := pos;
    for i := 0 to |children|
      invariant |r| == |pos| && r[c] == pos[c]
      invariant forall j | 0 <= j < i && j != c :: r[j] == move(children[j], key)
    {
      if i != c {
        r := r[i := move(children[i], key)];
      }
    }
  }

  lemma CurrentRank(children: seq<seq<Entry>>, merged: seq<Entry>, c: nat, p: nat, m: nat)
    requires IsMerge(merged, children) && c < |children| && p < |children[c]| && m < |merged|
    requires children[c][p] == merged[m]
    ensures Rank(merged, children[c][p]) == m && LowerBound(merged, children[c][p].k) == m
  {
    RankAt(merged, m);
  }

  /** No other child holds the current entry, so a child at it is already past it. */
  lemma SkipOther(children: seq<seq<Entry>>, merged: seq<Entry>, j: nat, p: nat, c: nat, q: nat, m: nat)
    requires IsMerge(merged, children) && j < |children| && c < |children| && j != c
    requires q < |children[c]| && m < |merged| && children[c][q] == merged[m]
    requires PosAt(children[j], merged, p, m)
    ensures PosAt(children[j], merged, p, m + 1)
    ensures p < |children[j]| ==> children[j][p].k != children[c][q].k
  {
    CurrentRank(children, merged, c, q, m);
    forall i | 0 <= i < |children[j]|
      ensures Rank(merged, children[j][i]) != m && children[j][i].k != children[c][q].k
    {
      assert children[j][i] in children[j] && children[c][q] in children[c];
      if Rank(merged, children[j][i]) == m {
        RanksDistinct(children, merged, j, i, c, q);
      }
    }
  }

  lemma CurrentAdvances(children: seq<seq<Entry>>, merged: seq<Entry>, c: nat, p: nat, m: nat)
    requires IsMerge(merged, children) && c < |children| && p < |children[c]| && m < |merged|
    requires children[c][p] == merged[m]
    ensures PosAt(children[c], merged, p + 1, m + 1)
  {
    CurrentRank(children, merged, c, p, m);
    ChildRanks(children, merged, c);
  }

  lemma CurrentRetreats(children: seq<seq<Entry>>, merged: seq<Entry>, c: nat, p: nat, m: nat)
    requires IsMerge(merged, children) && c < |children| && p < |children[c]| && m < |merged|
    requires children[c][p] == merged[m]
    ensures PosBefore(children[c], merged, ChildPrev(children[c], p), m)
  {
    CurrentRank(children, merged, c, p, m);
    ChildRanks(children, merged, c);
  }

  /** With every child at its first entry of rank `m` or more, the smallest child stands at rank `m`. */
  lemma SmallestIsNext(children: seq<seq<Entry>>, merged: seq<Entry>, pos: seq<nat>, m: nat, smallest: Option<nat>)
    requires IsMerge(merged, children) && |pos| == |children| && m <= |merged|
    requires forall j | 0 <= j < |children| :: PosAt(children[j], merged, pos[j], m)
    requires smallest.None? ==> forall j | 0 <= j < |children| :: pos[j] == |children[j]|
    requires smallest.Some? ==> smallest.value < |children| && pos[smallest.value] < |children[smallest.value]|
    requires smallest.Some? ==> forall j | 0 <= j < |children| && pos[j] < |children[j]| ::
                                  AtOrBefore(children[smallest.value][pos[smallest.value]].k, children[j][pos[j]].k)
    ensures smallest.None? <==> m == |merged|
    ensures smallest.Some? ==> children[smallest.value][pos[smallest.value]] == merged[m]
  {
    if m < |merged| {
      var j, i := HolderOf(children, merged, m);
      ChildRanks(children, merged, j);
      assert pos[j] <= i;
      assert Rank(merged, children[j][pos[j]]) >= m;
      assert pos[j] == i;
      var s := smallest.value;
      ChildRanks(children, merged, s);
      assert children[s][pos[s]] in children[s] && children[j][i] in children[j];
      RankOrders(merged, children[j][i], children[s][pos[s]]);
      RanksDistinct(children, merged, s, pos[s], j, i);
    } else if smallest.Some? {
      ChildRanks(children, merged, smallest.value);
    }
  }

  /** With every child at its last entry of rank below `m`, the largest child stands at rank `m - 1`. */
  lemma LargestIsPrevious(children: seq<seq<Entry>>, merged: seq<Entry>, pos: seq<nat>, m: nat, largest: Option<nat>)
    requires IsMerge(merged, children) && |pos| == |children| && m <= |merged|
    requires forall j | 0 <= j < |children| :: PosBefore(children[j], merged, pos[j], m)
    requires largest.None? ==> forall j | 0 <= j < |children| :: pos[j] == |children[j]|
    requires largest.Some? ==> largest.value < |children| && pos[largest.value] < |children[largest.value]|
    requires largest.Some? ==> forall j | 0 <= j < |children| && pos[j] < |children[j]| ::
                                 AtOrBefore(children[j][pos[j]].k, children[largest.value][pos[largest.value]].k)
    ensures largest.None? <==> m == 0
    ensures largest.Some? ==> children[largest.value][pos[largest.value]] == merged[m - 1]
    ensures largest.Some? ==> forall j | 0 <= j < |children| && j != largest.value :: PosBefore(children[j], merged, pos[j], m - 1)
  {
    if m > 0 {
      var j, i := HolderOf(children, merged, m - 1);
      ChildRanks(children, merged, j);
      assert pos[j] < |children[j]|;
      assert i <= pos[j];
      assert pos[j] == i;
      var s := largest.value;
      ChildRanks(children, merged, s);
      assert children[s][pos[s]] in children[s] && children[j][i] in children[j];
      RankOrders(merged, children[s][pos[s]], children[j][i]);
      RanksDistinct(children, merged, s, pos[s], j, i);
      OthersStepBack(children, merged, pos, m, s);
    } else if largest.Some? {
      NoneBeforeFirst(children, merged, pos, largest.value);
    }
  }

  lemma NoneBeforeFirst(children: seq<seq<Entry>>, merged: seq<Entry>, pos: seq<nat>, j: nat)
    requires |pos| == |children| && j < |children| && PosBefore(children[j], merged, pos[j], 0)
    ensures pos[j] == |children[j]|
  {
    assert pos[j] < |children[j]| ==> Rank(merged, children[j][pos[j]]) < 0;
  }

  lemma OthersStepBack(children: seq<seq<Entry>>, merged: seq<Entry>, pos: seq<nat>, m: nat, s: nat)
    requires IsMerge(merged, children) && |pos| == |children| && 0 < m <= |merged|
    requires forall j | 0 <= j < |children| :: PosBefore(children[j], merged, pos[j], m)
    requires s < |children| && pos[s] < |children[s]| && Rank(merged, children[s][pos[s]]) == m - 1
    ensures forall j | 0 <= j < |children| && j != s :: PosBefore(children[j], merged, pos[j], m - 1)
  {
    forall h | 0 <= h < |children| && h != s
      ensures PosBefore(children[h], merged, pos[h], m - 1)
    {
      NoOtherAtRank(children, merged, h, s, pos[s], m - 1);
    }
  }

  lemma NoOtherAtRank(children: seq<seq<Entry>>, merged: seq<Entry>, h: nat, s: nat, p: nat, m: nat)
    requires IsMerge(merged, children) && h < |children| && s < |children| && h != s
    requires p < |children[s]| && Rank(merged, children[s][p]) == m
    ensures forall i | 0 <= i < |children[h]| :: Rank(merged, children[h][i]) != m
  {
    forall i | 0 <= i < |children[h]|
      ensures Rank(merged, children[h][i]) != m
    {
      if Rank(merged, children[h][i]) == m {
        RanksDistinct(children, merged, h, i, s, p);
      }
    }
  }
}

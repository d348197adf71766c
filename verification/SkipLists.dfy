/** The skip list while nobody else runs: each operation against the set of keys. */
module SkipLists {
  import opened InternalKeys
  import opened SkipListState

  class SkipList {
    /** The next pointers of every node, as a heap keyed by node. */
    var next: map<Node, seq<Link>>
    var maxHeight: nat
    ghost var levels: seq<set<Key>>

    ghost function State(): Mem
      reads this
    {
      Mem(next, maxHeight, levels)
    }

    ghost predicate Valid()
      reads this
    {
      && MemInv(State())
      && (forall n | n in next && n.At? :: n.key in levels[0])
    }

    ghost function Contents(): set<Key>
      requires Valid()
      reads this
    {
      Keys(State())
    }

    constructor ()
      ensures Valid() && Contents() == {}
    {
      next := map[Head := seq(MAX_HEIGHT, _ => Null)];
      maxHeight := 1;
      levels := seq(MAX_HEIGHT, _ => {});
      new;
      EmptyHasInv(State());
    }

    /** FindGreaterOrEqual, with the array of predecessors it can fill. */
    method FindGreaterOrEqual(key: Key) returns (found: Link, prev: seq<Node>)
      requires Valid()
      ensures IsLeastAtOrAfter(Contents(), key, found)
      ensures |prev| == MAX_HEIGHT
      ensures forall i | 0 <= i < maxHeight :: Stop(State(), key, i, prev[i])
    {
      ghost var m := State();
      prev := seq(MAX_HEIGHT, _ => Head);
      var x := Head;
      var level := maxHeight - 1;
      while true
        invariant 0 <= level < maxHeight && SearchAt(m, key, x, level)
        invariant |prev| == MAX_HEIGHT
        invariant forall i | level < i < maxHeight :: Stop(m, key, i, prev[i])
        decreases level, |KeysAfter(levels[level], x)|
      {
        SearchAdvances(m, key, x, level);
        var link := next[x][level];
        if KeyIsAfter(key, link) {
          KeysAfterSuccessor(levels[level], x, link);
          x := NodeOf(link);
        } else {
          prev := prev[level := x];
          if level == 0 {
            SearchEnds(m, key, x);
            return link, prev;
          }
          SearchDescends(m, key, x, level);
          level := level - 1;
        }
      }
    }

    /** Contains. */
    method Contains(key: Key) returns (r: bool)
      requires Valid()
      ensures r <==> key in Contents()
    {
      var x, _ := FindGreaterOrEqual(key);
      r := x.To? && x.key == key;
    }

    /** FindLessThan. */
    method FindLessThan(key: Key) returns (x: Node)
      requires Valid()
      ensures IsGreatestBefore(Contents(), key, x)
    {
      ghost var m := State();
      x := Head;
      var level := maxHeight - 1;
      while true
        invariant 0 <= level < maxHeight && SearchAt(m, key, x, level)
        decreases level, |KeysAfter(levels[level], x)|
      {
        SearchAdvances(m, key, x, level);
        var link := next[x][level];
        if link.Null? || key <= link.key {
          if level == 0 {
            SearchEnds(m, key, x);
            return;
          }
          SearchDescends(m, key, x, level);
          level := level - 1;
        } else {
          KeysAfterSuccessor(levels[level], x, link);
          x := NodeOf(link);
        }
      }
    }

    /** FindLast. */
    method FindLast() returns (x: Node)
      requires Valid()
      ensures IsGreatest(Contents(), x)
    {
      ghost var m := State();
      x := Head;
      var level := maxHeight - 1;
      while true
        invariant 0 <= level < maxHeight && On(x, levels[level])
        decreases level, |KeysAfter(levels[level], x)|
      {
        assert LinkOk(m, level, x);
        var link := next[x][level];
        if link.Null? {
          if level == 0 {
            return;
          }
          level := level - 1;
        } else {
          KeysAfterSuccessor(levels[level], x, link);
          x := NodeOf(link);
        }
      }
    }

    /** Insert of a key that is not in the list; `height` is what RandomHeight returned. */
    method Insert(key: Key, height: nat)
      requires Valid() && key !in Contents() && 1 <= height <= MAX_HEIGHT
      modifies this
      ensures Valid() && Contents() == old(Contents()) + {key}
      ensures forall i | 0 <= i < MAX_HEIGHT :: levels[i] == old(levels)[i] + if i < height then {key} else {}
    {
      var found, prev := FindGreaterOrEqual(key);
      PlacesFound(State(), key, prev);
      if height > maxHeight {
        for i := maxHeight to height
          invariant State() == old(State()) && |prev| == MAX_HEIGHT
          invariant forall j | 0 <= j < i :: IsPlace(State(), key, j, prev[j])
        {
          HeadIsPlace(State(), key, i);
          prev := prev[i := Head];
        }
        maxHeight := height;
      }
      var links := seq(height, _ => Null);
      next := next[At(key) := links];
      AllocateKeepsInv(old(State()), key, height, links);
      assert State() == Allocated(old(State()), key, height, links);
      forall j | 0 <= j < MAX_HEIGHT
        ensures key !in levels[j]
      {
        LevelsNest(old(State()), 0, j);
      }
      LinkAll(key, height, prev);
    }

    /** The new node is linked in level by level, from the bottom. */
    method LinkAll(key: Key, height: nat, prev: seq<Node>)
      requires MemInv(State()) && 1 <= height <= maxHeight && |prev| == MAX_HEIGHT && |levels| == MAX_HEIGHT
      requires forall n | n in next && n.At? :: n.key in levels[0] || n.key == key
      requires At(key) in next && |next[At(key)]| == height && forall j | 0 <= j < MAX_HEIGHT :: key !in levels[j]
      requires forall j | 0 <= j < height :: IsPlace(State(), key, j, prev[j])
      modifies this
      ensures Valid() && |levels| == MAX_HEIGHT
      ensures forall i | 0 <= i < MAX_HEIGHT :: levels[i] == old(levels)[i] + if i < height then {key} else {}
    {
      ghost var before := levels;
      for i := 0 to height
        invariant height <= maxHeight && |prev| == MAX_HEIGHT && |before| == MAX_HEIGHT && key !in before[0]
        invariant MemInv(State()) && (forall n | n in next && n.At? :: n.key in before[0] || n.key == key)
        invariant At(key) in next && |next[At(key)]| == height
        invariant forall j | 0 <= j < MAX_HEIGHT :: levels[j] == before[j] + if j < i then {key} else {}
        invariant forall j | i <= j < height :: IsPlace(State(), key, j, prev[j])
      {
        LinkLevel(key, i, prev[i]);
      }
    }

    /** The two stores that link the new node in on one level. */
    method LinkLevel(key: Key, i: nat, p: Node)
      requires MemInv(State()) && i < maxHeight
      requires At(key) in next && i < |next[At(key)]| && IsPlace(State(), key, i, p)
      requires key !in levels[i] && (i > 0 ==> key in levels[i - 1])
      modifies this
      ensures MemInv(State()) && maxHeight == old(maxHeight)
      ensures next.Keys == old(next.Keys) && |next[At(key)]| == |old(next)[At(key)]|
      ensures levels == old(levels)[i := old(levels)[i] + {key}]
    {
      ghost var m := State();
      assert LinkOk(m, i, p);
      next := next[At(key) := next[At(key)][i := next[p][i]]];
      OwnNextKeepsInv(m, key, i, m.next[p][i]);
      assert State() == SetOwnNext(m, key, i, m.next[p][i]);
      m := State();
      assert LinkOk(m, i, p);
      LinkInKeepsInv(m, key, i, p);
      next := next[p := next[p][i := To(key)]];
      levels := levels[i := levels[i] + {key}];
      assert State() == LinkIn(m, key, i, p);
    }
  }
}

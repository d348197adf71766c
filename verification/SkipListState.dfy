/** The memory of a skip list, and what its links mean.

    A node is identified by its key, since no two nodes carry equal keys.  Keys are reals for the
    reason given with the user keys: only comparisons are used. */
module SkipListState {
  import opened InternalKeys

  type Key = real

  datatype Node = Head | At(key: Key)

  /** The value of a next pointer. */
  datatype Link = Null | To(key: Key)

  /** kMaxHeight. */
  const MAX_HEIGHT: nat := 12

  datatype Mem = Mem(
    /** The next pointers of every allocated node; a node has as many as it is high. */
    next: map<Node, seq<Link>>,
    maxHeight: nat,
    /** The keys linked so far on each level; the specification, not part of the list. */
    levels: seq<set<Key>>
  )

  predicate After(k: Key, n: Node) {
    n.Head? || n.key < k
  }

  /** KeyIsAfterNode: null is considered infinite. */
  predicate KeyIsAfter(k: Key, link: Link) {
    link.To? && link.key < k
  }

  function NodeOf(link: Link): Node
    requires link.To?
  {
    At(link.key)
  }

  ghost predicate On(n: Node, s: set<Key>) {
    n.Head? || n.key in s
  }

  /** `link` leads from `n` to the next key of `s`. */
  ghost predicate IsSuccessor(s: set<Key>, n: Node, link: Link) {
    match link
    case Null => forall k | k in s :: !After(k, n)
    case To(q) => q in s && After(q, n) && forall k | k in s && After(k, n) :: q <= k
  }

  ghost predicate LinkOk(m: Mem, i: nat, n: Node)
    requires i < |m.levels|
  {
    n in m.next && i < |m.next[n]| && IsSuccessor(m.levels[i], n, m.next[n][i])
  }

  /** On every level the links run through exactly the level's keys in order, and each level is a
      subset of the one below. */
  ghost predicate MemInv(m: Mem) {
    && |m.levels| == MAX_HEIGHT && 1 <= m.maxHeight <= MAX_HEIGHT
    && (forall i | 0 < i < MAX_HEIGHT :: m.levels[i] <= m.levels[i - 1])
    && (forall i | m.maxHeight <= i < MAX_HEIGHT :: m.levels[i] == {})
    && (forall i, n | 0 <= i < MAX_HEIGHT && On(n, m.levels[i]) :: LinkOk(m, i, n))
  }

  /** The keys in the list. */
  function Keys(m: Mem): set<Key>
    requires |m.levels| == MAX_HEIGHT
  {
    m.levels[0]
  }

  ghost predicate Empty(m: Mem) {
    && m.next == map[Head := seq(MAX_HEIGHT, _ => Null)]
    && m.maxHeight == 1
    && m.levels == seq(MAX_HEIGHT, _ => {})
  }

  lemma EmptyHasInv(m: Mem)
    requires Empty(m)
    ensures MemInv(m) && Keys(m) == {}
  {
  }

  lemma {:induction false} LevelsNest(m: Mem, i: nat, j: nat)
    requires MemInv(m) && i <= j < MAX_HEIGHT
    ensures m.levels[j] <= m.levels[i]
  {
    if i < j {
      LevelsNest(m, i, j - 1);
    }
  }

  // ---- What the queries ask for

  /** The least key at or after `target`, if any. */
  ghost predicate IsLeastAtOrAfter(s: set<Key>, target: Key, link: Link) {
    match link
    case Null => forall k | k in s :: k < target
    case To(q) => q in s && target <= q && forall k | k in s && target <= k :: q <= k
  }

  /** The greatest key before `target`; the head if there is none. */
  ghost predicate IsGreatestBefore(s: set<Key>, target: Key, n: Node) {
    match n
    case Head => forall k | k in s :: target <= k
    case At(q) => q in s && q < target && forall k | k in s && k < target :: k <= q
  }

  ghost predicate IsGreatest(s: set<Key>, n: Node) {
    match n
    case Head => forall k :: k !in s
    case At(q) => q in s && forall k | k in s :: k <= q
  }

  // ---- A walk along one level

  /** The first `n` keys met from `from` along level `i`. */
  function Walk(m: Mem, i: nat, from: Node, n: nat): seq<Key>
    decreases n
  {
    if n == 0 || from !in m.next || i >= |m.next[from]| || m.next[from][i].Null? then []
    else [m.next[from][i].key] + Walk(m, i, NodeOf(m.next[from][i]), n - 1)
  }

  ghost predicate AscendingKeys(ks: seq<Key>) {
    forall i, j | 0 <= i < j < |ks| :: ks[i] < ks[j]
  }

  ghost function KeysAfter(s: set<Key>, n: Node): set<Key> {
    set k | k in s && After(k, n)
  }

  /** From any node of a level, the links visit the level's later keys, all of them and in order. */
  lemma {:induction false} WalkVisitsAll(m: Mem, i: nat, from: Node, n: nat)
    requires MemInv(m) && i < MAX_HEIGHT && On(from, m.levels[i])
    requires |KeysAfter(m.levels[i], from)| <= n
    ensures AscendingKeys(Walk(m, i, from, n))
    ensures Elements(Walk(m, i, from, n)) == KeysAfter(m.levels[i], from)
    decreases n
  {
    assert LinkOk(m, i, from);
    hide MemInv, IsSuccessor;
    var s, link := m.levels[i], m.next[from][i];
    KeysAfterSuccessor(s, from, link);
    if link.To? {
      var q := link.key;
      WalkVisitsAll(m, i, At(q), n - 1);
      var rest := Walk(m, i, At(q), n - 1);
      AscendingPrepend(s, q, rest);
      assert Walk(m, i, from, n) == [q] + rest;
    }
  }

  lemma KeysAfterSuccessor(s: set<Key>, from: Node, link: Link)
    requires IsSuccessor(s, from, link)
    ensures link.Null? ==> KeysAfter(s, from) == {}
    ensures link.To? ==> link.key in s && KeysAfter(s, from) == {link.key} + KeysAfter(s, At(link.key))
    ensures link.To? ==> |KeysAfter(s, At(link.key))| < |KeysAfter(s, from)|
  {
    if link.To? {
      assert KeysAfter(s, from) == {link.key} + KeysAfter(s, At(link.key));
      assert link.key !in KeysAfter(s, At(link.key));
    }
  }

  lemma AscendingPrepend(s: set<Key>, q: Key, rest: seq<Key>)
    requires AscendingKeys(rest) && Elements(rest) == KeysAfter(s, At(q))
    ensures AscendingKeys([q] + rest) && Elements([q] + rest) == {q} + KeysAfter(s, At(q))
  {
    assert Elements([q] + rest) == {q} + Elements(rest);
    forall j | 0 <= j < |rest|
      ensures q < rest[j]
    {
      assert rest[j] in Elements(rest);
    }
  }

  // ---- Search

  /** Where a search for `target` stands: on a node of the level, before the target. */
  ghost predicate SearchAt(m: Mem, target: Key, x: Node, level: nat) {
    level < MAX_HEIGHT == |m.levels| && On(x, m.levels[level]) && After(target, x)
  }

  /** A key found after the node is another place to search from. */
  lemma SearchAdvances(m: Mem, target: Key, x: Node, level: nat)
    requires MemInv(m) && SearchAt(m, target, x, level)
    ensures LinkOk(m, level, x)
    ensures KeyIsAfter(target, m.next[x][level]) ==> SearchAt(m, target, NodeOf(m.next[x][level]), level)
  {
    assert LinkOk(m, level, x);
  }

  lemma SearchDescends(m: Mem, target: Key, x: Node, level: nat)
    requires MemInv(m) && SearchAt(m, target, x, level) && level > 0
    ensures SearchAt(m, target, x, level - 1)
  {
  }

  /** On level 0 a link over the target answers both searches. */
  lemma SearchEnds(m: Mem, target: Key, x: Node)
    requires MemInv(m) && SearchAt(m, target, x, 0) && LinkOk(m, 0, x) && !KeyIsAfter(target, m.next[x][0])
    ensures IsLeastAtOrAfter(Keys(m), target, m.next[x][0])
    ensures IsGreatestBefore(Keys(m), target, x)
  {
  }

  /** The node of level 0 with no link is the last one. */
  lemma LastFound(m: Mem, x: Node)
    requires |m.levels| == MAX_HEIGHT && On(x, Keys(m)) && LinkOk(m, 0, x) && m.next[x][0].Null?
    ensures IsGreatest(Keys(m), x)
  {
    assert IsSuccessor(Keys(m), x, Null);
  }

  // ---- Linking a new node

  /** `p` is the place to link `key` in on level `i`. */
  ghost predicate IsPlace(m: Mem, key: Key, i: nat, p: Node) {
    && i < MAX_HEIGHT == |m.levels|
    && On(p, m.levels[i]) && After(key, p)
    && forall k | k in m.levels[i] && After(k, p) :: key < k
  }

  /** The store of the new node's own next pointer on level `i`. */
  function SetOwnNext(m: Mem, key: Key, i: nat, link: Link): Mem
    requires At(key) in m.next && i < |m.next[At(key)]|
  {
    m.(next := m.next[At(key) := m.next[At(key)][i := link]])
  }

  /** The store that links the new node in on level `i`. */
  function LinkIn(m: Mem, key: Key, i: nat, p: Node): Mem
    requires p in m.next && i < |m.next[p]| && i < |m.levels|
  {
    m.(next := m.next[p := m.next[p][i := To(key)]], levels := m.levels[i := m.levels[i] + {key}])
  }

  /** A node that is not linked on a level may have anything in its link there. */
  lemma OwnNextKeepsInv(m: Mem, key: Key, i: nat, link: Link)
    requires MemInv(m) && At(key) in m.next && i < |m.next[At(key)]| && i < MAX_HEIGHT
    requires key !in m.levels[i]
    ensures MemInv(SetOwnNext(m, key, i, link))
  {
    var b := SetOwnNext(m, key, i, link);
    forall j, n | 0 <= j < MAX_HEIGHT && On(n, b.levels[j])
      ensures LinkOk(b, j, n)
    {
      assert LinkOk(m, j, n);
    }
  }

  /** Linking in at the right place, with the new node's link set first, keeps every level in order. */
  lemma LinkInKeepsInv(m: Mem, key: Key, i: nat, p: Node)
    requires MemInv(m) && IsPlace(m, key, i, p) && key !in m.levels[i] && i < m.maxHeight
    requires LinkOk(m, i, p)
    requires At(key) in m.next && i < |m.next[At(key)]| && m.next[At(key)][i] == m.next[p][i]
    requires i > 0 ==> key in m.levels[i - 1]
    ensures MemInv(LinkIn(m, key, i, p))
  {
    var b := LinkIn(m, key, i, p);
    forall j, n | 0 <= j < MAX_HEIGHT && On(n, b.levels[j])
      ensures LinkOk(b, j, n)
    {
      if j != i {
        assert LinkOk(m, j, n);
      } else if n == At(key) || n == p {
        NewNodeLink(m.levels[i], key, p, m.next[p][i]);
      } else {
        assert LinkOk(m, i, n);
        OtherNodeLink(m.levels[i], key, p, n, m.next[n][i]);
      }
    }
  }

  lemma NewNodeLink(s: set<Key>, key: Key, p: Node, link: Link)
    requires On(p, s) && After(key, p) && (forall k | k in s && After(k, p) :: key < k) && IsSuccessor(s, p, link)
    ensures IsSuccessor(s + {key}, At(key), link)
    ensures IsSuccessor(s + {key}, p, To(key))
  {
    if link.Null? {
      forall k | k in s + {key}
        ensures !After(k, At(key))
      {
        assert k in s ==> !After(k, p);
      }
    }
  }

  lemma OtherNodeLink(s: set<Key>, key: Key, p: Node, n: Node, link: Link)
    requires On(p, s) && After(key, p) && (forall k | k in s && After(k, p) :: key < k)
    requires On(n, s) && n != p && IsSuccessor(s, n, link)
    ensures IsSuccessor(s + {key}, n, link)
  {
    if After(key, n) {
      // `n` is before `p`, so its successor is no later than `p`.
      assert n.At? ==> !After(n.key, p);
      assert p.At?;
      assert After(p.key, n);
    }
  }

  /** Where the search left level `i`. */
  ghost predicate Stop(m: Mem, target: Key, i: nat, p: Node) {
    SearchAt(m, target, p, i) && LinkOk(m, i, p) && !KeyIsAfter(target, m.next[p][i])
  }

  /** What a full search leaves in `prev`: the places to link in, level by level. */
  lemma PlacesFound(m: Mem, key: Key, prev: seq<Node>)
    requires MemInv(m) && |prev| == MAX_HEIGHT && key !in Keys(m)
    requires forall i | 0 <= i < m.maxHeight :: Stop(m, key, i, prev[i])
    ensures forall i | 0 <= i < m.maxHeight :: IsPlace(m, key, i, prev[i])
  {
    forall i | 0 <= i < m.maxHeight
      ensures IsPlace(m, key, i, prev[i])
    {
      LevelsNest(m, 0, i);
      PlaceFound(m, key, i, prev[i]);
    }
  }

  lemma PlaceFound(m: Mem, key: Key, i: nat, p: Node)
    requires MemInv(m) && i < MAX_HEIGHT && key !in m.levels[i]
    requires Stop(m, key, i, p)
    ensures IsPlace(m, key, i, p)
  {
  }

  /** Above the list's height every level is empty, and the head is the place. */
  lemma HeadIsPlace(m: Mem, key: Key, i: nat)
    requires MemInv(m) && m.maxHeight <= i < MAX_HEIGHT
    ensures IsPlace(m, key, i, Head)
  {
  }

  /** The store of a greater height, and a node nobody can reach yet. */
  function Allocated(m: Mem, key: Key, height: nat, links: seq<Link>): Mem {
    m.(maxHeight := if height > m.maxHeight then height else m.maxHeight, next := m.next[At(key) := links])
  }

  lemma AllocateKeepsInv(m: Mem, key: Key, height: nat, links: seq<Link>)
    requires MemInv(m) && key !in Keys(m) && height <= MAX_HEIGHT
    ensures MemInv(Allocated(m, key, height, links))
  {
    var b := Allocated(m, key, height, links);
    forall j, n | 0 <= j < MAX_HEIGHT && On(n, b.levels[j])
      ensures LinkOk(b, j, n)
    {
      LevelsNest(m, 0, j);
      assert LinkOk(m, j, n);
    }
  }

  lemma PlaceStays(a: Mem, b: Mem, key: Key, i: nat, p: Node)
    requires IsPlace(a, key, i, p) && |b.levels| == MAX_HEIGHT && b.levels[i] == a.levels[i]
    ensures IsPlace(b, key, i, p)
  {
  }
}

/** The skip list with one writer and any number of readers, interleaved at every load and store of a link.

    A reader takes no lock.  It may have read any height the list has had so far, so a search starts on any
    level below the current height. */
module SkipListRuns {
  import opened InternalKeys
  import opened SkipListState

  /** Where the writer is inside Insert. */
  datatype Writer =
    | Idle
    | Searching(key: Key, x: Node, level: nat, prev: seq<Node>)
    | Placed(key: Key, prev: seq<Node>)
    /** About to work on level `i`; `ready` once the new node's own link there is set. */
    | Linking(key: Key, prev: seq<Node>, height: nat, i: nat, ready: bool)

  /** Where a reader is.  A scan remembers, for the specification, the keys it has met and those that were
      in the list when it began. */
  datatype Reader =
    | Seeking(target: Key, x: Node, level: nat)
    | Sought(target: Key, link: Link)
    | Backing(target: Key, x: Node, level: nat)
    | Backed(target: Key, node: Node)
    | Ending(x: Node, level: nat)
    | Ended(node: Node)
    | Scanning(at: Node, visited: seq<Key>, started: set<Key>)
    | Scanned(visited: seq<Key>, started: set<Key>)

  datatype Shared = Shared(mem: Mem, writer: Writer, readers: map<nat, Reader>)

  // ---- Steps of the writer

  ghost predicate BeginInsert(a: Shared, b: Shared, key: Key) {
    && a.writer.Idle? && |a.mem.levels| == MAX_HEIGHT && key !in Keys(a.mem) && a.mem.maxHeight > 0
    && b == a.(writer := Searching(key, Head, a.mem.maxHeight - 1, seq(MAX_HEIGHT, _ => Head)))
  }

  /** One round of FindGreaterOrEqual in Insert. */
  ghost predicate WriterLoads(a: Shared, b: Shared) {
    && a.writer.Searching?
    && var Searching(key, x, level, prev) := a.writer;
    && x in a.mem.next && level < |a.mem.next[x]| && level < |prev|
    && var link := a.mem.next[x][level];
    && b == a.(writer := if KeyIsAfter(key, link) then Searching(key, NodeOf(link), level, prev)
                         else if level == 0 then Placed(key, prev[0 := x])
                         else Searching(key, x, level - 1, prev[level := x]))
  }

  /** The store of the height, and the allocation; a fresh node's links hold anything. */
  ghost predicate Allocates(a: Shared, b: Shared, height: nat, links: seq<Link>) {
    && a.writer.Placed? && 1 <= height <= MAX_HEIGHT && |links| == height
    && |a.writer.prev| == MAX_HEIGHT
    && var prev := seq(MAX_HEIGHT, i requires 0 <= i < MAX_HEIGHT => if i < a.mem.maxHeight then a.writer.prev[i] else Head);
    && b == a.(mem := Allocated(a.mem, a.writer.key, height, links),
               writer := Linking(a.writer.key, prev, height, 0, false))
  }

  ghost predicate StoresOwnNext(a: Shared, b: Shared) {
    && a.writer.Linking? && !a.writer.ready && a.writer.i < a.writer.height
    && var Linking(key, prev, height, i, _) := a.writer;
    && i < |prev| && prev[i] in a.mem.next && i < |a.mem.next[prev[i]]|
    && At(key) in a.mem.next && i < |a.mem.next[At(key)]|
    && b == a.(mem := SetOwnNext(a.mem, key, i, a.mem.next[prev[i]][i]), writer := a.writer.(ready := true))
  }

  ghost predicate StoresPrevNext(a: Shared, b: Shared) {
    && a.writer.Linking? && a.writer.ready
    && var Linking(key, prev, height, i, _) := a.writer;
    && i < |prev| && prev[i] in a.mem.next && i < |a.mem.next[prev[i]]| && i < |a.mem.levels|
    && b == a.(mem := LinkIn(a.mem, key, i, prev[i]), writer := a.writer.(i := i + 1, ready := false))
  }

  ghost predicate EndInsert(a: Shared, b: Shared) {
    && a.writer.Linking? && !a.writer.ready && a.writer.i == a.writer.height
    && b == a.(writer := Idle)
  }

  // ---- Steps of reader `r`

  ghost predicate BeginsRead(a: Shared, b: Shared, r: nat, height: nat, op: Reader) {
    && 1 <= height <= a.mem.maxHeight && |a.mem.levels| == MAX_HEIGHT
    && (|| (op.Seeking? && op.x.Head? && op.level == height - 1)
        || (op.Backing? && op.x.Head? && op.level == height - 1)
        || (op.Ending? && op.x.Head? && op.level == height - 1)
        || op == Scanning(Head, [], Keys(a.mem)))
    && b == a.(readers := a.readers[r := op])
  }

  /** What the reader makes of the link it loads. */
  function AfterLoad(op: Reader, link: Link): Reader
    requires op.Seeking? || op.Backing? || op.Ending? || op.Scanning?
  {
    match op
    case Seeking(target, x, level) =>
      if KeyIsAfter(target, link) then Seeking(target, NodeOf(link), level)
      else if level == 0 then Sought(target, link)
      else Seeking(target, x, level - 1)
    case Backing(target, x, level) =>
      if link.Null? || link.key >= target then
        if level == 0 then Backed(target, x) else Backing(target, x, level - 1)
      else Backing(target, NodeOf(link), level)
    case Ending(x, level) =>
      if link.Null? then
        if level == 0 then Ended(x) else Ending(x, level - 1)
      else Ending(NodeOf(link), level)
    case Scanning(at, visited, started) =>
      if link.Null? then Scanned(visited, started)
      else Scanning(NodeOf(link), visited + [link.key], started)
  }

  predicate Running(op: Reader) {
    op.Seeking? || op.Backing? || op.Ending? || op.Scanning?
  }

  /** The node and level a running reader loads from. */
  function LoadNode(op: Reader): Node
    requires Running(op)
  {
    if op.Scanning? then op.at else op.x
  }

  function LoadLevel(op: Reader): nat
    requires Running(op)
  {
    if op.Scanning? then 0 else op.level
  }

  ghost predicate ReaderLoads(a: Shared, b: Shared, r: nat) {
    && r in a.readers && Running(a.readers[r])
    && var op := a.readers[r];
    && LoadNode(op) in a.mem.next && LoadLevel(op) < |a.mem.next[LoadNode(op)]|
    && b == a.(readers := a.readers[r := AfterLoad(op, a.mem.next[LoadNode(op)][LoadLevel(op)])])
  }

  datatype Step =
    | BeginInsertStep(key: Key)
    | WriterLoadStep
    | AllocateStep(height: nat, links: seq<Link>)
    | OwnNextStep
    | PrevNextStep
    | EndInsertStep
    | BeginReadStep(r: nat, height: nat, op: Reader)
    | ReaderLoadStep(r: nat)

  ghost predicate Next(a: Shared, b: Shared, step: Step) {
    match step
    case BeginInsertStep(key) => BeginInsert(a, b, key)
    case WriterLoadStep => WriterLoads(a, b)
    case AllocateStep(height, links) => Allocates(a, b, height, links)
    case OwnNextStep => StoresOwnNext(a, b)
    case PrevNextStep => StoresPrevNext(a, b)
    case EndInsertStep => EndInsert(a, b)
    case BeginReadStep(r, height, op) => BeginsRead(a, b, r, height, op)
    case ReaderLoadStep(r) => ReaderLoads(a, b, r)
  }

  // ---- The invariant

  ghost predicate WriterInv(m: Mem, w: Writer)
    requires |m.levels| == MAX_HEIGHT
  {
    match w
    case Idle => true
    case Searching(key, x, level, prev) =>
      && key !in Keys(m) && level < m.maxHeight && SearchAt(m, key, x, level) && |prev| == MAX_HEIGHT
      && forall i | level < i < m.maxHeight && i < MAX_HEIGHT :: Stop(m, key, i, prev[i])
    case Placed(key, prev) =>
      && key !in Keys(m) && |prev| == MAX_HEIGHT
      && forall i | 0 <= i < m.maxHeight && i < MAX_HEIGHT :: IsPlace(m, key, i, prev[i])
    case Linking(key, prev, height, i, ready) =>
      && i <= height <= m.maxHeight && height <= MAX_HEIGHT == |prev| && 1 <= height
      && At(key) in m.next && |m.next[At(key)]| == height
      && (forall j | 0 <= j < MAX_HEIGHT :: key in m.levels[j] <==> j < i)
      && (forall j | i <= j < height :: IsPlace(m, key, j, prev[j]))
      && (ready ==> i < height && prev[i] in m.next && i < |m.next[prev[i]]| && m.next[At(key)][i] == m.next[prev[i]][i])
  }

  ghost predicate ReaderInv(m: Mem, op: Reader)
    requires |m.levels| == MAX_HEIGHT
  {
    match op
    case Seeking(target, x, level) => SearchAt(m, target, x, level)
    case Backing(target, x, level) => SearchAt(m, target, x, level)
    case Ending(x, level) => level < MAX_HEIGHT && On(x, m.levels[level])
    case Scanning(at, visited, started) => ScanInv(Keys(m), at, visited, started)
    case Scanned(visited, started) =>
      AscendingKeys(visited) && started <= Elements(visited) <= Keys(m)
    case _ => true
  }

  /** The keys met so far are in order and include every key up to here that was there at the start. */
  ghost predicate ScanInv(keys: set<Key>, at: Node, visited: seq<Key>, started: set<Key>) {
    && On(at, keys) && AscendingKeys(visited) && Elements(visited) <= keys && started <= keys
    && (forall k | k in visited :: !After(k, at))
    && (forall k | k in started && !After(k, at) :: k in visited)
  }

  ghost predicate Inv(s: Shared) {
    && MemInv(s.mem)
    && WriterInv(s.mem, s.writer)
    && forall r | r in s.readers :: ReaderInv(s.mem, s.readers[r])
  }

  ghost predicate Grows(a: Mem, b: Mem) {
    |a.levels| == MAX_HEIGHT == |b.levels| && forall i | 0 <= i < MAX_HEIGHT :: a.levels[i] <= b.levels[i]
  }

  /** What a reader knows stays true whatever is linked in meanwhile. */
  lemma ReaderInvIsStable(a: Mem, b: Mem, op: Reader)
    requires |a.levels| == MAX_HEIGHT && ReaderInv(a, op) && Grows(a, b)
    ensures ReaderInv(b, op)
  {
    assert Keys(a) <= Keys(b);
  }

  lemma ReadersStay(a: Shared, b: Shared)
    requires Inv(a) && b.readers == a.readers && Grows(a.mem, b.mem)
    ensures forall r | r in b.readers :: ReaderInv(b.mem, b.readers[r])
  {
    forall r | r in b.readers
      ensures ReaderInv(b.mem, b.readers[r])
    {
      ReaderInvIsStable(a.mem, b.mem, a.readers[r]);
    }
  }

  lemma WriterLoadKeepsInv(a: Shared, b: Shared)
    requires Inv(a) && WriterLoads(a, b)
    ensures Inv(b)
  {
    var m := a.mem;
    var Searching(key, x, level, prev) := a.writer;
    SearchAdvances(m, key, x, level);
    if !KeyIsAfter(key, m.next[x][level]) {
      assert Stop(m, key, level, x);
      if level == 0 {
        PlacesFound(m, key, prev[0 := x]);
      } else {
        SearchDescends(m, key, x, level);
      }
    }
  }

  lemma AllocateStepKeepsInv(a: Shared, b: Shared, height: nat, links: seq<Link>)
    requires Inv(a) && Allocates(a, b, height, links)
    ensures Inv(b)
  {
    var key := a.writer.key;
    AllocateKeepsInv(a.mem, key, height, links);
    ReadersStay(a, b);
    forall j | 0 <= j < height
      ensures IsPlace(b.mem, key, j, b.writer.prev[j])
    {
      if j >= a.mem.maxHeight {
        HeadIsPlace(a.mem, key, j);
      }
      PlaceStays(a.mem, b.mem, key, j, b.writer.prev[j]);
    }
    forall j | 0 <= j < MAX_HEIGHT
      ensures key !in b.mem.levels[j]
    {
      LevelsNest(a.mem, 0, j);
    }
  }

  lemma OwnNextStepKeepsInv(a: Shared, b: Shared)
    requires Inv(a) && StoresOwnNext(a, b)
    ensures Inv(b)
  {
    var Linking(key, prev, height, i, _) := a.writer;
    OwnNextKeepsInv(a.mem, key, i, a.mem.next[prev[i]][i]);
    ReadersStay(a, b);
    forall j | i <= j < height
      ensures IsPlace(b.mem, key, j, prev[j])
    {
      PlaceStays(a.mem, b.mem, key, j, prev[j]);
    }
  }

  lemma PrevNextStepKeepsInv(a: Shared, b: Shared)
    requires Inv(a) && StoresPrevNext(a, b)
    ensures Inv(b)
  {
    var Linking(key, prev, height, i, _) := a.writer;
    assert LinkOk(a.mem, i, prev[i]);
    LinkInKeepsInv(a.mem, key, i, prev[i]);
    ReadersStay(a, b);
    forall j | i + 1 <= j < height
      ensures IsPlace(b.mem, key, j, prev[j])
    {
      PlaceStays(a.mem, b.mem, key, j, prev[j]);
    }
  }

  lemma ReaderLoadKeepsInv(a: Shared, b: Shared, r: nat)
    requires Inv(a) && ReaderLoads(a, b, r)
    ensures Inv(b)
  {
    var m, op := a.mem, a.readers[r];
    LoadKeepsReaderInv(m, op);
  }

  lemma LoadKeepsReaderInv(m: Mem, op: Reader)
    requires MemInv(m) && Running(op) && ReaderInv(m, op)
    ensures LoadNode(op) in m.next && LoadLevel(op) < |m.next[LoadNode(op)]|
    ensures ReaderInv(m, AfterLoad(op, m.next[LoadNode(op)][LoadLevel(op)]))
  {
    assert LinkOk(m, LoadLevel(op), LoadNode(op));
    if op.Scanning? {
      ScanAdvances(Keys(m), op.at, op.visited, op.started, m.next[op.at][0]);
    }
  }

  lemma ScanAdvances(keys: set<Key>, at: Node, visited: seq<Key>, started: set<Key>, link: Link)
    requires ScanInv(keys, at, visited, started) && IsSuccessor(keys, at, link)
    ensures link.Null? ==> started <= Elements(visited)
    ensures link.To? ==> ScanInv(keys, NodeOf(link), visited + [link.key], started)
  {
    if link.To? {
      var more := visited + [link.key];
      assert Elements(more) == Elements(visited) + {link.key};
      forall j | 0 <= j < |visited|
        ensures visited[j] < link.key
      {
        assert visited[j] in visited;
      }
    } else {
      forall k | k in started
        ensures k in Elements(visited)
      {
        assert !After(k, at);
      }
    }
  }

  lemma NextKeepsInv(a: Shared, b: Shared, step: Step)
    requires Inv(a) && Next(a, b, step)
    ensures Inv(b) && Grows(a.mem, b.mem)
  {
    match step
    case BeginInsertStep(key) =>
    case WriterLoadStep => WriterLoadKeepsInv(a, b);
    case AllocateStep(height, links) => AllocateStepKeepsInv(a, b, height, links);
    case OwnNextStep => OwnNextStepKeepsInv(a, b);
    case PrevNextStep => PrevNextStepKeepsInv(a, b);
    case EndInsertStep =>
    case BeginReadStep(r, height, op) =>
    case ReaderLoadStep(r) => ReaderLoadKeepsInv(a, b, r);
  }

  // ---- Runs

  ghost predicate Init(s: Shared) {
    Empty(s.mem) && s.writer.Idle? && s.readers == map[]
  }

  ghost predicate LinkedAt(states: seq<Shared>, steps: seq<Step>, i: nat)
    requires |states| == |steps| + 1 && i < |steps|
  {
    Next(states[i], states[i + 1], steps[i])
  }

  ghost predicate IsRun(states: seq<Shared>, steps: seq<Step>) {
    && |states| == |steps| + 1
    && Init(states[0])
    && forall i | 0 <= i < |steps| :: LinkedAt(states, steps, i)
  }

  lemma {:induction false} RunKeepsInv(states: seq<Shared>, steps: seq<Step>, n: nat)
    requires IsRun(states, steps) && n < |states|
    ensures Inv(states[n])
  {
    hide Inv, Next;
    if n == 0 {
      InitHasInv(states[0]);
    } else {
      RunKeepsInv(states, steps, n - 1);
      assert LinkedAt(states, steps, n - 1);
      NextKeepsInv(states[n - 1], states[n], steps[n - 1]);
    }
  }

  lemma InitHasInv(s: Shared)
    requires Init(s)
    ensures Inv(s)
  {
    EmptyHasInv(s.mem);
  }

  /** Every interleaving keeps every level sorted and each level a subset of the one below. */
  lemma LevelsStaySorted(states: seq<Shared>, steps: seq<Step>, n: nat, i: nat)
    requires IsRun(states, steps) && n < |states| && i < MAX_HEIGHT
    ensures var m := states[n].mem;
            && |m.levels| == MAX_HEIGHT
            && AscendingKeys(Walk(m, i, Head, |m.levels[i]|))
            && Elements(Walk(m, i, Head, |m.levels[i]|)) == m.levels[i]
            && (i > 0 ==> m.levels[i] <= m.levels[i - 1])
  {
    RunKeepsInv(states, steps, n);
    var m := states[n].mem;
    assert KeysAfter(m.levels[i], Head) == m.levels[i];
    WalkVisitsAll(m, i, Head, |m.levels[i]|);
  }

  /** Keys are never taken out again. */
  lemma {:induction false} KeysGrow(states: seq<Shared>, steps: seq<Step>, m: nat, n: nat)
    requires IsRun(states, steps) && m <= n < |states|
    ensures |states[m].mem.levels| == MAX_HEIGHT == |states[n].mem.levels| && Keys(states[m].mem) <= Keys(states[n].mem)
    decreases n
  {
    hide Next;
    RunKeepsInv(states, steps, n);
    if m < n {
      KeysGrow(states, steps, m, n - 1);
      RunKeepsInv(states, steps, n - 1);
      assert LinkedAt(states, steps, n - 1);
      NextKeepsInv(states[n - 1], states[n], steps[n - 1]);
    }
  }

  /** Main result: a search returns the least key at or after its target among the keys linked on level 0 at
      its last load, so it misses no key that was linked at any earlier time, in particular before it began. */
  lemma SeekMissesNothing(states: seq<Shared>, steps: seq<Step>, n: nat, r: nat)
    requires IsRun(states, steps) && n < |steps| && steps[n] == ReaderLoadStep(r)
    requires r in states[n + 1].readers && states[n + 1].readers[r].Sought?
    ensures var s := states[n + 1].readers[r];
            && |states[n].mem.levels| == MAX_HEIGHT && IsLeastAtOrAfter(Keys(states[n].mem), s.target, s.link)
            && forall m, k | 0 <= m <= n && |states[m].mem.levels| == MAX_HEIGHT && k in Keys(states[m].mem) && s.target <= k ::
                 s.link.To? && s.link.key <= k
  {
    RunKeepsInv(states, steps, n);
    assert LinkedAt(states, steps, n);
    SeekEnds(states[n], states[n + 1], r);
    var s := states[n + 1].readers[r];
    forall m, k | 0 <= m <= n && |states[m].mem.levels| == MAX_HEIGHT && k in Keys(states[m].mem) && s.target <= k
      ensures s.link.To? && s.link.key <= k
    {
      KeysGrow(states, steps, m, n);
      assert k in Keys(states[n].mem);
    }
  }

  lemma SeekEnds(a: Shared, b: Shared, r: nat)
    requires Inv(a) && ReaderLoads(a, b, r) && b.readers[r].Sought?
    ensures IsLeastAtOrAfter(Keys(a.mem), b.readers[r].target, b.readers[r].link)
  {
    var op := a.readers[r];
    assert LinkOk(a.mem, 0, op.x);
    SearchEnds(a.mem, op.target, op.x);
  }

  /** The backward searches, at their last load. */
  lemma BackwardSearchesEnd(states: seq<Shared>, steps: seq<Step>, n: nat, r: nat)
    requires IsRun(states, steps) && n < |steps| && steps[n] == ReaderLoadStep(r) && r in states[n + 1].readers
    ensures |states[n].mem.levels| == MAX_HEIGHT
    ensures var s := states[n + 1].readers[r];
            && (s.Backed? ==> IsGreatestBefore(Keys(states[n].mem), s.target, s.node))
            && (s.Ended? ==> IsGreatest(Keys(states[n].mem), s.node))
  {
    RunKeepsInv(states, steps, n);
    assert LinkedAt(states, steps, n);
    var m, op := states[n].mem, states[n].readers[r];
    assert LinkOk(m, LoadLevel(op), LoadNode(op));
    if states[n + 1].readers[r].Backed? {
      SearchEnds(m, op.target, op.x);
    } else if states[n + 1].readers[r].Ended? {
      LastFound(m, op.x);
    }
  }

  /** A scan from the first key to the end, however many inserts run meanwhile, meets keys in order, meets
      every key that was there when it began, and meets nothing that was not inserted. */
  lemma ScanMeetsAll(states: seq<Shared>, steps: seq<Step>, n: nat, r: nat)
    requires IsRun(states, steps) && n < |states| && r in states[n].readers && states[n].readers[r].Scanned?
    ensures var s := states[n].readers[r];
            && AscendingKeys(s.visited)
            && |states[n].mem.levels| == MAX_HEIGHT && s.started <= Elements(s.visited) <= Keys(states[n].mem)
  {
    RunKeepsInv(states, steps, n);
  }

  /** An insert takes effect at one store, the one that links its key in on level 0. */
  lemma InsertIsAtomic(states: seq<Shared>, steps: seq<Step>, n: nat)
    requires IsRun(states, steps) && n < |steps|
    ensures |states[n].mem.levels| == MAX_HEIGHT == |states[n + 1].mem.levels|
    ensures var w := states[n].writer;
            Keys(states[n + 1].mem) == Keys(states[n].mem)
              + if steps[n].PrevNextStep? && w.Linking? && w.i == 0 then {w.key} else {}
    ensures steps[n].EndInsertStep? ==> states[n].writer.Linking? && states[n].writer.key in Keys(states[n + 1].mem)
  {
    RunKeepsInv(states, steps, n);
    RunKeepsInv(states, steps, n + 1);
    assert LinkedAt(states, steps, n);
  }
}

/** A run of the store in which a deleted key is readable again after a compaction. */
module Resurrection {
  import opened InternalKeys
  import opened Mvcc
  import opened Version
  import opened Inputs
  import opened Boundary
  import opened Picking
  import opened DropRules
  import opened CompactionLoop
  import opened Outputs
  import opened Install
  import opened Lookup
  import opened InFlight
  import opened CompactionReads
  import opened DbState
  import opened DbSteps
  import opened DbRuns

  // ---- What is written

  const OTHER := Entry(InternalKey(1.0, 1, Put), "b")
  const OLD := Entry(InternalKey(2.0, 2, Put), "old")
  const TOMBSTONE := Entry(InternalKey(2.0, 3, Deletion), "")
  const NEW := Entry(InternalKey(1.0, 4, Put), "a")

  lemma Order()
    ensures Before(OTHER.k, OLD.k) && Before(OTHER.k, TOMBSTONE.k) && Before(TOMBSTONE.k, OLD.k) && Before(NEW.k, OTHER.k)
    ensures Before(NEW.k, TOMBSTONE.k)
  {
    assert Tag(TOMBSTONE.k) == 3 * 256 && Tag(OLD.k) == 2 * 256 + 1 && Tag(NEW.k) == 4 * 256 + 1 && Tag(OTHER.k) == 256 + 1;
  }

  // ---- The tables

  /** The first memtable, placed on level 2 as nothing is in the way. */
  const FIRST := File(3, 1, OTHER.k, OLD.k, [OTHER, OLD])
  /** The second, placed on level 1 as it overlaps the first. */
  const SECOND := File(5, 1, TOMBSTONE.k, TOMBSTONE.k, [TOMBSTONE])
  /** What compacting the two makes, for a snapshot between the two entries of key 2, cut inside that key. */
  const SELECTED := File(6, 1, OTHER.k, TOMBSTONE.k, [OTHER, TOMBSTONE])
  const LEFT_BEHIND := File(7, 1, OLD.k, OLD.k, [OLD])
  /** The third memtable, on level 1 again. */
  const THIRD := File(9, 1, NEW.k, NEW.k, [NEW])
  /** What compacting it makes. */
  const LAST := File(10, 1, NEW.k, NEW.k, [NEW])

  /** A version with files on levels 1 and 2 only. */
  function Levels12(one: seq<File>, two: seq<File>): (v: Levels)
    ensures |v| == NUM_LEVELS && v[1] == one && v[2] == two
    ensures forall l | 0 <= l < NUM_LEVELS && l != 1 && l != 2 :: v[l] == []
  {
    [[], one, two, [], [], [], []]
  }

  lemma SortedPair(f: File, g: File)
    requires BySmallest(f, g)
    ensures SortedFiles([f, g])
  {
  }

  lemma FlushedTo1(two: seq<File>, n: File)
    ensures Flushed(Levels12([], two), Levels12([n], two), 1, n)
    ensures forall l, f | 0 <= l <= 1 && f in Levels12([], two)[l] :: UserApart(f, n)
  {
  }

  lemma FlushedTo2(n: File)
    ensures Flushed(Levels12([], []), Levels12([], [n]), 2, n)
    ensures forall l, f | 0 <= l <= 2 && f in Levels12([], [])[l] :: UserApart(f, n)
  {
  }

  lemma ReplacedOnto2(a: File, b: File, c: seq<File>, two: seq<File>, outs: seq<File>)
    requires SortedFiles(two)
    requires forall f :: f in two <==> (f in [b] + c && f !in [b]) || f in outs
    ensures Replaced(Levels12([a], [b] + c), Levels12([], two), 1, [a], [b], outs)
  {
  }

  // ---- The states

  const EMPTY: Levels := Levels12([], [])

  ghost function S0(): Db {
    Db({}, [], None, EMPTY, 0, [], [], None, {}, 2, map[1 := []], 1, 0, 1, 0, 2, {})
  }

  const FIRST_OPS := [Op(1.0, Put, "b"), Op(2.0, Put, "old")]

  ghost function S1(): Db {
    S0().(history := {OTHER, OLD}, mem := [OTHER, OLD], lastSequence := 2, logs := map[1 := [OTHER, OLD]])
  }

  ghost function S2(): Db {
    S1().(snapshots := [2])
  }

  ghost function S3(): Db {
    S2().(imm := Some([OTHER, OLD]), immLog := 1, mem := [], logNumber := 2, nextFile := 3,
          logs := map[1 := [OTHER, OLD], 2 := []])
  }

  ghost function S4(): Db {
    S3().(imm := None, version := Levels12([], [FIRST]), nextFile := 4, manifestLog := 2, manifestSequence := 2,
          manifestNext := 4, tables := {3})
  }

  const SECOND_OPS := [Op(2.0, Deletion, "")]

  ghost function S5(): Db {
    S4().(history := {OTHER, OLD, TOMBSTONE}, mem := [TOMBSTONE], lastSequence := 3, logs := map[1 := [OTHER, OLD], 2 := [TOMBSTONE]])
  }

  ghost function S6(): Db {
    S5().(imm := Some([TOMBSTONE]), immLog := 2, mem := [], logNumber := 4, nextFile := 5,
          logs := map[1 := [OTHER, OLD], 2 := [TOMBSTONE], 4 := []])
  }

  ghost function S7(): Db {
    S6().(imm := None, version := Levels12([SECOND], [FIRST]), nextFile := 6, manifestLog := 4, manifestSequence := 3,
          manifestNext := 6, tables := {3, 5})
  }

  ghost function FirstCompaction(): Pending {
    Pending(1, [SECOND], [FIRST], Levels12([SECOND], [FIRST]), 2)
  }

  ghost function S8(): Db {
    S7().(pending := Some(FirstCompaction()))
  }

  ghost function S9(): Db {
    S8().(pendingOutputs := {6}, tables := {3, 5, 6}, nextFile := 7)
  }

  ghost function S10(): Db {
    S9().(pendingOutputs := {6, 7}, tables := {3, 5, 6, 7}, nextFile := 8)
  }

  ghost function S11(): Db {
    S10().(version := Levels12([], [SELECTED, LEFT_BEHIND]), pending := None, pendingOutputs := {}, manifestSequence := 3,
           manifestNext := 8)
  }

  ghost function S12(): Db {
    S11().(snapshots := [])
  }

  const THIRD_OPS := [Op(1.0, Put, "a")]

  ghost function S13(): Db {
    S12().(history := {OTHER, OLD, TOMBSTONE, NEW}, mem := [NEW], lastSequence := 4,
           logs := map[1 := [OTHER, OLD], 2 := [TOMBSTONE], 4 := [NEW]])
  }

  ghost function S14(): Db {
    S13().(imm := Some([NEW]), immLog := 4, mem := [], logNumber := 8, nextFile := 9,
           logs := map[1 := [OTHER, OLD], 2 := [TOMBSTONE], 4 := [NEW], 8 := []])
  }

  ghost function S15(): Db {
    S14().(imm := None, version := Levels12([THIRD], [SELECTED, LEFT_BEHIND]), nextFile := 10, manifestLog := 8,
           manifestSequence := 4, manifestNext := 10, tables := {3, 5, 6, 7, 9})
  }

  ghost function SecondCompaction(): Pending {
    Pending(1, [THIRD], [SELECTED], Levels12([THIRD], [SELECTED, LEFT_BEHIND]), 4)
  }

  ghost function S16(): Db {
    S15().(pending := Some(SecondCompaction()))
  }

  ghost function S17(): Db {
    S16().(pendingOutputs := {10}, tables := {3, 5, 6, 7, 9, 10}, nextFile := 11)
  }

  ghost function S18(): Db {
    S17().(version := Levels12([], [LAST, LEFT_BEHIND]), pending := None, pendingOutputs := {}, manifestSequence := 4,
           manifestNext := 11)
  }

  // ---- The steps

  lemma WriteOne(a: Db, b: Db, ops: seq<Op>, es: seq<Entry>, log: seq<Entry>)
    requires a.logNumber in a.logs && a.lastSequence + |ops| < MAX_SEQUENCE && a.readers == []
    requires Stamp(ops, a.lastSequence + 1) == es && a.mem == [] && MemAddAll([], es) == es && log == a.logs[a.logNumber] + es
    requires b == a.(history := a.history + Elements(es), mem := es, lastSequence := a.lastSequence + |ops|,
                     logs := a.logs[a.logNumber := log])
    ensures Next(a, b, WriteStep(ops))
  {
    hide Stamp, MemAddAll, Elements;
    BatchIsStamped(a, ops);
    assert GrowReaders([], a.logNumber, es) == [];
    assert Write(a, b, ops);
  }

  lemma InsertFirst(e: Entry)
    ensures MemAddAll([], [e]) == [e]
  {
    assert InsertByKey([], e) == [e];
    assert [e][1..] == [];
  }

  lemma InsertSecond(e: Entry, f: Entry)
    requires Before(e.k, f.k)
    ensures MemAddAll([], [e, f]) == [e, f]
  {
    assert InsertByKey([], e) == [e];
    assert [e, f][1..] == [f] && [f][1..] == [];
    assert LowerBound([e][1..], f.k) == 0;
    assert LowerBound([e], f.k) == 1;
    assert InsertByKey([e], f) == [e, f];
    assert MemAddAll([e], [f]) == MemAddAll([e, f], []);
    assert MemAddAll([], [e, f]) == MemAddAll([e], [f]);
  }

  lemma StampFirst()
    ensures Stamp(FIRST_OPS, 1) == [OTHER, OLD]
  {
  }

  lemma StampOne(op: Op, first: nat)
    ensures Stamp([op], first) == [Entry(InternalKey(op.user, first, op.kind), op.value)]
  {
  }

  lemma ElementsOf(e: Entry, f: Entry)
    ensures Elements([e]) == {e} && Elements([e, f]) == {e, f}
  {
  }

  lemma FirstWrite()
    ensures Next(S0(), S1(), WriteStep(FIRST_OPS))
  {
    hide MemAddAll, Next, Stamp, Elements;
    Order();
    InsertSecond(OTHER, OLD);
    StampFirst();
    ElementsOf(OTHER, OLD);
    WriteOne(S0(), S1(), FIRST_OPS, [OTHER, OLD], [OTHER, OLD]);
  }

  lemma SecondWrite()
    ensures Next(S4(), S5(), WriteStep(SECOND_OPS))
  {
    hide MemAddAll, Next, Stamp, Elements;
    InsertFirst(TOMBSTONE);
    StampOne(SECOND_OPS[0], 3);
    ElementsOf(TOMBSTONE, TOMBSTONE);
    assert {OTHER, OLD} + {TOMBSTONE} == {OTHER, OLD, TOMBSTONE};
    assert S4().logs[2 := [TOMBSTONE]] == S5().logs;
    WriteOne(S4(), S5(), SECOND_OPS, [TOMBSTONE], [TOMBSTONE]);
  }

  lemma ThirdWrite()
    ensures Next(S12(), S13(), WriteStep(THIRD_OPS))
  {
    hide MemAddAll, Next, Stamp, Elements;
    InsertFirst(NEW);
    StampOne(THIRD_OPS[0], 4);
    ElementsOf(NEW, NEW);
    assert {OTHER, OLD, TOMBSTONE} + {NEW} == {OTHER, OLD, TOMBSTONE, NEW};
    assert S12().logs[4 := [NEW]] == S13().logs;
    WriteOne(S12(), S13(), THIRD_OPS, [NEW], [NEW]);
  }

  lemma SnapshotAndSwitch()
    ensures Next(S1(), S2(), SnapshotStep)
    ensures Next(S2(), S3(), SwitchStep) && Next(S5(), S6(), SwitchStep) && Next(S13(), S14(), SwitchStep)
  {
    assert S2().logs[2 := []] == S3().logs && S5().logs[4 := []] == S6().logs && S13().logs[8 := []] == S14().logs;
  }

  lemma Flushes()
    ensures Next(S3(), S4(), FlushStep(2, FIRST)) && Next(S6(), S7(), FlushStep(1, SECOND))
    ensures Next(S14(), S15(), FlushStep(1, THIRD))
  {
    hide Flushed, UserApart;
    FlushedTo2(FIRST);
    FlushedTo1([FIRST], SECOND);
    FlushedTo1([SELECTED, LEFT_BEHIND], THIRD);
    assert {3} + {5} == {3, 5} && {3, 5, 6, 7} + {9} == {3, 5, 6, 7, 9};
    assert CompactMemTable(S3(), S4(), 2, FIRST);
    assert CompactMemTable(S6(), S7(), 1, SECOND);
    assert CompactMemTable(S14(), S15(), 1, THIRD);
  }

  /** One file and the one below it that spans it. */
  lemma PickedPair(a: File, b: File, parents: seq<File>)
    requires b.smallest.user <= a.smallest.user <= a.largest.user <= b.largest.user
    requires forall f :: f in parents && !(f.largest.user < a.smallest.user || a.largest.user < f.smallest.user) <==> f == b
    ensures GoodInputs([a], parents, [a], [b])
  {
    assert a in [a];
    forall f | f in parents
      ensures f in [b] <==> OverlapsHull(f, [a])
    {
    }
    assert [a] + [b] == [a, b] && b in [a, b];
    forall u | InHull([a] + [b], u)
      ensures CoveredBy([a] + [b], u)
    {
    }
  }

  lemma Starts()
    ensures Next(S7(), S8(), StartStep(FirstCompaction())) && Next(S15(), S16(), StartStep(SecondCompaction()))
  {
    hide GoodInputs;
    PickedPair(SECOND, FIRST, [FIRST]);
    PickedPair(THIRD, SELECTED, [SELECTED, LEFT_BEHIND]);
    assert StartCompaction(S7(), S8(), FirstCompaction());
    assert StartCompaction(S15(), S16(), SecondCompaction());
  }

  lemma Opens()
    ensures Next(S8(), S9(), OpenStep) && Next(S9(), S10(), OpenStep) && Next(S16(), S17(), OpenStep)
  {
    assert {3, 5} + {6} == {3, 5, 6} && {3, 5, 6} + {7} == {3, 5, 6, 7} && {6} + {7} == {6, 7};
    assert {3, 5, 6, 7, 9} + {10} == {3, 5, 6, 7, 9, 10};
  }

  lemma EntriesOfTwo(a: File, b: File, p: Pending)
    requires p.in0 == [a] && p.in1 == [b]
    ensures InsEntries(p) == Elements(a.entries) + Elements(b.entries)
  {
    assert p.Ins() == [a, b];
    assert a in p.Ins() && b in p.Ins();
  }

  lemma ThreeSurvivors(es: seq<Entry>, smallest: nat, base: iset<UserKey>)
    requires |es| == 3
    ensures Survivors(es, 3, smallest, base)
            == (if Survives(es, 0, smallest, base) then [es[0]] else [])
               + (if Survives(es, 1, smallest, base) then [es[1]] else [])
               + (if Survives(es, 2, smallest, base) then [es[2]] else [])
  {
    hide Survives;
    assert Survivors(es, 0, smallest, base) == [];
    assert Survivors(es, 1, smallest, base) == if Survives(es, 0, smallest, base) then [es[0]] else [];
  }

  lemma FlattenTwo(a: seq<Entry>, b: seq<Entry>)
    ensures Flatten([a, b]) == a + b && Flatten([a]) == a
  {
    FlattenAppend([], a);
    FlattenAppend([a], b);
    assert [] + [a] == [a] && [a] + [b] == [a, b];
  }

  /** The first compaction drops nothing: the snapshot is older than the deletion. */
  lemma FirstSurvivors()
    ensures var es := [OTHER, TOMBSTONE, OLD];
            && Sorted(es) && Elements(es) == InsEntries(FirstCompaction())
            && Flatten([[OTHER, TOMBSTONE], [OLD]]) == Survivors(es, |es|, 2, BaseKeys(FirstCompaction().base, 1))
  {
    hide BaseKeys, Survives, Survivors, Flatten;
    Order();
    var es := [OTHER, TOMBSTONE, OLD];
    EntriesOfTwo(SECOND, FIRST, FirstCompaction());
    assert Elements(es) == {OTHER, TOMBSTONE, OLD};
    assert Elements(SECOND.entries) == {TOMBSTONE} && Elements(FIRST.entries) == {OTHER, OLD};
    AllSurvive(es, BaseKeys(FirstCompaction().base, 1));
    ThreeSurvivors(es, 2, BaseKeys(FirstCompaction().base, 1));
    FlattenTwo([OTHER, TOMBSTONE], [OLD]);
  }

  lemma AllSurvive(es: seq<Entry>, base: iset<UserKey>)
    requires es == [OTHER, TOMBSTONE, OLD]
    ensures Survives(es, 0, 2, base) && Survives(es, 1, 2, base) && Survives(es, 2, 2, base)
  {
    forall e | e in Elements(es)
      ensures !Hidden(Elements(es), e, 2)
    {
    }
  }

  /** The second drops the deletion, as no deeper level holds its key. */
  lemma SecondSurvivors()
    ensures var es := [NEW, OTHER, TOMBSTONE];
            && Sorted(es) && Elements(es) == InsEntries(SecondCompaction())
            && Flatten([[NEW]]) == Survivors(es, |es|, 4, BaseKeys(SecondCompaction().base, 1))
  {
    hide Flatten;
    Order();
    var es := [NEW, OTHER, TOMBSTONE];
    EntriesOfTwo(THIRD, SELECTED, SecondCompaction());
    assert Elements(es) == {NEW, OTHER, TOMBSTONE};
    assert Elements(THIRD.entries) == {NEW} && Elements(SELECTED.entries) == {OTHER, TOMBSTONE};
    assert 2.0 in BaseKeys(SecondCompaction().base, 1);
    ThreeSurvivors(es, 4, BaseKeys(SecondCompaction().base, 1));
    assert NEW in Elements(es);
    FlattenTwo([NEW], []);
  }

  const FIRST_FINISH := FinishStep([OTHER, TOMBSTONE, OLD], [[OTHER, TOMBSTONE], [OLD]], [SELECTED, LEFT_BEHIND])
  const SECOND_FINISH := FinishStep([NEW, OTHER, TOMBSTONE], [[NEW]], [LAST])

  lemma FirstFinish()
    ensures Next(S10(), S11(), FIRST_FINISH)
  {
    hide Survivors, BaseKeys, InsEntries, Flatten, Elements, Sorted, Replaced, SortedFiles;
    Order();
    FirstSurvivors();
    SortedPair(SELECTED, LEFT_BEHIND);
    assert [FIRST] + [] == [FIRST];
    ReplacedOnto2(SECOND, FIRST, [], [SELECTED, LEFT_BEHIND], [SELECTED, LEFT_BEHIND]);
    assert FinishCompaction(S10(), S11(), [OTHER, TOMBSTONE, OLD], [[OTHER, TOMBSTONE], [OLD]], [SELECTED, LEFT_BEHIND]);
  }

  lemma SecondFinish()
    ensures Next(S17(), S18(), SECOND_FINISH)
  {
    hide Survivors, BaseKeys, InsEntries, Flatten, Elements, Sorted, Replaced, SortedFiles;
    SecondSurvivors();
    SortedPair(LAST, LEFT_BEHIND);
    assert [SELECTED] + [LEFT_BEHIND] == [SELECTED, LEFT_BEHIND];
    ReplacedOnto2(THIRD, SELECTED, [LEFT_BEHIND], [LAST, LEFT_BEHIND], [LAST]);
    assert FinishCompaction(S17(), S18(), [NEW, OTHER, TOMBSTONE], [[NEW]], [LAST]);
  }

  lemma Release()
    ensures Next(S11(), S12(), ReleaseStep(0))
  {
    assert [2][..0] + [2][1..] == [];
  }

  // ---- The run

  ghost function StateAt(i: nat): Db {
    if i == 0 then S0() else if i == 1 then S1() else if i == 2 then S2() else if i == 3 then S3() else if i == 4 then S4()
    else if i == 5 then S5() else if i == 6 then S6() else if i == 7 then S7() else if i == 8 then S8() else if i == 9 then S9()
    else if i == 10 then S10() else if i == 11 then S11() else if i == 12 then S12() else if i == 13 then S13()
    else if i == 14 then S14() else if i == 15 then S15() else if i == 16 then S16() else if i == 17 then S17() else S18()
  }

  ghost function StepAt(i: nat): Step {
    if i == 0 then WriteStep(FIRST_OPS) else if i == 1 then SnapshotStep else if i == 2 then SwitchStep
    else if i == 3 then FlushStep(2, FIRST) else if i == 4 then WriteStep(SECOND_OPS) else if i == 5 then SwitchStep
    else if i == 6 then FlushStep(1, SECOND) else if i == 7 then StartStep(FirstCompaction()) else if i == 8 then OpenStep
    else if i == 9 then OpenStep else if i == 10 then FIRST_FINISH else if i == 11 then ReleaseStep(0)
    else if i == 12 then WriteStep(THIRD_OPS) else if i == 13 then SwitchStep else if i == 14 then FlushStep(1, THIRD)
    else if i == 15 then StartStep(SecondCompaction()) else if i == 16 then OpenStep else SECOND_FINISH
  }

  lemma StepsLink(i: nat)
    requires i < 18
    ensures Next(StateAt(i), StateAt(i + 1), StepAt(i))
  {
    hide Next, S0, S1, S2, S3, S4, S5, S6, S7, S8, S9, S10, S11, S12, S13, S14, S15, S16, S17, S18;
    FirstWrite();
    SnapshotAndSwitch();
    Flushes();
    SecondWrite();
    Starts();
    Opens();
    FirstFinish();
    Release();
    ThirdWrite();
    SecondFinish();
  }

  lemma FinalReads()
    ensures Read(S18().history, 2.0, 4) == NotFound && Read(All(S18()), 2.0, 4) == Found("old")
  {
    hide All, Read;
    FinalEntries();
    HistoryReads(S18().history);
    StoreReads(All(S18()));
  }

  lemma HistoryReads(h: set<Entry>)
    requires h == {OTHER, OLD, TOMBSTONE, NEW}
    ensures Read(h, 2.0, 4) == NotFound
  {
    hide Read;
    assert IsNewest(h, 2.0, 4, TOMBSTONE);
    ReadNewest(h, 2.0, 4, TOMBSTONE);
  }

  lemma StoreReads(es: set<Entry>)
    requires es == {NEW, OLD}
    ensures Read(es, 2.0, 4) == Found("old")
  {
    hide Read;
    assert IsNewest(es, 2.0, 4, OLD);
    ReadNewest(es, 2.0, 4, OLD);
  }

  lemma FinalEntries()
    ensures All(S18()) == {NEW, OLD}
  {
    var v := S18().version;
    FileEntryInVersion(v, 2, LAST, NEW);
    FileEntryInVersion(v, 2, LEFT_BEHIND, OLD);
    forall e | e in VersionEntries(v)
      ensures e in {NEW, OLD}
    {
      var l, f := VersionEntryFile(v, e);
      assert l == 2;
    }
  }

  /** Main result: a run of the store from its beginning after which the newest snapshot reads the old value of key 2 although the last thing written of that key is a deletion. */
  lemma DeletedKeyComesBack() returns (states: seq<Db>, steps: seq<Step>)
    ensures IsRun(states, steps, 1)
    ensures var d := states[|steps|];
            && Usable(d, 4) && Read(d.history, 2.0, 4) == NotFound && Read(All(d), 2.0, 4) == Found("old")
  {
    hide Next, S18, All, Read;
    states := seq(19, i requires 0 <= i < 19 => StateAt(i));
    steps := seq(18, i requires 0 <= i < 18 => StepAt(i));
    forall i | 0 <= i < |steps|
      ensures LinkedAt(states, steps, i)
    {
      StepsLink(i);
    }
    StartsEmpty();
    FinalReads();
    assert states[18] == S18();
    FinalSequence();
  }

  lemma StartsEmpty()
    ensures Init(S0(), 1)
  {
  }

  lemma FinalSequence()
    ensures S18().lastSequence == 4
  {
  }
}

/** What the methods of DBImpl compute, and what their assignments amount to as steps of the store. */
module DbCalls {
  import opened InternalKeys
  import opened Mvcc
  import opened Version
  import opened VersionBuilder
  import opened Inputs
  import opened Boundary
  import opened Picking
  import opened SetupInputs
  import opened DropRules
  import opened CompactionLoop
  import opened Outputs
  import opened Install
  import opened FlushPlacement
  import opened InFlight
  import opened Lookup
  import opened CompactionReads
  import opened Merging
  import opened DbState
  import opened DbSteps
  import opened DbRecovery
  import opened DbRuns
  import opened ManifestRuns
  import opened DbEdits
  import opened RecoverLogs

  /** Level-0 file counts at which writers are slowed down and stopped. */
  const L0_SLOWDOWN_WRITES_TRIGGER := 8
  const L0_STOP_WRITES_TRIGGER := 12

  /** How one round of the loop of MakeRoomForWrite ends. */
  datatype Room = Failed | Ready | Delay | WaitForFlush | WaitForLevel0 | Switched

  /** The metadata BuildTable records of the entries it wrote. */
  function TableOf(number: nat, es: seq<Entry>, size: nat): (f: File)
    requires es != []
    ensures IsTableOf(f, es) && f.number == number
  {
    File(number, size, es[0].k, es[|es| - 1].k, es)
  }

  lemma SortedTableIsGood(f: File, es: seq<Entry>)
    requires IsTableOf(f, es) && Sorted(es)
    ensures GoodFile(f)
  {
  }

  lemma VersionFacts(d: Db)
    requires Inv(d)
    ensures GoodVersion(d.version) && LevelsSorted(d.version) && SequencesBounded(d.version)
    ensures UniqueSeqs(VersionEntries(d.version)) && UniqueNumbers(d.version)
    ensures d.nextFile !in VersionNumbers(d.version)
    ensures Sorted(d.mem) && Sorted(Imm(d))
  {
    hide GoodFiles, SortedFiles, Disjoint, LevelsNewer, NewestByNumber, PendingOk;
    SubsetUniqueSeqs(VersionEntries(d.version), All(d));
    forall l, f, e | 0 <= l < |d.version| && f in d.version[l] && e in f.entries
      ensures e.k.sn <= MAX_SEQUENCE
    {
      FileEntryInVersion(d.version, l, f, e);
    }
  }

  lemma VersionLength(v: Levels)
    requires LevelsSorted(v)
    ensures |v| == NUM_LEVELS
  {
  }

  lemma LogExists(d: Db)
    requires Inv(d)
    ensures d.logNumber in d.logs
  {
  }

  /** What the running compaction keeps besides what the state machine says of it. */
  ghost predicate Runnable(p: Pending) {
    GoodVersion(p.base) && p.level + 1 < NUM_LEVELS && InputsOrdered(p)
  }

  /** Some steps in a row. */
  ghost predicate IsPath(states: seq<Db>, steps: seq<Step>, a: Db, b: Db) {
    && |states| == |steps| + 1 && states[0] == a && states[|steps|] == b
    && forall i | 0 <= i < |steps| :: LinkedAt(states, steps, i)
  }

  lemma PathExtends(states: seq<Db>, steps: seq<Step>, a: Db, b: Db, c: Db, step: Step)
    requires IsPath(states, steps, a, b) && Next(b, c, step)
    ensures IsPath(states + [c], steps + [step], a, c)
  {
    hide Next;
    var ss, ts := states + [c], steps + [step];
    forall i | 0 <= i < |ts|
      ensures LinkedAt(ss, ts, i)
    {
      if i < |steps| {
        assert LinkedAt(states, steps, i);
      }
    }
  }

  /** The files DeleteObsoleteFiles finds live in one version (AddLiveFiles). */
  method AddLiveFiles(v: Levels, live: set<nat>) returns (r: set<nat>)
    ensures r == live + VersionNumbers(v)
  {
    r := live;
    for l := 0 to |v|
      invariant r == live + VersionNumbers(v[..l])
    {
      ghost var before := r;
      var numbers := FileNumbers(v[l]);
      r := r + numbers;
      OneMoreLevel(v, l);
    }
    assert v[..|v|] == v;
  }

  lemma OneMoreLevel(v: Levels, l: nat)
    requires l < |v|
    ensures VersionNumbers(v[..l + 1]) == VersionNumbers(v[..l]) + Numbers(v[l])
  {
    var w := v[..l + 1];
    forall n | n in VersionNumbers(w)
      ensures n in VersionNumbers(v[..l]) + Numbers(v[l])
    {
      var m: nat, f: File :| 0 <= m < |w| && f in w[m] && f.number == n;
      assert m < l ==> f in v[..l][m];
    }
    forall n | n in VersionNumbers(v[..l])
      ensures n in VersionNumbers(w)
    {
      var m: nat, f: File :| 0 <= m < l && f in v[..l][m] && f.number == n;
      assert f in w[m];
    }
    forall n | n in Numbers(v[l])
      ensures n in VersionNumbers(w)
    {
      var f :| f in v[l] && f.number == n;
      assert f in w[l];
    }
  }

  /** The files of every version a reader holds (the list of versions that AddLiveFiles walks). */
  method AddPinnedFiles(rs: seq<Reader>, live: set<nat>) returns (r: set<nat>)
    ensures r == live + PinnedNumbers(rs)
  {
    r := live;
    for i := 0 to |rs|
      invariant r == live + PinnedNumbers(rs[..i])
    {
      r := AddLiveFiles(rs[i].version, r);
      OneMoreReader(rs, i);
    }
    assert rs[..|rs|] == rs;
  }

  lemma OneMoreReader(rs: seq<Reader>, i: nat)
    requires i < |rs|
    ensures PinnedNumbers(rs[..i + 1]) == PinnedNumbers(rs[..i]) + VersionNumbers(rs[i].version)
  {
    hide VersionNumbers;
    assert rs[..i + 1] == rs[..i] + [rs[i]];
  }

  lemma PairOf(v: Levels, level: nat)
    requires GoodVersion(v) && level + 1 < NUM_LEVELS && UniqueSeqs(VersionEntries(v))
    ensures GoodPair(level, v[level], v[level + 1])
    ensures GoodFiles(Grandparents(v, level)) && Disjoint(Grandparents(v, level))
  {
    hide GoodFiles, Disjoint, LevelsNewer, NewestByNumber, VersionEntries;
    NoFiles();
    LevelWithin(v, level);
    SubsetUniqueSeqs(FileEntries(v[level]), VersionEntries(v));
  }

  lemma NoFiles()
    ensures GoodFiles([]) && Disjoint([])
  {
  }

  lemma LevelWithin(v: Levels, l: nat)
    requires l < |v|
    ensures FileEntries(v[l]) <= VersionEntries(v)
  {
    hide FileEntries;
  }

  lemma PendingFacts(d: Db)
    requires Inv(d) && d.pending.Some?
    ensures PendingOk(d.version, d.pending.value) && d.pending.value.smallest < MAX_SEQUENCE
    ensures IsSubset(d.pending.value.in0, d.version[d.pending.value.level])
    ensures IsSubset(d.pending.value.in1, d.version[d.pending.value.level + 1])
  {
    hide Readable, LeftNewer, Unbroken, ParentsApart, DeeperApart;
  }

  lemma InputUnique(d: Db)
    requires Inv(d) && d.pending.Some?
    ensures UniqueSeqs(InsEntries(d.pending.value))
  {
    hide InsEntries, VersionEntries, PendingOk, GoodVersion;
    VersionFacts(d);
    PendingFacts(d);
    InsEntriesInVersion(d.version, d.pending.value);
    SubsetUniqueSeqs(InsEntries(d.pending.value), VersionEntries(d.version));
  }

  lemma OutputNumbersAreNew(d: Db, outs: seq<File>, l: nat)
    requires Inv(d) && l < |d.version| && forall f | f in outs :: f.number in d.pendingOutputs
    ensures Numbers(outs) !! Numbers(d.version[l])
  {
    hide Readable, PendingOk, UniqueNumbers;
    LevelNumbers(d.version, l);
  }

  function Grandparents(v: Levels, level: nat): seq<File> {
    if level + 2 < |v| then v[level + 2] else []
  }

  lemma SeededIsOrdered(level: nat, v: Levels, in0: seq<File>, in1: seq<File>)
    requires level < |v| && Seeded(level, v[level], in0) && Disjoint(in1)
    ensures InputsOrdered(Pending(level, in0, in1, v, 0))
  {
  }

  lemma SmallestDoesNotOrder(level: nat, in0: seq<File>, in1: seq<File>, v: Levels, smallest: nat)
    requires InputsOrdered(Pending(level, in0, in1, v, 0))
    ensures InputsOrdered(Pending(level, in0, in1, v, smallest))
  {
  }

  lemma MovedByRecord(v: Levels, w: Levels, level: nat, f: File, e: Record)
    requires LevelsSorted(v) && UniqueNumbers(v) && level + 1 < NUM_LEVELS
    requires GoodInputs(v[level], v[level + 1], [f], [])
    requires e == NoChange()[level := LevelEdit({f.number}, [])][level + 1 := LevelEdit({}, [f])]
    requires IsInstalled(v, w, e)
    ensures Replaced(v, w, level, [f], [], [f])
  {
    hide IsInstalled, LeftNewer, Unbroken, OverlapsHull, UniqueNumbers, SortedFiles;
    assert f in [f];
    NotBelow(v, level, f);
    OneNumber(f);
    assert Numbers([]) == {};
    InstalledReplace(v, w, level, [f], [], [f]);
  }

  // ---- What each method's assignments amount to

  /** The invariants of the store and of its manifest. */
  ghost predicate Ok(d: Db, m: seq<Record>) {
    Inv(d) && ManifestInv(m, d)
  }

  /** One step of the store and of its manifest. */
  ghost predicate Took(a: Db, m: seq<Record>, b: Db, m': seq<Record>, step: Step) {
    Next(a, b, step) && NextManifest(a, step, m, m')
  }

  lemma TookStep(a: Db, m: seq<Record>, b: Db, m': seq<Record>, step: Step)
    requires Ok(a, m) && Next(a, b, step) && NextManifest(a, step, m, m')
    ensures Ok(b, m') && Took(a, m, b, m', step)
  {
    hide Next, NextManifest, Inv, ManifestInv;
    NextKeepsInv(a, b, step);
    StepKeepsManifest(a, b, step, m, m');
  }

  lemma TookNext(a: Db, m: seq<Record>, b: Db, m': seq<Record>, step: Step)
    requires Took(a, m, b, m', step)
    ensures Next(a, b, step)
  {
    hide Next, NextManifest;
  }

  lemma FinishIsRecord(a: Db, step: Step, e: Record)
    requires a.pending.Some? && a.pending.value.level + 1 < NUM_LEVELS && step.FinishStep?
    requires var p := a.pending.value;
             e == NoChange()[p.level := LevelEdit(Numbers(p.in0), [])][p.level + 1 := LevelEdit(Numbers(p.in1), step.outs)]
    ensures IsRecord(a, step, e) && LogsRecord(step)
  {
    hide Numbers;
  }

  /** Steps that log no record. */
  lemma TookQuietStep(a: Db, b: Db, m: seq<Record>, step: Step)
    requires Ok(a, m) && Next(a, b, step) && !LogsRecord(step) && !step.CrashStep?
    ensures Ok(b, m) && Took(a, m, b, m, step)
  {
    hide Next, Ok;
    TookStep(a, m, b, m, step);
  }

  /** Steps that log the record `e`. */
  lemma TookLoggedStep(a: Db, b: Db, m: seq<Record>, e: Record, step: Step)
    requires Ok(a, m) && Next(a, b, step) && LogsRecord(step) && IsRecord(a, step, e)
    ensures Ok(b, m + [e]) && Took(a, m, b, m + [e], step)
  {
    hide Next, Ok, IsRecord;
    TookStep(a, m, b, m + [e], step);
  }

  lemma WriteIsNext(a: Db, b: Db, ops: seq<Op>, es: seq<Entry>)
    requires a.logNumber in a.logs && a.lastSequence + |ops| < MAX_SEQUENCE && es == Stamp(ops, a.lastSequence + 1)
    requires b == a.(history := a.history + Elements(es), mem := MemAddAll(a.mem, es), lastSequence := a.lastSequence + |ops|,
                     readers := GrowReaders(a.readers, a.logNumber, MemAddAll(a.mem, es)),
                     logs := a.logs[a.logNumber := a.logs[a.logNumber] + es])
    ensures Next(a, b, WriteStep(ops))
  {
    hide *;
    WrittenShape(a, es, a.lastSequence + |ops|);
    BatchIsStamped(a, ops);
    WriteMeaning(a, b, ops);
    NextIsWrite(a, b, ops);
  }

  lemma NextIsWrite(a: Db, b: Db, ops: seq<Op>)
    requires Write(a, b, ops)
    ensures Next(a, b, WriteStep(ops))
  {
    hide Write;
  }

  lemma SwitchIsNext(a: Db, b: Db)
    requires a.imm.None?
    requires b == a.(imm := Some(a.mem), immLog := a.logNumber, mem := [],
                     logNumber := a.nextFile, logs := a.logs[a.nextFile := []], nextFile := a.nextFile + 1)
    ensures Next(a, b, SwitchStep)
  {
  }

  lemma OkParts(d: Db, m: seq<Record>)
    requires Ok(d, m)
    ensures Inv(d) && ManifestInv(m, d)
  {
  }

  lemma ManifestIsWellFormed(d: Db, m: seq<Record>)
    requires ManifestInv(m, d)
    ensures WellFormed(m)
  {
  }

  lemma FlushIsNext(a: Db, b: Db, p: nat, n: File)
    requires CompactMemTable(a, b, p, n)
    ensures Next(a, b, FlushStep(p, n))
  {
    hide CompactMemTable;
  }

  function NoFile(): File {
    File(0, 0, InternalKey(0.0, 0, Put), InternalKey(0.0, 0, Put), [])
  }

  lemma EmptyFlushIsNext(a: Db, b: Db, n: File)
    requires a.imm == Some([]) && |a.version| > 0
    requires b == a.(imm := None, nextFile := a.nextFile + 1, manifestLog := a.logNumber, manifestSequence := a.lastSequence,
                     manifestNext := a.nextFile + 1)
    ensures Next(a, b, FlushStep(0, n))
  {
    FlushIsNext(a, b, 0, n);
  }

  lemma TableFlushIsNext(a: Db, b: Db, p: nat, n: File)
    requires a.imm.Some? && a.imm.value != [] && p < |a.version|
    requires n.number == a.nextFile && IsTableOf(n, a.imm.value) && Flushed(a.version, b.version, p, n)
    requires p > 0 ==> forall l, f | 0 <= l <= p && f in a.version[l] :: UserApart(f, n)
    requires b == a.(imm := None, version := b.version, nextFile := a.nextFile + 1, manifestLog := a.logNumber,
                     manifestSequence := a.lastSequence, manifestNext := a.nextFile + 1, tables := a.tables + {n.number})
    ensures Next(a, b, FlushStep(p, n))
  {
    hide IsTableOf, Flushed, UserApart;
    FlushIsNext(a, b, p, n);
  }

  lemma FlushIsRecord(a: Db, p: nat, n: File, e: Record)
    requires a.imm.Some? && p < NUM_LEVELS
    requires e == if a.imm.value == [] then NoChange() else NoChange()[p := LevelEdit({}, [n])]
    ensures IsRecord(a, FlushStep(p, n), e) && LogsRecord(FlushStep(p, n))
  {
  }

  lemma MoveIsNext(a: Db, b: Db, level: nat, f: File)
    requires a.pending.None? && level + 1 < |a.version|
    requires GoodInputs(a.version[level], a.version[level + 1], [f], []) && Replaced(a.version, b.version, level, [f], [], [f])
    requires b == a.(version := b.version, manifestSequence := a.lastSequence, manifestNext := a.nextFile)
    ensures Next(a, b, MoveStep(level, f))
  {
    hide GoodInputs, Replaced;
    assert TrivialMove(a, b, level, f);
  }

  lemma MoveIsRecord(level: nat, f: File, e: Record)
    requires level + 1 < NUM_LEVELS
    requires e == NoChange()[level := LevelEdit({f.number}, [])][level + 1 := LevelEdit({}, [f])]
    ensures LogsRecord(MoveStep(level, f)) && forall a :: IsRecord(a, MoveStep(level, f), e)
  {
  }

  lemma StartIsNext(a: Db, b: Db, p: Pending)
    requires a.pending.None? && p.base == a.version && p.level + 1 < |a.version| && p.smallest == Floor(a)
    requires GoodInputs(a.version[p.level], a.version[p.level + 1], p.in0, p.in1)
    requires b == a.(pending := Some(p))
    ensures Next(a, b, StartStep(p))
  {
    hide GoodInputs;
    assert StartCompaction(a, b, p);
  }

  lemma PickedIsRunnable(p: Pending)
    requires GoodVersion(p.base) && p.level + 1 < NUM_LEVELS && InputsOrdered(p)
    ensures Runnable(p)
  {
    hide GoodVersion, InputsOrdered;
  }

  lemma SnapshotIsNext(a: Db, b: Db)
    requires TakeSnapshot(a, b)
    ensures Next(a, b, SnapshotStep)
  {
    hide TakeSnapshot;
  }

  lemma ReleaseIsNext(a: Db, b: Db, i: nat)
    requires ReleaseSnapshot(a, b, i)
    ensures Next(a, b, ReleaseStep(i))
  {
    hide ReleaseSnapshot;
  }

  lemma PinIsNext(a: Db, b: Db, s: nat)
    requires PinView(a, b, s)
    ensures Next(a, b, PinStep(s))
  {
    hide PinView;
  }

  lemma UnpinIsNext(a: Db, b: Db, i: nat)
    requires UnpinView(a, b, i)
    ensures Next(a, b, UnpinStep(i))
  {
    hide UnpinView;
  }

  lemma OpenIsNext(a: Db, b: Db)
    requires OpenOutput(a, b)
    ensures Next(a, b, OpenStep)
  {
    hide OpenOutput;
  }

  lemma DeleteIsNext(a: Db, b: Db)
    requires DeleteObsolete(a, b)
    ensures Next(a, b, DeleteStep)
  {
    hide DeleteObsolete;
  }

  lemma FinishIsNext(a: Db, b: Db, input: seq<Entry>, outputs: seq<seq<Entry>>, outs: seq<File>)
    requires a.pending.Some? && IsCompacted(a.pending.value, input, outputs) && AreTables(outs, outputs)
    requires forall f | f in outs :: f.number in a.pendingOutputs
    requires forall i, j | 0 <= i < j < |outs| :: outs[i].number != outs[j].number
    requires Replaced(a.version, b.version, a.pending.value.level, a.pending.value.in0, a.pending.value.in1, outs)
    requires b == a.(version := b.version, pending := None, pendingOutputs := {},
                     manifestSequence := a.lastSequence, manifestNext := a.nextFile)
    ensures Next(a, b, FinishStep(input, outputs, outs))
  {
    hide Survivors, BaseKeys, InsEntries, Sorted, AreTables, Replaced, Flatten, Elements;
    assert FinishCompaction(a, b, input, outputs, outs);
  }

  lemma FinishClears(a: Db, b: Db, step: Step)
    requires Next(a, b, step) && step.FinishStep?
    ensures b.pending.None?
  {
    hide Survivors, BaseKeys, InsEntries, Replaced, Sorted, AreTables;
  }

  lemma CrashIsNext(a: Db, b: Db, extra: seq<Op>, replay: seq<nat>, chunks: seq<seq<Entry>>, ts: seq<File>,
                    low: nat, next: nat, batch: seq<Entry>)
    requires Inv(a) && a.logNumber in a.logs && a.lastSequence + |extra| < MAX_SEQUENCE
    requires batch == Stamp(extra, a.lastSequence + 1)
    requires TablesWritten(chunks, ts, low, next) && a.manifestNext <= low && RecoversVersion(a, b.version, chunks, ts)
    requires Increasing(replay) && forall n :: n in replay <==> n in CrashLogs(a, extra) && n >= a.manifestLog
    requires AllIn(replay, CrashLogs(a, extra)) && forall n | n in replay :: n < next
    requires Flatten(chunks) == LogContents(CrashLogs(a, extra), replay)
    requires IsMaxSequence(b.lastSequence, a.manifestSequence, Flatten(chunks))
    requires b == Db(a.history + Elements(batch), [], None, b.version, b.lastSequence, [], [], None, {}, next + 1,
                     a.logs[a.logNumber := a.logs[a.logNumber] + batch][next := []], next, 0, next, b.lastSequence,
                     next + 1, a.tables + Numbers(ts))
    ensures Next(a, b, CrashStep(extra, replay, chunks, ts))
  {
    hide *;
    CrashLogsAre(a, extra, batch);
    ReplayIsOrdered(a, extra, replay, chunks);
    AllLogsUsed(a, replay, next);
    WrittenBelow(chunks, ts, low, next);
    IsCrash(a, b, extra, replay, chunks, ts, batch);
    NextIsCrash(a, b, extra, replay, chunks, ts);
  }

  lemma NextIsCrash(a: Db, b: Db, extra: seq<Op>, replay: seq<nat>, chunks: seq<seq<Entry>>, ts: seq<File>)
    requires CrashAndRecover(a, b, extra, replay, chunks, ts)
    ensures Next(a, b, CrashStep(extra, replay, chunks, ts))
  {
    hide CrashAndRecover;
  }

  lemma AllErased(rest: set<nat>, pending: set<nat>, numbers: seq<nat>)
    requires forall n :: n in rest <==> n in pending && n !in numbers
    requires forall n :: n in pending <==> n in numbers
    ensures rest == {}
  {
  }

  lemma RunnableLevel(p: Pending)
    requires Runnable(p)
    ensures p.level + 1 < NUM_LEVELS
  {
  }

  lemma OutputsArePending(a: Db, outs: seq<File>, numbers: seq<nat>)
    requires |outs| == |numbers| && AllDifferent(numbers)
    requires forall i | 0 <= i < |outs| :: outs[i].number == numbers[i]
    requires forall n :: n in a.pendingOutputs <==> n in numbers
    ensures forall f | f in outs :: f.number in a.pendingOutputs
    ensures forall i, j | 0 <= i < j < |outs| :: outs[i].number != outs[j].number
  {
  }

  /** The loop's result for the running compaction `p`: what it read and what it wrote. */
  ghost predicate IsCompacted(p: Pending, input: seq<Entry>, outputs: seq<seq<Entry>>) {
    && Sorted(input) && Elements(input) == InsEntries(p)
    && Flatten(outputs) == Survivors(input, |input|, p.smallest, BaseKeys(p.base, p.level))
    && forall o | o in outputs :: o != []
  }

  lemma OutputsNotEmpty(p: Pending, input: seq<Entry>, outputs: seq<seq<Entry>>)
    requires IsCompacted(p, input, outputs)
    ensures forall o | o in outputs :: o != []
  {
  }

  ghost predicate AllDifferent(ns: seq<nat>) {
    forall i, j | 0 <= i < j < |ns| :: ns[i] != ns[j]
  }

  /** The table files that DeleteObsoleteFiles leaves. */
  method KeepLiveTables(tables: set<nat>, live: set<nat>) returns (kept: set<nat>)
    ensures kept == tables * live
  {
    kept := tables;
    var found := tables;
    while found != {}
      invariant found <= tables && forall n :: n in kept <==> n in tables && (n in live || n in found)
      decreases |found|
    {
      var number :| number in found;
      found := found - {number};
      if number !in live {
        kept := kept - {number};
      }
    }
  }

  /** The log files that DeleteObsoleteFiles leaves. */
  method KeepLogsFrom(logs: map<nat, seq<Entry>>, min: nat) returns (kept: map<nat, seq<Entry>>)
    ensures kept == map n | n in logs && n >= min :: logs[n]
  {
    kept := logs;
    var found := logs.Keys;
    while found != {}
      invariant found <= logs.Keys && forall n :: n in kept <==> n in logs && (n >= min || n in found)
      invariant forall n | n in kept :: kept[n] == logs[n]
      decreases |found|
    {
      var number :| number in found;
      found := found - {number};
      if number < min {
        kept := map n | n in kept && n != number :: kept[n];
      }
    }
  }

  /** CleanupCompaction: the outputs of the compaction are pending no more. */
  method EraseAll(pending: set<nat>, numbers: seq<nat>) returns (rest: set<nat>)
    ensures forall n :: n in rest <==> n in pending && n !in numbers
  {
    rest := pending;
    for i := 0 to |numbers|
      invariant forall n :: n in rest <==> n in pending && n !in numbers[..i]
    {
      rest := rest - {numbers[i]};
    }
  }

  /** The tables BuildTable's counterpart FinishCompactionOutputFile leaves. */
  method FinishedTables(outputs: seq<seq<Entry>>, numbers: seq<nat>, sizes: seq<nat>) returns (outs: seq<File>)
    requires |numbers| == |outputs| == |sizes| && forall o | o in outputs :: o != []
    ensures AreTables(outs, outputs)
    ensures forall i | 0 <= i < |outs| :: outs[i].number == numbers[i]
  {
    outs := [];
    for i := 0 to |outputs|
      invariant |outs| == i
      invariant forall j | 0 <= j < i :: IsTableOf(outs[j], outputs[j]) && outs[j].number == numbers[j]
    {
      assert outputs[i] in outputs;
      outs := outs + [TableOf(numbers[i], outputs[i], sizes[i])];
    }
  }

  // ---- Recovery

  lemma CrashLogsAre(a: Db, extra: seq<Op>, batch: seq<Entry>)
    requires a.logNumber in a.logs && batch == Stamp(extra, a.lastSequence + 1)
    ensures CrashLogs(a, extra) == a.logs[a.logNumber := a.logs[a.logNumber] + batch]
    ensures CrashLogs(a, extra).Keys == a.logs.Keys
  {
    hide Stamp;
  }

  lemma RecoveryInstalls(a: Db, w: Levels, chunks: seq<seq<Entry>>, ts: seq<File>, low: nat, next: nat)
    requires Inv(a) && TablesWritten(chunks, ts, low, next) && a.manifestNext <= low
    requires IsInstalled(a.version, w, NoChange()[0 := LevelEdit({}, ts)])
    ensures RecoversVersion(a, w, chunks, ts)
  {
    hide Readable, PendingOk, IsInstalled, UniqueNumbers, FlushedAll, GoodFile, LevelsSorted;
    VersionFacts(a);
    assert forall n | n in Numbers(ts) :: a.manifestNext <= n;
    InstalledRecovery(a.version, w, ts);
  }

  lemma ReplayIsOrdered(a: Db, extra: seq<Op>, replay: seq<nat>, chunks: seq<seq<Entry>>)
    requires a.logNumber in a.logs && Increasing(replay)
    requires forall n :: n in replay <==> n in CrashLogs(a, extra).Keys && n >= a.manifestLog
    requires CrashLogs(a, extra).Keys == a.logs.Keys
    requires AllIn(replay, CrashLogs(a, extra)) && Flatten(chunks) == LogContents(CrashLogs(a, extra), replay)
    ensures Replays(a, extra, replay, chunks)
  {
    hide Flatten, LogContents, CrashLogs;
  }

  lemma AllLogsUsed(a: Db, replay: seq<nat>, next: nat)
    requires Inv(a) && forall n | n in replay :: n < next
    requires forall n :: n in replay <==> n in a.logs && n >= a.manifestLog
    ensures forall n | n in a.logs :: n < next
  {
    hide Readable, PendingOk, UniqueNumbers, Ascending;
    assert a.logNumber in replay;
  }

  lemma IsCrash(a: Db, b: Db, extra: seq<Op>, replay: seq<nat>, chunks: seq<seq<Entry>>, ts: seq<File>, batch: seq<Entry>)
    requires a.logNumber in a.logs && a.lastSequence + |extra| < MAX_SEQUENCE
    requires batch == Stamp(extra, a.lastSequence + 1)
    requires Replays(a, extra, replay, chunks) && RecoversVersion(a, b.version, chunks, ts)
    requires (forall f | f in ts :: f.number < b.nextFile) && (forall n | n in a.logs :: n < b.logNumber < b.nextFile)
    requires a.manifestNext <= b.nextFile && IsMaxSequence(b.lastSequence, a.manifestSequence, Flatten(chunks))
    requires b == Db(a.history + Elements(batch), [], None, b.version, b.lastSequence, [], [], None, {}, b.nextFile,
                     CrashLogs(a, extra)[b.logNumber := []], b.logNumber, 0, b.logNumber, b.lastSequence,
                     b.nextFile, a.tables + Numbers(ts))
    ensures CrashAndRecover(a, b, extra, replay, chunks, ts)
  {
    hide Stamp, Flatten, Replays, RecoversVersion, IsMaxSequence, CrashLogs, Numbers;
  }
}

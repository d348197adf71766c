/** What reads see: every step of the store keeps it, but for the end of a compaction that meets the hazard. */
module DbReads {
  import opened InternalKeys
  import opened Mvcc
  import opened Version
  import opened Picking
  import opened DropRules
  import opened CompactionLoop
  import opened Outputs
  import opened Install
  import opened Lookup
  import opened InFlight
  import opened CompactionReads
  import opened DbState
  import opened DbSteps
  import opened DbRecovery

  /** The running compaction would uncover a deleted value for the oldest snapshot. */
  ghost predicate MeetsHazard(d: Db) {
    && d.pending.Some? && d.pending.value.level + 1 < |d.version|
    && exists g, f, t :: Hazard(All(d), d.version, d.pending.value, Floor(d), g, f, t)
  }

  // ---- Steps that change nothing a read looks at

  lemma SameStoreSees(a: Db, b: Db)
    requires SeesHistory(a) && All(b) == All(a) && b.history == a.history && Floor(a) <= Floor(b)
    requires forall r | r in b.readers :: r in a.readers
    ensures SeesHistory(b)
  {
    hide All, Floor, ReaderEntries;
  }

  lemma SwitchSees(a: Db, b: Db)
    requires Inv(a) && SeesHistory(a) && SwitchMemtable(a, b)
    ensures SeesHistory(b)
  {
    hide SeesHistory, Inv, All;
    InvParts(a);
    SwitchReadable(a, b);
    SameStoreSees(a, b);
  }

  lemma FlushSees(a: Db, b: Db, p: nat, n: File)
    requires Inv(a) && SeesHistory(a) && CompactMemTable(a, b, p, n)
    ensures SeesHistory(b)
  {
    hide SeesHistory, Inv, VersionEntries, Flushed, VersionNumbers;
    if a.imm.value == [] {
      assert All(b) == All(a);
    } else {
      FlushLsm(a, b, p, n);
    }
    SameStoreSees(a, b);
  }

  lemma MoveSees(a: Db, b: Db, level: nat, f: File)
    requires Inv(a) && SeesHistory(a) && TrivialMove(a, b, level, f)
    ensures SeesHistory(b)
  {
    hide SeesHistory, Inv, VersionEntries, GoodInputs, Replaced;
    MovedEntries(a, b, level, f);
    assert All(b) == All(a);
    SameStoreSees(a, b);
  }

  lemma QuietSees(a: Db, b: Db, step: Step)
    requires SeesHistory(a) && Next(a, b, step)
    requires step.StartStep? || step.OpenStep? || step.SnapshotStep? || step.DeleteStep?
    ensures SeesHistory(b)
  {
    hide SeesHistory, VersionEntries, GoodInputs, LiveTables;
    assert All(b) == All(a);
    SameStoreSees(a, b);
  }

  lemma ReleaseSees(a: Db, b: Db, i: nat)
    requires Inv(a) && SeesHistory(a) && ReleaseSnapshot(a, b, i)
    ensures SeesHistory(b)
  {
    hide SeesHistory, VersionEntries, Inv;
    InvParts(a);
    ReleaseFloor(a, b, i);
    assert All(b) == All(a);
    SameStoreSees(a, b);
  }

  // ---- Readers come and go

  lemma UsableIsServed(d: Db, s: nat)
    requires SnapshotInv(d) && Usable(d, s)
    ensures Floor(d) <= s
  {
  }

  lemma PinSees(a: Db, b: Db, s: nat)
    requires Inv(a) && SeesHistory(a) && PinView(a, b, s)
    ensures SeesHistory(b)
  {
    hide VersionEntries, Inv, Usable, ReaderSeesHistory, StoreSeesHistory;
    InvParts(a);
    UsableIsServed(a, s);
    var r := Reader(a.logNumber, a.mem, Imm(a), a.version, s);
    PinnedSees(a, r);
    SameStore(a, b);
    forall q | q in b.readers
      ensures ReaderSeesHistory(b, q)
    {
      if q != r {
        assert q in a.readers;
      }
      SameHistoryReader(a, b, q);
    }
  }

  lemma PinnedSees(a: Db, r: Reader)
    requires StoreSeesHistory(a) && ReaderEntries(r) == All(a) && Floor(a) <= r.snapshot
    ensures ReaderSeesHistory(a, r)
  {
    hide All, ReaderEntries, Floor;
  }

  lemma SameStore(a: Db, b: Db)
    requires StoreSeesHistory(a) && b == a.(readers := b.readers)
    ensures StoreSeesHistory(b)
  {
    hide AllEntries;
  }

  lemma SameHistoryReader(a: Db, b: Db, r: Reader)
    requires ReaderSeesHistory(a, r) && b.history == a.history
    ensures ReaderSeesHistory(b, r)
  {
    hide ReaderEntries;
  }

  lemma UnpinSees(a: Db, b: Db, i: nat)
    requires SeesHistory(a) && UnpinView(a, b, i)
    ensures SeesHistory(b)
  {
    hide SeesHistory, VersionEntries;
    assert All(b) == All(a);
    SameStoreSees(a, b);
  }

  // ---- Writes

  lemma NewEntriesUnseen(h: set<Entry>, n: set<Entry>, u: UserKey, s: nat)
    requires UniqueSeqs(h + n) && forall e | e in n :: e.k.sn > s
    ensures Read(h + n, u, s) == Read(h, u, s)
  {
    SubsetUniqueSeqs(h, h + n);
    SameCandidatesSameRead(h + n, h, u, s, s);
  }

  lemma GrownStoreSees(a: Db, b: Db, n: set<Entry>)
    requires HistoryInv(a) && StoreSeesHistory(a)
    requires b.history == a.history + n && All(b) == All(a) + n && UniqueSeqs(b.history)
    requires forall e | e in n :: e.k.sn > a.lastSequence
    requires Floor(a) <= Floor(b)
    ensures StoreSeesHistory(b)
  {
    hide All, UniqueSeqs, Floor;
    NewEntriesKeepEquivalence(a.history, All(a), n, Floor(a), a.lastSequence);
  }

  lemma GrownReaderSees(a: Db, b: Db, n: set<Entry>, q: Reader, r: Reader)
    requires ReaderOk(a, q) && ReaderSeesHistory(a, q)
    requires b.history == a.history + n && UniqueSeqs(b.history) && r.snapshot == q.snapshot
    requires ReaderEntries(r) == ReaderEntries(q) || ReaderEntries(r) == ReaderEntries(q) + n
    requires forall e | e in n :: e.k.sn > a.lastSequence
    ensures ReaderSeesHistory(b, r)
  {
    hide UniqueSeqs, Readable, ReaderEntries, VersionNumbers;
    forall u: UserKey
      ensures Read(ReaderEntries(r), u, r.snapshot) == Read(b.history, u, r.snapshot)
    {
      NewEntriesUnseen(a.history, n, u, r.snapshot);
      SubsetUniqueSeqs(ReaderEntries(q) + n, b.history);
      NewEntriesUnseen(ReaderEntries(q), n, u, r.snapshot);
    }
  }

  lemma GrownEntries(q: Reader, r: Reader, mem: seq<Entry>, es: seq<Entry>)
    requires Elements(mem) == Elements(q.mem) + Elements(es) && r == q.(mem := mem)
    ensures ReaderEntries(r) == ReaderEntries(q) + Elements(es)
  {
    hide VersionEntries;
  }

  lemma WriteSees(a: Db, b: Db, ops: seq<Op>)
    requires Inv(a) && SeesHistory(a) && Write(a, b, ops)
    ensures SeesHistory(b)
  {
    hide *;
    var es := Stamp(ops, a.lastSequence + 1);
    InvParts(a);
    SeesParts(a);
    WriteAll(a, b, ops);
    WriteShape(a, b, ops, es);
    StampFacts(ops, a.lastSequence + 1);
    FloorRises(a, b);
    GrownStoreSees(a, b, Elements(es));
    forall r | r in b.readers
      ensures ReaderSeesHistory(b, r)
    {
      var q := GrownReader(a, b.mem, r);
      ReaderMeaning(a, q);
      if q.log == a.logNumber {
        CurrentReader(a, q);
        GrownEntries(q, r, b.mem, es);
      }
      GrownReaderSees(a, b, Elements(es), q, r);
    }
    AllSee(b);
  }

  lemma CurrentReader(a: Db, q: Reader)
    requires ReaderOk(a, q) && q.log == a.logNumber
    ensures q.mem == a.mem
  {
  }

  lemma SeesParts(d: Db)
    requires SeesHistory(d)
    ensures StoreSeesHistory(d) && forall r | r in d.readers :: ReaderSeesHistory(d, r)
  {
  }

  lemma AllSee(d: Db)
    requires StoreSeesHistory(d) && forall r | r in d.readers :: ReaderSeesHistory(d, r)
    ensures SeesHistory(d)
  {
    hide StoreSeesHistory, ReaderSeesHistory;
  }

  lemma FloorRises(a: Db, b: Db)
    requires b.snapshots == a.snapshots && a.lastSequence <= b.lastSequence
    ensures Floor(a) <= Floor(b)
  {
  }

  // ---- Restart

  lemma RestartSees(a: Db, b: Db, extra: seq<Op>, replay: seq<nat>, chunks: seq<seq<Entry>>, ts: seq<File>)
    requires Inv(a) && SeesHistory(a) && CrashAndRecover(a, b, extra, replay, chunks, ts)
    ensures SeesHistory(b)
  {
    hide *;
    var es := Stamp(extra, a.lastSequence + 1);
    InvParts(a);
    SeesParts(a);
    CrashShape(a, b, extra, replay, chunks, ts);
    RecoveredAll(a, b, extra, replay, chunks, ts);
    RecoveredHistory(a, b, extra, replay, chunks, ts);
    RecoveredSequence(a, b, extra, replay, chunks, ts);
    StampFacts(extra, a.lastSequence + 1);
    RestartedStoreSees(a, b, Elements(es));
    AllSee(b);
  }

  lemma RestartedStoreSees(a: Db, b: Db, n: set<Entry>)
    requires HistoryInv(a) && StoreSeesHistory(a)
    requires b.history == a.history + n && All(b) == All(a) + n && UniqueSeqs(b.history) && All(b) <= b.history
    requires (forall e | e in n :: e.k.sn > a.lastSequence) && forall e | e in b.history :: e.k.sn <= b.lastSequence
    requires b.snapshots == []
    ensures StoreSeesHistory(b)
  {
    hide All, UniqueSeqs;
    NewEntriesKeepEquivalence(a.history, All(a), n, Floor(a), a.lastSequence);
    EquivalenceFromNewest(b.history, All(b), Floor(a), b.lastSequence);
  }

  // ---- The end of a compaction

  lemma FinishedAll(a: Db, b: Db, input: seq<Entry>, outputs: seq<seq<Entry>>, outs: seq<File>)
    requires Inv(a) && FinishCompaction(a, b, input, outputs, outs)
    ensures var p := a.pending.value;
            && PendingOk(a.version, p) && p.smallest <= Floor(a)
            && Replaced(a.version, b.version, p.level, p.in0, p.in1, outs)
            && FileEntries(outs) == Kept(InsEntries(p), p.smallest, BaseKeys(p.base, p.level))
            && Readable(a.mem, Imm(a), a.version)
  {
    hide Readable, PendingOk, Replaced, FileEntries, Kept, InsEntries, BaseKeys, ReplaceOk, Floor, HistoryInv, NumberInv,
         LogInv, DiskInv, ReaderInv, SnapshotInv;
    FinishReplaceOk(a, b, input, outputs, outs);
  }

  /** The end of a compaction keeps what readers see unless it meets the hazard. */
  lemma FinishSees(a: Db, b: Db, input: seq<Entry>, outputs: seq<seq<Entry>>, outs: seq<File>)
    requires Inv(a) && SeesHistory(a) && FinishCompaction(a, b, input, outputs, outs) && !MeetsHazard(a)
    ensures SeesHistory(b)
  {
    hide Inv, PendingOk, Readable, Replaced, FileEntries, Kept, InsEntries, BaseKeys, AllEntries, Hazard, Sorted, Survivors,
         AreTables, ReadEquivalent, Floor, ReaderSeesHistory;
    var p := a.pending.value;
    FinishedAll(a, b, input, outputs, outs);
    ParentLevelExists(a.version, p);
    CompactionPreservesReadsIff(a.mem, Imm(a), a.version, b.version, p, outs, Floor(a));
    SameFloor(a, b);
    EquivalenceTransitive(a.history, All(a), All(b), Floor(a), Floor(a));
    forall r | r in b.readers
      ensures ReaderSeesHistory(b, r)
    {
      SameHistoryReader(a, b, r);
    }
  }

  lemma SameFloor(a: Db, b: Db)
    requires b.snapshots == a.snapshots && b.lastSequence == a.lastSequence
    ensures Floor(b) == Floor(a)
  {
  }

  /** If it meets the hazard, a usable snapshot reads a value that the history deleted. */
  lemma HazardShows(a: Db, b: Db, input: seq<Entry>, outputs: seq<seq<Entry>>, outs: seq<File>) returns (u: UserKey)
    requires Inv(a) && StoreSeesHistory(a) && FinishCompaction(a, b, input, outputs, outs) && MeetsHazard(a)
    ensures Usable(b, Floor(b))
    ensures Read(b.history, u, Floor(b)) == NotFound && Read(All(b), u, Floor(b)).Found?
  {
    hide Inv, PendingOk, Readable, Replaced, FileEntries, Kept, InsEntries, BaseKeys, AllEntries, Hazard, Sorted, Survivors,
         AreTables, IsNewest, After;
    var p := a.pending.value;
    FinishedAll(a, b, input, outputs, outs);
    var g, f, t :| Hazard(All(a), a.version, p, Floor(a), g, f, t);
    HazardHasEntry(All(a), a.version, p, Floor(a), g, f, t);
    HazardIsRead(a.mem, Imm(a), a.version, p, Floor(a), g, f, t);
    InstalledAll(a.mem, Imm(a), a.version, b.version, p, outs, BaseKeys(p.base, p.level));
    u := t.k.user;
  }

  lemma HazardHasEntry(all: set<Entry>, v: Levels, p: Pending, floor: nat, g: File, f: File, t: Entry)
    requires p.level + 1 < |v| && Hazard(all, v, p, floor, g, f, t)
    ensures f.entries != []
  {
  }

  // ---- All steps

  /** Main result for one step. */
  lemma NextSees(a: Db, b: Db, step: Step)
    requires Inv(a) && SeesHistory(a) && Next(a, b, step)
    requires step.FinishStep? ==> !MeetsHazard(a)
    ensures SeesHistory(b)
  {
    hide Inv, SeesHistory, MeetsHazard, Write, SwitchMemtable, CompactMemTable, StartCompaction, OpenOutput, FinishCompaction,
         TrivialMove, TakeSnapshot, ReleaseSnapshot, PinView, UnpinView, DeleteObsolete, CrashAndRecover;
    match step
    case WriteStep(ops) => WriteSees(a, b, ops);
    case SwitchStep => SwitchSees(a, b);
    case FlushStep(p, n) => FlushSees(a, b, p, n);
    case StartStep(c) => QuietSees(a, b, step);
    case OpenStep => QuietSees(a, b, step);
    case FinishStep(input, outputs, outs) => FinishSees(a, b, input, outputs, outs);
    case MoveStep(level, f) => MoveSees(a, b, level, f);
    case SnapshotStep => QuietSees(a, b, step);
    case ReleaseStep(i) => ReleaseSees(a, b, i);
    case PinStep(s) => PinSees(a, b, s);
    case UnpinStep(i) => UnpinSees(a, b, i);
    case DeleteStep => QuietSees(a, b, step);
    case CrashStep(extra, replay, chunks, ts) => RestartSees(a, b, extra, replay, chunks, ts);
  }
}

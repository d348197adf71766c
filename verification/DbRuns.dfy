/** Whole runs of the store. */
module DbRuns {
  import opened InternalKeys
  import opened Mvcc
  import opened Version
  import opened Lookup
  import opened Boundary
  import opened Picking
  import opened DropRules
  import opened CompactionLoop
  import opened Outputs
  import opened Install
  import opened InFlight
  import opened CompactionReads
  import opened DbState
  import opened DbSteps
  import opened DbRecovery
  import opened DbReads

  lemma InitHasInv(d: Db, log: nat)
    requires Init(d, log)
    ensures Inv(d)
  {
    EmptyVersion(d.version);
    assert All(d) == {};
  }

  lemma EmptyVersion(v: Levels)
    requires |v| == NUM_LEVELS && forall l | 0 <= l < NUM_LEVELS :: v[l] == []
    ensures GoodVersion(v) && UniqueNumbers(v)
    ensures VersionEntries(v) == {} && VersionNumbers(v) == {}
  {
  }

  lemma NextKeepsInv(a: Db, b: Db, step: Step)
    requires Inv(a) && Next(a, b, step)
    ensures Inv(b)
  {
    hide Inv, Write, SwitchMemtable, CompactMemTable, StartCompaction, OpenOutput, FinishCompaction, TrivialMove, TakeSnapshot, ReleaseSnapshot, PinView, UnpinView, DeleteObsolete, CrashAndRecover;
    match step
    case WriteStep(ops) => WriteKeepsInv(a, b, ops);
    case SwitchStep => SwitchKeepsInv(a, b);
    case FlushStep(p, n) => FlushKeepsInv(a, b, p, n);
    case StartStep(c) => StartKeepsInv(a, b, c);
    case OpenStep => OpenKeepsInv(a, b);
    case FinishStep(input, outputs, outs) => FinishKeepsInv(a, b, input, outputs, outs);
    case MoveStep(level, f) => MoveKeepsInv(a, b, level, f);
    case SnapshotStep => SnapshotKeepsInv(a, b);
    case ReleaseStep(i) => ReleaseKeepsInv(a, b, i);
    case PinStep(s) => PinKeepsInv(a, b, s);
    case UnpinStep(i) => UnpinKeepsInv(a, b, i);
    case DeleteStep => DeleteKeepsInv(a, b);
    case CrashStep(extra, replay, chunks, ts) => CrashKeepsInv(a, b, extra, replay, chunks, ts);
  }

  ghost predicate LinkedAt(states: seq<Db>, steps: seq<Step>, i: nat)
    requires |states| == |steps| + 1 && i < |steps|
  {
    Next(states[i], states[i + 1], steps[i])
  }

  /** A run: states linked by steps, starting from an empty store. */
  ghost predicate IsRun(states: seq<Db>, steps: seq<Step>, log: nat) {
    && |states| == |steps| + 1
    && Init(states[0], log)
    && forall i | 0 <= i < |steps| :: LinkedAt(states, steps, i)
  }

  lemma {:induction false} RunKeepsInv(states: seq<Db>, steps: seq<Step>, log: nat, n: nat)
    requires IsRun(states, steps, log) && n < |states|
    ensures Inv(states[n])
  {
    hide Inv, Next, Init;
    var d := states[n];
    if n == 0 {
      InitHasInv(d, log);
    } else {
      var before := states[n - 1];
      RunKeepsInv(states, steps, log, n - 1);
      assert LinkedAt(states, steps, n - 1);
      NextKeepsInv(before, d, steps[n - 1]);
    }
  }

  // ---- What holds in every state of every run

  /** The level invariant: levels sorted and disjoint, shallower newer than deeper, memtables newest. */
  lemma LevelsStayGood(states: seq<Db>, steps: seq<Step>, log: nat, n: nat)
    requires IsRun(states, steps, log) && n < |states|
    ensures GoodVersion(states[n].version)
    ensures MemtablesNewer(states[n].mem, Imm(states[n]), states[n].version)
  {
    RunKeepsInv(states, steps, log, n);
  }

  /** Nothing a read at work, a running compaction or a restart needs is ever deleted. */
  lemma NeededFilesStay(states: seq<Db>, steps: seq<Step>, log: nat, n: nat)
    requires IsRun(states, steps, log) && n < |states|
    ensures var d := states[n];
            && VersionNumbers(d.version) <= d.tables
            && (forall r | r in d.readers :: VersionNumbers(r.version) <= d.tables)
            && (d.pending.Some? ==> VersionNumbers(d.pending.value.base) <= d.tables)
            && d.pendingOutputs <= d.tables
            && d.logNumber in d.logs
            && (d.imm.Some? ==> d.immLog in d.logs)
  {
    hide Readable, ReaderEntries, VersionNumbers;
    RunKeepsInv(states, steps, log, n);
    forall r | r in states[n].readers
      ensures VersionNumbers(r.version) <= states[n].tables
    {
      ReaderMeaning(states[n], r);
    }
  }

  lemma CrashHistory(a: Db, b: Db, step: Step)
    requires Next(a, b, step) && step.CrashStep?
    ensures b.history == a.history + Elements(Stamp(step.extra, a.lastSequence + 1))
  {
    hide Replays, RecoversVersion, IsMaxSequence, CrashLogs;
  }

  /** A restart brings back every entry that the store held, in memory or on disk, and nothing else but the batch
      in flight. */
  lemma RestartKeepsStore(states: seq<Db>, steps: seq<Step>, log: nat, n: nat)
    requires IsRun(states, steps, log) && n < |steps| && steps[n].CrashStep?
    ensures var a, b := states[n], states[n + 1];
            var batch := Elements(Stamp(steps[n].extra, a.lastSequence + 1));
            && All(b) == All(a) + batch && b.history == a.history + batch
            && forall e | e in b.history :: e.k.sn <= b.lastSequence
  {
    hide Init, Inv, Stamp, All, Next;
    assert LinkedAt(states, steps, n);
    RunKeepsInv(states, steps, log, n);
    RunKeepsInv(states, steps, log, n + 1);
    CrashHistory(states[n], states[n + 1], steps[n]);
    CrashStore(states[n], states[n + 1], steps[n]);
    HistoryIsBelow(states[n + 1]);
  }

  lemma CrashStore(a: Db, b: Db, step: Step)
    requires Inv(a) && Next(a, b, step) && step.CrashStep?
    ensures All(b) == All(a) + Elements(Stamp(step.extra, a.lastSequence + 1))
  {
    hide Inv, Stamp, All, CrashAndRecover;
    RecoveredAll(a, b, step.extra, step.replay, step.chunks, step.ts);
  }

  lemma HistoryIsBelow(d: Db)
    requires Inv(d)
    ensures UniqueSeqs(d.history) && forall e | e in d.history :: e.k.sn <= d.lastSequence
  {
    hide LsmInv, SnapshotInv, PendingInv, NumberInv, LogInv, DiskInv, ReaderInv, UniqueSeqs;
  }

  // ---- What reads see

  /** No compaction of the first `n` steps ends in the hazard. */
  ghost predicate HazardFree(states: seq<Db>, steps: seq<Step>, n: nat)
    requires |states| == |steps| + 1 && n <= |steps|
  {
    forall i | 0 <= i < n && steps[i].FinishStep? :: !MeetsHazard(states[i])
  }

  lemma InitSees(d: Db, log: nat)
    requires Init(d, log)
    ensures SeesHistory(d)
  {
    EmptyVersion(d.version);
    assert All(d) == {};
  }

  lemma {:induction false} RunSees(states: seq<Db>, steps: seq<Step>, log: nat, n: nat)
    requires IsRun(states, steps, log) && n < |states| && HazardFree(states, steps, n)
    ensures SeesHistory(states[n])
  {
    hide SeesHistory, Next, Init, Inv, MeetsHazard;
    if n == 0 {
      InitSees(states[0], log);
    } else {
      RunSees(states, steps, log, n - 1);
      RunKeepsInv(states, steps, log, n - 1);
      assert LinkedAt(states, steps, n - 1);
      NextSees(states[n - 1], states[n], steps[n - 1]);
    }
  }

  /** Every snapshot that a reader may use reads what was written. */
  ghost predicate ReadsAreRight(d: Db) {
    forall u: UserKey, s: nat | Usable(d, s) :: Read(All(d), u, s) == Read(d.history, u, s)
  }

  lemma SeeingIsRight(d: Db)
    requires SnapshotInv(d) && SeesHistory(d)
    ensures ReadsAreRight(d)
  {
    hide All, Floor, Usable;
    forall u: UserKey, s: nat | Usable(d, s)
      ensures Read(All(d), u, s) == Read(d.history, u, s)
    {
      UsableIsServed(d, s);
    }
  }

  /** Main result: whatever mix of writes, flushes, compactions, moves, snapshots, reads, deletions of obsolete
      files and crashes led there, lookups at live snapshots return the newest value ever written under them,
      in all states up to the `n`-th, exactly if none of the compactions so far ended in the hazard. */
  lemma ReadsSeeHistoryIff(states: seq<Db>, steps: seq<Step>, log: nat, n: nat)
    requires IsRun(states, steps, log) && n < |states|
    ensures (forall k | 0 <= k <= n :: ReadsAreRight(states[k])) <==> HazardFree(states, steps, n)
  {
    hide SeesHistory, Inv, ReadsAreRight, MeetsHazard, Init, LinkedAt;
    if HazardFree(states, steps, n) {
      forall k | 0 <= k <= n
        ensures ReadsAreRight(states[k])
      {
        RunSees(states, steps, log, k);
        RunKeepsInv(states, steps, log, k);
        InvParts(states[k]);
        SeeingIsRight(states[k]);
      }
    } else {
      var i := FirstHazard(states, steps, n);
      HazardMisleads(states, steps, log, i);
    }
  }

  lemma {:induction false} FirstHazard(states: seq<Db>, steps: seq<Step>, n: nat) returns (i: nat)
    requires |states| == |steps| + 1 && n <= |steps| && !HazardFree(states, steps, n)
    ensures i < n && steps[i].FinishStep? && MeetsHazard(states[i]) && HazardFree(states, steps, i)
  {
    hide MeetsHazard;
    if HazardFree(states, steps, n - 1) {
      i := n - 1;
    } else {
      i := FirstHazard(states, steps, n - 1);
    }
  }

  lemma HazardMisleads(states: seq<Db>, steps: seq<Step>, log: nat, i: nat)
    requires IsRun(states, steps, log) && i < |steps| && HazardFree(states, steps, i)
    requires steps[i].FinishStep? && MeetsHazard(states[i])
    ensures !ReadsAreRight(states[i + 1])
  {
    hide SeesHistory, Inv, MeetsHazard, FinishCompaction, Usable, All, Init, HazardFree;
    RunSees(states, steps, log, i);
    RunKeepsInv(states, steps, log, i);
    assert LinkedAt(states, steps, i);
    SeesParts(states[i]);
    var FinishStep(input, outputs, outs) := steps[i];
    var u := HazardShows(states[i], states[i + 1], input, outputs, outs);
    var b := states[i + 1];
    assert Read(All(b), u, Floor(b)) != Read(b.history, u, Floor(b));
  }

  /** The last sequence number was given to an entry, or is in the manifest. */
  ghost predicate SequenceKept(d: Db) {
    d.lastSequence <= d.manifestSequence || exists e :: e in d.history && e.k.sn == d.lastSequence
  }

  lemma WriteKeepsSequence(a: Db, b: Db, ops: seq<Op>)
    requires Write(a, b, ops) && SequenceKept(a)
    ensures SequenceKept(b)
  {
    hide Write, MemAddAll, GrowReaders;
    var es := Stamp(ops, a.lastSequence + 1);
    WriteShape(a, b, ops, es);
    if ops != [] {
      assert es[|ops| - 1] in es;
    } else if e :| e in a.history && e.k.sn == a.lastSequence {
      assert e in b.history;
    }
  }

  lemma NextKeepsSequence(a: Db, b: Db, step: Step)
    requires Next(a, b, step) && SequenceKept(a)
    ensures SequenceKept(b)
  {
    hide GoodInputs, Flushed, Replaced, LiveTables, VersionNumbers, Write, Replays, RecoversVersion, IsMaxSequence, CrashLogs,
         Stamp, Survivors, AreTables, Sorted;
    if step.WriteStep? {
      WriteKeepsSequence(a, b, step.ops);
    }
  }

  lemma {:induction false} RunKeepsSequence(states: seq<Db>, steps: seq<Step>, log: nat, n: nat)
    requires IsRun(states, steps, log) && n < |states|
    ensures SequenceKept(states[n])
  {
    hide Next, SequenceKept;
    if n > 0 {
      RunKeepsSequence(states, steps, log, n - 1);
      assert LinkedAt(states, steps, n - 1);
      NextKeepsSequence(states[n - 1], states[n], steps[n - 1]);
    } else {
      NoSequence(states[0], log);
    }
  }

  lemma NoSequence(d: Db, log: nat)
    requires Init(d, log)
    ensures SequenceKept(d)
  {
  }

  /** Sequence numbers never go back, not even over a restart. */
  lemma SequenceResumes(a: Db, b: Db, extra: seq<Op>, replay: seq<nat>, chunks: seq<seq<Entry>>, ts: seq<File>)
    requires Inv(a) && SequenceKept(a) && CrashAndRecover(a, b, extra, replay, chunks, ts)
    ensures a.lastSequence <= b.lastSequence
  {
    hide Inv, LsmInv, HistoryInv, PendingInv, NumberInv, DiskInv, ReaderInv, SnapshotInv, CrashAndRecover, Stamp, Replays,
         RecoversVersion, Ascending, Flatten, CrashLogs, FlushedAll;
    InvParts(a);
    CrashShape(a, b, extra, replay, chunks, ts);
    ReplayedEntries(a, extra, replay, chunks);
    if e :| e in a.history && e.k.sn == a.lastSequence {
      if e in a.mem || e in Imm(a) {
        assert e in Elements(Flatten(chunks));
      }
    }
  }

  /** What was written under a sequence number never changes. */
  lemma {:induction false} HistoryBelow(states: seq<Db>, steps: seq<Step>, log: nat, k: nat, m: nat, u: UserKey, s: nat)
    requires IsRun(states, steps, log) && k <= m < |states| && s <= states[k].lastSequence
    ensures Read(states[m].history, u, s) == Read(states[k].history, u, s) && states[k].lastSequence <= states[m].lastSequence
  {
    hide Inv, Next, Init, Read;
    if k < m {
      HistoryBelow(states, steps, log, k, m - 1, u, s);
      RunKeepsInv(states, steps, log, m - 1);
      RunKeepsInv(states, steps, log, m);
      assert LinkedAt(states, steps, m - 1);
      RunKeepsSequence(states, steps, log, m - 1);
      StepKeepsOld(states[m - 1], states[m], steps[m - 1], u, s);
    }
  }

  lemma StepKeepsOld(a: Db, b: Db, step: Step, u: UserKey, s: nat)
    requires Inv(a) && Inv(b) && SequenceKept(a) && Next(a, b, step) && s <= a.lastSequence
    ensures Read(b.history, u, s) == Read(a.history, u, s) && a.lastSequence <= b.lastSequence
  {
    hide *;
    var n := StepHistory(a, b, step);
    HistoryIsBelow(b);
    NewEntriesUnseen(a.history, n, u, s);
  }

  lemma StepHistory(a: Db, b: Db, step: Step) returns (n: set<Entry>)
    requires Next(a, b, step) && Inv(a) && SequenceKept(a)
    ensures b.history == a.history + n && forall e | e in n :: e.k.sn > a.lastSequence
    ensures a.lastSequence <= b.lastSequence
  {
    hide Next, Inv, SequenceKept, Stamp;
    if step.WriteStep? {
      n := Elements(Stamp(step.ops, a.lastSequence + 1));
      WriteAdds(a, b, step.ops, step);
    } else if step.CrashStep? {
      n := Elements(Stamp(step.extra, a.lastSequence + 1));
      CrashAdds(a, b, step.extra, step.replay, step.chunks, step.ts, step);
    } else {
      n := {};
      OthersAdd(a, b, step);
    }
  }

  lemma WriteAdds(a: Db, b: Db, ops: seq<Op>, step: Step)
    requires Next(a, b, step) && step == WriteStep(ops)
    ensures b.history == a.history + Elements(Stamp(ops, a.lastSequence + 1)) && a.lastSequence <= b.lastSequence
    ensures forall e | e in Stamp(ops, a.lastSequence + 1) :: e.k.sn > a.lastSequence
  {
    hide Write, Stamp, MemAddAll;
    WriteShape(a, b, ops, Stamp(ops, a.lastSequence + 1));
    StampFacts(ops, a.lastSequence + 1);
  }

  lemma CrashAdds(a: Db, b: Db, extra: seq<Op>, replay: seq<nat>, chunks: seq<seq<Entry>>, ts: seq<File>, step: Step)
    requires Next(a, b, step) && step == CrashStep(extra, replay, chunks, ts) && Inv(a) && SequenceKept(a)
    ensures b.history == a.history + Elements(Stamp(extra, a.lastSequence + 1)) && a.lastSequence <= b.lastSequence
    ensures forall e | e in Stamp(extra, a.lastSequence + 1) :: e.k.sn > a.lastSequence
  {
    hide Stamp, Inv, CrashAndRecover, SequenceKept;
    CrashHistory(a, b, step);
    StampFacts(extra, a.lastSequence + 1);
    SequenceResumes(a, b, extra, replay, chunks, ts);
  }

  lemma OthersAdd(a: Db, b: Db, step: Step)
    requires Next(a, b, step) && !step.WriteStep? && !step.CrashStep?
    ensures b.history == a.history && b.lastSequence == a.lastSequence
  {
    hide GoodInputs, Flushed, Replaced, LiveTables, VersionNumbers;
  }

  /** What a restart makes of reads: a key that the batch in flight wrote reads right afterwards, and any other
      key does exactly if it did before the crash, so that every acknowledged write is there again. */
  lemma RestartKeepsWrites(states: seq<Db>, steps: seq<Step>, log: nat, n: nat, u: UserKey)
    requires IsRun(states, steps, log) && n < |steps| && steps[n].CrashStep?
    ensures var a, b := states[n], states[n + 1];
            && b.history == a.history + Elements(Stamp(steps[n].extra, a.lastSequence + 1))
            && (Read(All(b), u, b.lastSequence) == Read(b.history, u, b.lastSequence)
                <==> (exists e :: e in Elements(Stamp(steps[n].extra, a.lastSequence + 1)) && e.k.user == u)
                     || Read(All(a), u, a.lastSequence) == Read(a.history, u, a.lastSequence))
    ensures HazardFree(states, steps, n) ==>
              Read(All(states[n + 1]), u, states[n + 1].lastSequence)
              == Read(states[n + 1].history, u, states[n + 1].lastSequence)
  {
    hide All, Init, LinkedAt, Stamp, Read, HazardFree, UniqueSeqs;
    var a, b := states[n], states[n + 1];
    var es := Stamp(steps[n].extra, a.lastSequence + 1);
    RestartKeepsStore(states, steps, log, n);
    CrashSequence(states, steps, log, n);
    RestartedReads(All(a), a.history, Elements(es), a.lastSequence, b.lastSequence, u);
    if HazardFree(states, steps, n) {
      NewestReadsRight(states, steps, log, n, u);
    }
  }

  /** What a crash leaves, as far as reads go. */
  lemma CrashSequence(states: seq<Db>, steps: seq<Step>, log: nat, n: nat)
    requires IsRun(states, steps, log) && n < |steps| && steps[n].CrashStep?
    ensures var a, b := states[n], states[n + 1];
            && All(a) <= a.history && UniqueSeqs(b.history) && a.lastSequence <= b.lastSequence
            && (forall e | e in a.history :: e.k.sn <= a.lastSequence)
            && (forall e | e in Stamp(steps[n].extra, a.lastSequence + 1) :: e.k.sn > a.lastSequence)
  {
    hide Init, Inv, Stamp, All, Next, UniqueSeqs, SequenceKept;
    RunKeepsInv(states, steps, log, n);
    RunKeepsInv(states, steps, log, n + 1);
    RunKeepsSequence(states, steps, log, n);
    assert LinkedAt(states, steps, n);
    CrashResumes(states[n], states[n + 1], steps[n]);
    StampFacts(steps[n].extra, states[n].lastSequence + 1);
    HistoryIsBelow(states[n]);
    HistoryIsBelow(states[n + 1]);
    StoreIsWritten(states[n]);
  }

  lemma NewestReadsRight(states: seq<Db>, steps: seq<Step>, log: nat, n: nat, u: UserKey)
    requires IsRun(states, steps, log) && n < |states| && HazardFree(states, steps, n)
    ensures Read(All(states[n]), u, states[n].lastSequence) == Read(states[n].history, u, states[n].lastSequence)
  {
    hide Init, Inv, All, LinkedAt, SeesHistory, Read, HazardFree;
    RunKeepsInv(states, steps, log, n);
    RunSees(states, steps, log, n);
    InvParts(states[n]);
    SeeingIsRight(states[n]);
    assert Usable(states[n], states[n].lastSequence);
  }

  /** Two stores, one part of the other, after both gained the same newer entries. */
  lemma RestartedReads(x: set<Entry>, h: set<Entry>, n: set<Entry>, last: nat, s: nat, u: UserKey)
    requires x <= h && UniqueSeqs(h + n) && last <= s
    requires (forall e | e in h :: e.k.sn <= last) && forall e | e in n :: e.k.sn > last
    requires forall e | e in h + n :: e.k.sn <= s
    ensures Read(x + n, u, s) == Read(h + n, u, s)
            <==> (exists e :: e in n && e.k.user == u) || Read(x, u, last) == Read(h, u, last)
  {
    hide Read, UniqueSeqs;
    if e :| e in n && e.k.user == u {
      NewerEntriesDecide(x, n, h, last, s, u, e);
    } else {
      UntouchedKey(x, n, h + n, last, s, u);
      UntouchedKey(h, n, h + n, last, s, u);
    }
  }

  lemma CrashResumes(a: Db, b: Db, step: Step)
    requires Inv(a) && SequenceKept(a) && Next(a, b, step) && step.CrashStep?
    ensures a.lastSequence <= b.lastSequence
  {
    hide Inv, SequenceKept, CrashAndRecover;
    SequenceResumes(a, b, step.extra, step.replay, step.chunks, step.ts);
  }

  lemma StoreIsWritten(d: Db)
    requires Inv(d)
    ensures All(d) <= d.history
  {
    hide LsmInv, SnapshotInv, PendingInv, NumberInv, LogInv, DiskInv, ReaderInv, UniqueSeqs, AllEntries;
  }

  /** A key among the newest entries reads the same whatever lies below. */
  lemma NewerEntriesDecide(x: set<Entry>, n: set<Entry>, h: set<Entry>, last: nat, s: nat, u: UserKey, e: Entry)
    requires x <= h && UniqueSeqs(h + n) && e in n && e.k.user == u
    requires (forall o | o in h :: o.k.sn <= last) && forall o | o in n :: last < o.k.sn <= s
    ensures Read(x + n, u, s) == Read(h + n, u, s)
  {
    hide Read, Outcome;
    SubsetUniqueSeqs(x + n, h + n);
    var m := NewestExists(n, u, s, e);
    assert IsNewest(x + n, u, s, m) && IsNewest(h + n, u, s, m);
    ReadNewest(x + n, u, s, m);
    ReadNewest(h + n, u, s, m);
  }

  /** A key that is not among the newer entries reads as before. */
  lemma UntouchedKey(x: set<Entry>, n: set<Entry>, h: set<Entry>, last: nat, s: nat, u: UserKey)
    requires UniqueSeqs(h) && x + n <= h && last <= s
    requires (forall o | o in x :: o.k.sn <= last) && forall o | o in n :: o.k.user != u
    ensures Read(x + n, u, s) == Read(x, u, last)
  {
    hide Read;
    SubsetUniqueSeqs(x + n, h);
    SubsetUniqueSeqs(x, h);
    SameCandidatesSameRead(x + n, x, u, s, last);
  }

  // ---- A condition on the picked inputs that rules the hazard out

  /** The inputs of the compaction that step `i` starts leave no file of the next level behind that continues
      their last user key. */
  ghost predicate StartsClosed(states: seq<Db>, steps: seq<Step>, i: nat)
    requires |states| == |steps| + 1 && i < |steps|
  {
    StartsClosedIn(states[i], steps[i])
  }

  ghost predicate StartsClosedIn(d: Db, step: Step) {
    (step.StartStep? && step.c.level + 1 < |d.version|) ==> NoBoundary(d.version[step.c.level + 1], step.c.in1)
  }

  ghost predicate RunningClosed(d: Db) {
    (d.pending.Some? && d.pending.value.level + 1 < |d.version|) ==> ParentsClosed(d.version, d.pending.value)
  }

  lemma StartCloses(a: Db, b: Db, p: Pending)
    requires Inv(a) && StartCompaction(a, b, p) && NoBoundary(a.version[p.level + 1], p.in1)
    ensures RunningClosed(b)
  {
    hide Inv, GoodInputs, NoBoundary, LogInv, NumberInv, DiskInv, ReaderInv, HistoryInv, ParentsClosed;
    InvParts(a);
    LevelUnique(a, p.level + 1);
    NoBoundaryClosesParents(a.version, p);
  }

  lemma LevelUnique(a: Db, l: nat)
    requires LsmInv(a) && l < |a.version|
    ensures UniqueSeqs(FileEntries(a.version[l])) && GoodVersion(a.version)
  {
    hide GoodVersion, MemtablesNewer;
    forall e | e in FileEntries(a.version[l])
      ensures e in All(a)
    {
      assert e in VersionEntries(a.version);
    }
    SubsetUniqueSeqs(FileEntries(a.version[l]), All(a));
  }

  lemma FlushKeepsClosed(a: Db, b: Db, p: nat, n: File)
    requires Inv(a) && CompactMemTable(a, b, p, n) && RunningClosed(a)
    ensures RunningClosed(b)
  {
    hide Inv, GoodVersion, LogInv, NumberInv, DiskInv, ReaderInv, HistoryInv, ParentsClosed, PendingOk, Flushed;
    InvParts(a);
    VersionIsGood(a);
    if a.imm.value != [] && a.pending.Some? {
      FlushIsOk(a, b, p, n);
      ParentLevelExists(a.version, a.pending.value);
      FlushKeepsPending(a.version, b.version, p, n, a.pending.value);
    }
  }

  lemma NextKeepsClosed(a: Db, b: Db, step: Step)
    requires Inv(a) && Next(a, b, step) && RunningClosed(a)
    requires StartsClosedIn(a, step)
    ensures RunningClosed(b)
  {
    hide Inv, ParentsClosed, GoodInputs, Replaced, LiveTables, NoBoundary, Flushed;
    match step {
      case StartStep(c) => StartCloses(a, b, c);
      case FlushStep(p, n) => FlushKeepsClosed(a, b, p, n);
      case WriteStep(ops) => WriteShape(a, b, ops, Stamp(ops, a.lastSequence + 1));
      case _ =>
    }
  }

  lemma {:induction false} RunKeepsClosed(states: seq<Db>, steps: seq<Step>, log: nat, n: nat)
    requires IsRun(states, steps, log) && n < |states| && forall i | 0 <= i < n :: StartsClosed(states, steps, i)
    ensures RunningClosed(states[n])
  {
    hide Next, Inv, RunningClosed;
    if n > 0 {
      RunKeepsClosed(states, steps, log, n - 1);
      RunKeepsInv(states, steps, log, n - 1);
      assert LinkedAt(states, steps, n - 1);
      assert StartsClosed(states, steps, n - 1);
      NextKeepsClosed(states[n - 1], states[n], steps[n - 1]);
    } else {
      NothingRunning(states[0], log);
    }
  }

  lemma NothingRunning(d: Db, log: nat)
    requires Init(d, log)
    ensures RunningClosed(d)
  {
  }

  /** Runs whose compactions all start closed never meet the hazard. */
  lemma ClosedStartsAvoidHazard(states: seq<Db>, steps: seq<Step>, log: nat, n: nat)
    requires IsRun(states, steps, log) && n < |states| && forall i | 0 <= i < n :: StartsClosed(states, steps, i)
    ensures HazardFree(states, steps, n)
  {
    hide Inv, StartsClosed, MeetsHazard, RunningClosed, Init, LinkedAt;
    forall i | 0 <= i < n && steps[i].FinishStep?
      ensures !MeetsHazard(states[i])
    {
      RunKeepsInv(states, steps, log, i);
      RunKeepsClosed(states, steps, log, i);
      ClosedMeetsNoHazard(states[i]);
    }
  }

  lemma ClosedMeetsNoHazard(d: Db)
    requires Inv(d) && RunningClosed(d)
    ensures !MeetsHazard(d)
  {
    hide Readable, PendingOk, ParentsClosed, Hazard, HistoryInv, NumberInv, LogInv, DiskInv, ReaderInv, AllEntries;
    if MeetsHazard(d) {
      var g, f, t :| Hazard(All(d), d.version, d.pending.value, Floor(d), g, f, t);
      ClosedParentsAvoidHazard(d.mem, Imm(d), d.version, d.pending.value, Floor(d), g, f, t);
    }
  }
}

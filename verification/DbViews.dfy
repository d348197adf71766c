/** What a reader that holds its own references sees while the store goes on. */
module DbViews {
  import opened InternalKeys
  import opened Mvcc
  import opened Version
  import opened Lookup
  import opened DropRules
  import opened Picking
  import opened CompactionLoop
  import opened Outputs
  import opened Install
  import opened CompactionReads
  import opened Merging
  import opened LiveMap
  import opened Sources
  import opened DbState
  import opened DbSteps
  import opened DbReads
  import opened DbRuns

  /** Which reader of the state before a step became the `i`-th after it, if that did not just come. */
  function FormerPlace(step: Step, i: nat): nat {
    if step.UnpinStep? && step.i <= i then i + 1 else i
  }

  /** The `i`-th reader took its references in this step. */
  predicate JustCame(a: Db, step: Step, i: nat) {
    step.PinStep? && i == |a.readers|
  }

  /** A reader came in this step with references to the whole store, or was there and holds what it held; only
      its memtable may have grown. */
  lemma WhereFrom(a: Db, b: Db, step: Step, i: nat)
    requires Next(a, b, step) && i < |b.readers|
    ensures !JustCame(a, step, i) ==> FormerPlace(step, i) < |a.readers|
    ensures !JustCame(a, step, i) ==>
              var q, r := a.readers[FormerPlace(step, i)], b.readers[i];
              r == q.(mem := r.mem) && (r.mem != q.mem ==> step.WriteStep? && q.log == a.logNumber && r.mem == b.mem)
    ensures JustCame(a, step, i) ==> b.readers[i] == Reader(a.logNumber, a.mem, Imm(a), a.version, step.s)
  {
    hide GoodInputs, Flushed, Replaced, LiveTables, VersionNumbers, Replays, RecoversVersion, IsMaxSequence, CrashLogs,
         Stamp, Write, Survivors, AreTables, Sorted, MemAddAll;
    if step.WriteStep? {
      WriteShape(a, b, step.ops, Stamp(step.ops, a.lastSequence + 1));
    }
  }

  /** The step in which the `i`-th reader of state `m` took its references. */
  ghost function PinOf(states: seq<Db>, steps: seq<Step>, log: nat, m: nat, i: nat): (p: nat)
    requires IsRun(states, steps, log) && m < |states| && i < |states[m].readers|
    ensures p < m && steps[p].PinStep? && steps[p].s == states[m].readers[i].snapshot
    decreases m
  {
    NoReaders(states[0], log);
    assert LinkedAt(states, steps, m - 1);
    WhereFrom(states[m - 1], states[m], steps[m - 1], i);
    if JustCame(states[m - 1], steps[m - 1], i) then m - 1
    else PinOf(states, steps, log, m - 1, FormerPlace(steps[m - 1], i))
  }

  /** No step changes what a reader answers. */
  lemma StepKeepsAnswer(a: Db, b: Db, step: Step, i: nat, u: UserKey)
    requires Inv(a) && Inv(b) && Next(a, b, step) && i < |b.readers| && !JustCame(a, step, i)
    ensures FormerPlace(step, i) < |a.readers|
    ensures var q, r := a.readers[FormerPlace(step, i)], b.readers[i];
            r.snapshot == q.snapshot && Read(ReaderEntries(r), u, r.snapshot) == Read(ReaderEntries(q), u, q.snapshot)
  {
    hide Inv, Next, Read, ReaderEntries, Readable;
    WhereFrom(a, b, step, i);
    var q, r := a.readers[FormerPlace(step, i)], b.readers[i];
    InvParts(a);
    InvParts(b);
    ReaderMeaning(a, q);
    ReaderMeaning(b, r);
    if r.mem != q.mem {
      MemtableGrew(a, b, step);
      var n := Elements(Stamp(step.ops, a.lastSequence + 1));
      CurrentReader(a, q);
      GrownEntries(q, r, r.mem, Stamp(step.ops, a.lastSequence + 1));
      HistoryIsBelow(b);
      SubsetUniqueSeqs(ReaderEntries(r), b.history);
      NewEntriesUnseen(ReaderEntries(q), n, u, r.snapshot);
    }
  }

  lemma MemtableGrew(a: Db, b: Db, step: Step)
    requires Inv(a) && Next(a, b, step) && step.WriteStep?
    ensures Elements(b.mem) == Elements(a.mem) + Elements(Stamp(step.ops, a.lastSequence + 1))
    ensures forall e | e in Stamp(step.ops, a.lastSequence + 1) :: e.k.sn > a.lastSequence
  {
    hide Inv, Write, Stamp, All;
    WriteAll(a, b, step.ops);
    StampFacts(step.ops, a.lastSequence + 1);
  }

  lemma PinnedAll(a: Db, b: Db, step: Step, i: nat)
    requires Next(a, b, step) && i < |b.readers| && JustCame(a, step, i)
    ensures ReaderEntries(b.readers[i]) == All(a) && b.readers[i].snapshot == step.s
    ensures Usable(a, step.s) && step.s <= a.lastSequence
  {
    hide AllEntries, Usable;
  }

  /** Main result: over every run, a reader answers until it ends what the store answered when the reader took
      its references, whatever was written, flushed, compacted, hazard or not, or deleted since. */
  lemma {:induction false} AnswersStay(states: seq<Db>, steps: seq<Step>, log: nat, m: nat, i: nat, u: UserKey)
    requires IsRun(states, steps, log) && m < |states| && i < |states[m].readers|
    ensures var p, r := PinOf(states, steps, log, m, i), states[m].readers[i];
            && Usable(states[p], r.snapshot) && r.snapshot <= states[p].lastSequence
            && Read(ReaderEntries(r), u, r.snapshot) == Read(All(states[p]), u, r.snapshot)
    decreases m
  {
    hide Inv, Next, Init, Read, ReaderEntries, All, Usable;
    NoReaders(states[0], log);
    var a, b, step := states[m - 1], states[m], steps[m - 1];
    assert LinkedAt(states, steps, m - 1);
    if JustCame(a, step, i) {
      PinnedAll(a, b, step, i);
    } else {
      RunKeepsInv(states, steps, log, m - 1);
      RunKeepsInv(states, steps, log, m);
      StepKeepsAnswer(a, b, step, i, u);
      AnswersStay(states, steps, log, m - 1, FormerPlace(step, i), u);
    }
  }

  /** A reader is right exactly if the store was when the reader came. */
  lemma ReaderIsRightIff(states: seq<Db>, steps: seq<Step>, log: nat, m: nat, i: nat, u: UserKey)
    requires IsRun(states, steps, log) && m < |states| && i < |states[m].readers|
    ensures var p, r := PinOf(states, steps, log, m, i), states[m].readers[i];
            Read(ReaderEntries(r), u, r.snapshot) == Read(states[m].history, u, r.snapshot)
            <==> Read(All(states[p]), u, r.snapshot) == Read(states[p].history, u, r.snapshot)
  {
    hide Init, LinkedAt, Read, ReaderEntries, All, Usable;
    AnswersStay(states, steps, log, m, i, u);
    HistoryBelow(states, steps, log, PinOf(states, steps, log, m, i), m, u, states[m].readers[i].snapshot);
  }

  lemma NoReaders(d: Db, log: nat)
    requires Init(d, log)
    ensures d.readers == []
  {
  }

  /** If no compaction had ended in the hazard when it began, a reader answers from the history of every state
      that had published its snapshot, and the tables it needs are there. */
  lemma ReadersKeepTheirView(states: seq<Db>, steps: seq<Step>, log: nat, k: nat, m: nat, i: nat, u: UserKey)
    requires IsRun(states, steps, log) && k < |states| && m < |states| && i < |states[m].readers|
    requires HazardFree(states, steps, PinOf(states, steps, log, m, i))
    requires states[m].readers[i].snapshot <= states[k].lastSequence
    ensures var r := states[m].readers[i];
            && Read(ReaderEntries(r), u, r.snapshot) == Read(states[k].history, u, r.snapshot)
            && Readable(r.mem, r.imm, r.version) && VersionNumbers(r.version) <= states[m].tables
  {
    hide IsRun, HazardFree, Inv, SeesHistory, Readable, ReaderEntries, VersionNumbers, Read, All, Usable;
    var p, r := PinOf(states, steps, log, m, i), states[m].readers[i];
    RunKeepsInv(states, steps, log, m);
    InvParts(states[m]);
    ReaderMeaning(states[m], r);
    AnswersStay(states, steps, log, m, i, u);
    RunSees(states, steps, log, p);
    RunKeepsInv(states, steps, log, p);
    InvParts(states[p]);
    SeeingIsRight(states[p]);
    if k <= p {
      HistoryBelow(states, steps, log, k, p, u, r.snapshot);
    } else {
      HistoryBelow(states, steps, log, p, k, u, r.snapshot);
    }
  }

  /** DBImpl::Get: references were taken in state `p`, and the lookup goes through them in state `m`, with any
      steps of other threads in between. */
  method Get(ghost states: seq<Db>, ghost steps: seq<Step>, ghost log: nat, ghost m: nat, ghost i: nat, r: Reader, u: UserKey)
    returns (v: ReadResult)
    requires IsRun(states, steps, log) && m < |states| && i < |states[m].readers| && states[m].readers[i] == r
    ensures var p := PinOf(states, steps, log, m, i);
            && v == Read(All(states[p]), u, r.snapshot)
            && (HazardFree(states, steps, p) ==> v == Read(states[p].history, u, r.snapshot))
  {
    hide Init, LinkedAt, HazardFree, Inv, SeesHistory, Readable, VersionNumbers, Read, Usable, GoodVersion, All, ReaderEntries;
    RunKeepsInv(states, steps, log, m);
    InvParts(states[m]);
    ReaderMeaning(states[m], r);
    v := Through(r, u);
    AnswersStay(states, steps, log, m, i, u);
    ghost var p := PinOf(states, steps, log, m, i);
    if HazardFree(states, steps, p) {
      ReadersKeepTheirView(states, steps, log, p, m, i, u);
    }
  }

  method Through(r: Reader, u: UserKey) returns (v: ReadResult)
    requires Readable(r.mem, r.imm, r.version)
    ensures v == Read(ReaderEntries(r), u, r.snapshot)
  {
    v := DbGet(r.mem, r.imm, r.version, u, r.snapshot);
  }

  /** An iterator made from a reader's references lists the same pairs whenever it is asked, although the memtable
      under it grows: those that lookups found at its snapshot when it began. */
  lemma IterationStays(states: seq<Db>, steps: seq<Step>, log: nat, m: nat, i: nat)
    requires IsRun(states, steps, log) && m < |states| && i < |states[m].readers|
    ensures var d, r := states[PinOf(states, steps, log, m, i)], states[m].readers[i];
            |d.version| == NUM_LEVELS == |r.version|
            && Live(MergeAll(Children(r.mem, r.imm, r.version)), r.snapshot)
               == Live(MergeAll(Children(d.mem, Imm(d), d.version)), r.snapshot)
  {
    hide Init, LinkedAt, Inv, Readable, Read, AllEntries, Live, MergeAll, Children, Usable;
    var p, r := PinOf(states, steps, log, m, i), states[m].readers[i];
    var d := states[p];
    RunKeepsInv(states, steps, log, m);
    RunKeepsInv(states, steps, log, p);
    InvParts(states[m]);
    InvParts(d);
    ReaderMeaning(states[m], r);
    SevenLevels(r.mem, r.imm, r.version);
    SevenLevels(d.mem, Imm(d), d.version);
    var now, first := MergeAll(Children(r.mem, r.imm, r.version)), MergeAll(Children(d.mem, Imm(d), d.version));
    MergedSources(r.mem, r.imm, r.version);
    MergedSources(d.mem, Imm(d), d.version);
    forall u: UserKey
      ensures Read(Elements(now), u, r.snapshot) == Read(Elements(first), u, r.snapshot)
    {
      AnswersStay(states, steps, log, m, i, u);
    }
    SameReadsSameLive(now, first, r.snapshot);
  }

  lemma SevenLevels(mem: seq<Entry>, imm: seq<Entry>, v: Levels)
    requires Readable(mem, imm, v)
    ensures |v| == NUM_LEVELS
  {
  }

  lemma MergedSources(mem: seq<Entry>, imm: seq<Entry>, v: Levels)
    requires Readable(mem, imm, v)
    ensures |v| == NUM_LEVELS
    ensures var merged := MergeAll(Children(mem, imm, v));
            Sorted(merged) && Elements(merged) == AllEntries(mem, imm, v) && UniqueSeqs(Elements(merged))
  {
    hide AllEntries, MergeAll, Children, VersionEntries;
    ChildrenMerge(mem, imm, v);
  }
}

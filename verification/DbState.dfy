/** The whole store as a state machine: memtables, version, logs, manifest and the files on disk. */
module DbState {
  import opened InternalKeys
  import opened Mvcc
  import opened Version
  import opened Boundary
  import opened Picking
  import opened DropRules
  import opened CompactionLoop
  import opened VersionBuilder
  import opened Outputs
  import opened Install
  import opened Lookup
  import opened InFlight
  import opened CompactionReads

  /** One operation of a write batch. */
  datatype Op = Op(user: UserKey, kind: Kind, value: Value)

  /** A read that has begun: the memtables, the version and the snapshot it holds on to.  `log` names the
      memtable, which goes on growing as long as it is the current one. */
  datatype Reader = Reader(log: nat, mem: seq<Entry>, imm: seq<Entry>, version: Levels, snapshot: nat)

  datatype Db = Db(
    /** Every entry ever written; the specification, not part of the store. */
    history: set<Entry>,
    mem: seq<Entry>,
    imm: Option<seq<Entry>>,
    version: Levels,
    lastSequence: nat,
    /** Live snapshots, oldest first. */
    snapshots: seq<nat>,
    /** Reads and iterators at work. */
    readers: seq<Reader>,
    /** The running compaction and the numbers of the tables it is writing. */
    pending: Option<Pending>,
    pendingOutputs: set<nat>,
    nextFile: nat,
    /** Log files on disk, each with the entries appended to it. */
    logs: map<nat, seq<Entry>>,
    logNumber: nat,
    immLog: nat,
    /** What the manifest records besides the version: log number, last sequence, next file number. */
    manifestLog: nat,
    manifestSequence: nat,
    manifestNext: nat,
    /** Numbers of the table files on disk. */
    tables: set<nat>
  )

  function Imm(d: Db): seq<Entry> {
    if d.imm.Some? then d.imm.value else []
  }

  ghost function All(d: Db): set<Entry> {
    AllEntries(d.mem, Imm(d), d.version)
  }

  /** The oldest snapshot a new compaction has to serve. */
  function Floor(d: Db): nat {
    if d.snapshots == [] then d.lastSequence else d.snapshots[0]
  }

  ghost function ReaderEntries(r: Reader): set<Entry> {
    AllEntries(r.mem, r.imm, r.version)
  }

  ghost function VersionNumbers(v: Levels): set<nat> {
    set l, f | 0 <= l < |v| && f in v[l] :: f.number
  }

  ghost predicate UniqueNumbers(v: Levels) {
    forall l, m, f, g | 0 <= l < |v| && 0 <= m < |v| && f in v[l] && g in v[m] && f.number == g.number :: l == m && f == g
  }

  /** A log is written in sequence order. */
  ghost predicate Ascending(es: seq<Entry>) {
    forall i, j | 0 <= i < j < |es| :: es[i].k.sn < es[j].k.sn
  }

  // ---- The invariant, in parts.

  ghost predicate LsmInv(d: Db) {
    Readable(d.mem, Imm(d), d.version)
  }

  /** Nothing is in the store that was not written. */
  ghost predicate HistoryInv(d: Db) {
    && All(d) <= d.history
    && UniqueSeqs(d.history)
    && (forall e | e in d.history :: e.k.sn <= d.lastSequence)
    && d.lastSequence < MAX_SEQUENCE
  }

  ghost predicate SnapshotInv(d: Db) {
    && (forall i, j | 0 <= i < j < |d.snapshots| :: d.snapshots[i] <= d.snapshots[j])
    && (forall i | 0 <= i < |d.snapshots| :: d.snapshots[i] <= d.lastSequence)
  }

  ghost predicate PendingInv(d: Db) {
    && (d.pending.Some? ==>
          && PendingOk(d.version, d.pending.value)
          && d.pending.value.smallest <= Floor(d))
    && (d.pending.None? ==> d.pendingOutputs == {})
  }

  ghost predicate NumberInv(d: Db) {
    && UniqueNumbers(d.version)
    && (forall n | n in VersionNumbers(d.version) :: n < d.manifestNext)
    && d.manifestNext <= d.nextFile
    && d.pendingOutputs !! VersionNumbers(d.version)
    && (forall n | n in d.pendingOutputs :: n < d.nextFile)
  }

  /** The logs the manifest still refers to hold exactly the memtables. */
  ghost predicate LogInv(d: Db) {
    && d.logNumber in d.logs && Elements(d.logs[d.logNumber]) == Elements(d.mem)
    && d.manifestLog <= d.logNumber
    && (d.imm.Some? ==>
          && d.immLog in d.logs && Elements(d.logs[d.immLog]) == Elements(d.imm.value)
          && d.manifestLog <= d.immLog < d.logNumber)
    && (forall n | n in d.logs && n >= d.manifestLog :: n == d.logNumber || (d.imm.Some? && n == d.immLog))
    && (forall n | n in d.logs :: n < d.nextFile && Ascending(d.logs[n]))
    && d.manifestSequence <= d.lastSequence
    && (forall e | e in d.history && e !in d.mem && e !in Imm(d) :: e.k.sn <= d.manifestSequence)
  }

  /** Every table that may still be read is on disk. */
  ghost predicate DiskInv(d: Db) {
    && VersionNumbers(d.version) <= d.tables
    && (d.pending.Some? ==> VersionNumbers(d.pending.value.base) <= d.tables)
    && d.pendingOutputs <= d.tables
  }

  /** A reader's own view of the store is in order, is made of written entries, and is on disk. */
  ghost predicate ReaderOk(d: Db, r: Reader) {
    && Readable(r.mem, r.imm, r.version)
    && ReaderEntries(r) <= d.history
    && r.log <= d.logNumber && (r.log == d.logNumber ==> r.mem == d.mem)
    && r.snapshot <= d.lastSequence
    && VersionNumbers(r.version) <= d.tables
  }

  ghost predicate ReaderInv(d: Db) {
    forall r | r in d.readers :: ReaderOk(d, r)
  }

  ghost predicate Inv(d: Db) {
    LsmInv(d) && HistoryInv(d) && SnapshotInv(d) && PendingInv(d) && NumberInv(d) && LogInv(d) && DiskInv(d) && ReaderInv(d)
  }

  // ---- What reads see

  /** Every live or later snapshot sees in the store what the history says. */
  ghost predicate StoreSeesHistory(d: Db) {
    ReadEquivalent(d.history, All(d), Floor(d))
  }

  /** A reader sees through its own view what the history says at its snapshot. */
  ghost predicate ReaderSeesHistory(d: Db, r: Reader) {
    forall u: UserKey :: Read(ReaderEntries(r), u, r.snapshot) == Read(d.history, u, r.snapshot)
  }

  ghost predicate SeesHistory(d: Db) {
    StoreSeesHistory(d) && forall r | r in d.readers :: ReaderSeesHistory(d, r)
  }

  // ---- The steps.

  /** The entries of a batch whose first operation gets sequence `first` (MemTableInserter). */
  function Stamp(ops: seq<Op>, first: nat): (r: seq<Entry>)
    ensures |r| == |ops|
    ensures forall i | 0 <= i < |r| :: r[i] == Entry(InternalKey(ops[i].user, first + i, ops[i].kind), ops[i].value)
  {
    if ops == [] then []
    else [Entry(InternalKey(ops[0].user, first, ops[0].kind), ops[0].value)] + Stamp(ops[1..], first + 1)
  }

  /** MemTable::Add of each entry in turn. */
  function MemAddAll(mem: seq<Entry>, es: seq<Entry>): seq<Entry>
    decreases |es|
  {
    if es == [] then mem else MemAddAll(InsertByKey(mem, es[0]), es[1..])
  }

  /** An empty store just opened, writing log `log`. */
  ghost predicate Init(d: Db, log: nat) {
    && d == Db({}, [], None, d.version, 0, [], [], None, {}, log + 1, map[log := []], log, 0, log, 0, log + 1, {})
    && |d.version| == NUM_LEVELS && forall l | 0 <= l < NUM_LEVELS :: d.version[l] == []
  }

  /** DBImpl::Write of one batch group: append to the log, apply to the memtable, publish the sequence. */
  ghost predicate Write(a: Db, b: Db, ops: seq<Op>) {
    && a.logNumber in a.logs
    && a.lastSequence + |ops| < MAX_SEQUENCE
    && b == Written(a, BatchEntries(a, ops), a.lastSequence + |ops|)
  }

  /** The entries of the next batch. */
  ghost function BatchEntries(a: Db, ops: seq<Op>): seq<Entry> {
    Stamp(ops, a.lastSequence + 1)
  }

  ghost function Written(a: Db, es: seq<Entry>, last: nat): Db
    requires a.logNumber in a.logs
  {
    a.(history := a.history + Elements(es),
       mem := MemAddAll(a.mem, es),
       lastSequence := last,
       readers := GrowReaders(a.readers, a.logNumber, MemAddAll(a.mem, es)),
       logs := a.logs[a.logNumber := a.logs[a.logNumber] + es])
  }

  /** Readers share the memtable they hold with the writer. */
  function GrowReaders(rs: seq<Reader>, log: nat, mem: seq<Entry>): (r: seq<Reader>)
    ensures |r| == |rs|
    ensures forall i | 0 <= i < |rs| :: r[i] == if rs[i].log == log then rs[i].(mem := mem) else rs[i]
  {
    seq(|rs|, i requires 0 <= i < |rs| => if rs[i].log == log then rs[i].(mem := mem) else rs[i])
  }

  /** MakeRoomForWrite: a new log and memtable; the full one becomes immutable. */
  ghost predicate SwitchMemtable(a: Db, b: Db) {
    && a.imm.None?
    && b == a.(imm := Some(a.mem), immLog := a.logNumber, mem := [],
               logNumber := a.nextFile, logs := a.logs[a.nextFile := []], nextFile := a.nextFile + 1)
  }

  /** CompactMemTable; `p` is where the table goes.  An empty memtable yields no table. */
  ghost predicate CompactMemTable(a: Db, b: Db, p: nat, n: File) {
    && a.imm.Some?
    && b == a.(imm := None, version := b.version, nextFile := a.nextFile + 1,
               manifestLog := a.logNumber, manifestSequence := a.lastSequence, manifestNext := a.nextFile + 1,
               tables := b.tables)
    && if a.imm.value == [] then b.version == a.version && b.tables == a.tables
       else
         && n.number == a.nextFile && IsTableOf(n, a.imm.value)
         && p < |a.version|
         && (p > 0 ==> forall l, f | 0 <= l <= p && f in a.version[l] :: UserApart(f, n))
         && Flushed(a.version, b.version, p, n)
         && b.tables == a.tables + {n.number}
  }

  /** PickCompaction and the start of DoCompactionWork. */
  ghost predicate StartCompaction(a: Db, b: Db, p: Pending) {
    && a.pending.None?
    && p.base == a.version && p.level + 1 < |a.version| && p.smallest == Floor(a)
    && GoodInputs(a.version[p.level], a.version[p.level + 1], p.in0, p.in1)
    && b == a.(pending := Some(p))
  }

  /** OpenCompactionOutputFile. */
  ghost predicate OpenOutput(a: Db, b: Db) {
    && a.pending.Some?
    && b == a.(pendingOutputs := a.pendingOutputs + {a.nextFile}, tables := a.tables + {a.nextFile}, nextFile := a.nextFile + 1)
  }

  /** The rest of DoCompactionWork and InstallCompactionResults: `input` is the merged input, `outputs` what
      the loop made of it, `outs` the finished tables. */
  ghost predicate FinishCompaction(a: Db, b: Db, input: seq<Entry>, outputs: seq<seq<Entry>>, outs: seq<File>) {
    && a.pending.Some?
    && var p := a.pending.value;
    && Sorted(input) && Elements(input) == InsEntries(p)
    && Flatten(outputs) == Survivors(input, |input|, p.smallest, BaseKeys(p.base, p.level))
    && AreTables(outs, outputs)
    && (forall f | f in outs :: f.number in a.pendingOutputs)
    && (forall i, j | 0 <= i < j < |outs| :: outs[i].number != outs[j].number)
    && Replaced(a.version, b.version, p.level, p.in0, p.in1, outs)
    && b == a.(version := b.version, pending := None, pendingOutputs := {},
               manifestSequence := a.lastSequence, manifestNext := a.nextFile)
  }

  /** A compaction of one file without parents moves it down. */
  ghost predicate TrivialMove(a: Db, b: Db, level: nat, f: File) {
    && a.pending.None? && level + 1 < |a.version|
    && GoodInputs(a.version[level], a.version[level + 1], [f], [])
    && Replaced(a.version, b.version, level, [f], [], [f])
    && b == a.(version := b.version, manifestSequence := a.lastSequence, manifestNext := a.nextFile)
  }

  /** GetSnapshot. */
  ghost predicate TakeSnapshot(a: Db, b: Db) {
    b == a.(snapshots := a.snapshots + [a.lastSequence])
  }

  /** ReleaseSnapshot of the `i`-th live one. */
  ghost predicate ReleaseSnapshot(a: Db, b: Db, i: nat) {
    i < |a.snapshots| && b == a.(snapshots := a.snapshots[..i] + a.snapshots[i + 1..])
  }

  /** A snapshot a reader may use in state `d`. */
  ghost predicate Usable(d: Db, s: nat) {
    s in d.snapshots || s >= d.lastSequence
  }

  /** The beginning of Get or of an iterator at snapshot `s`: it takes references to the memtables and the
      current version. */
  ghost predicate PinView(a: Db, b: Db, s: nat) {
    && Usable(a, s) && s <= a.lastSequence
    && b == a.(readers := a.readers + [Reader(a.logNumber, a.mem, Imm(a), a.version, s)])
  }

  /** The `i`-th reader is done. */
  ghost predicate UnpinView(a: Db, b: Db, i: nat) {
    i < |a.readers| && b == a.(readers := a.readers[..i] + a.readers[i + 1..])
  }

  ghost function PinnedNumbers(rs: seq<Reader>): set<nat> {
    set r, n | r in rs && n in VersionNumbers(r.version) :: n
  }

  /** Table numbers DeleteObsoleteFiles keeps: pending outputs and the files of every version still referenced,
      which are the current one, the readers' and the running compaction's. */
  ghost function LiveTables(d: Db): set<nat> {
    d.pendingOutputs + VersionNumbers(d.version) + PinnedNumbers(d.readers)
    + if d.pending.Some? then VersionNumbers(d.pending.value.base) else {}
  }

  /** DeleteObsoleteFiles. */
  ghost predicate DeleteObsolete(a: Db, b: Db) {
    b == a.(tables := a.tables * LiveTables(a),
            logs := map n | n in a.logs && n >= a.manifestLog :: a.logs[n])
  }

  /** The logs recovery replays, in order. */
  ghost predicate ReplayOrder(d: Db, replay: seq<nat>) {
    && (forall n :: n in replay <==> n in d.logs && n >= d.manifestLog)
    && (forall i, j | 0 <= i < j < |replay| :: replay[i] < replay[j])
  }

  ghost function LogContents(logs: map<nat, seq<Entry>>, replay: seq<nat>): seq<Entry>
    requires forall n | n in replay :: n in logs
  {
    if replay == [] then [] else LogContents(logs, replay[..|replay| - 1]) + logs[replay[|replay| - 1]]
  }

  /** One level-0 table for each memtable that recovery fills. */
  ghost predicate RecoveredTables(chunks: seq<seq<Entry>>, ts: seq<File>) {
    && |ts| == |chunks|
    && (forall i | 0 <= i < |ts| :: chunks[i] != [] && GoodFile(ts[i]) && Elements(ts[i].entries) == Elements(chunks[i]))
    && (forall i, j | 0 <= i < j < |ts| :: ts[i].number < ts[j].number)
  }

  /** `w` is `v` with the tables `ts` added to level 0. */
  ghost predicate FlushedAll(v: Levels, w: Levels, ts: seq<File>) {
    && |w| == |v| && |v| > 0
    && (forall l | 1 <= l < |v| :: w[l] == v[l])
    && SortedFiles(w[0])
    && (forall f :: f in w[0] <==> f in v[0] || f in ts)
  }

  /** The logs as the crash leaves them: `extra` is a batch that had reached the log when the crash came but
      was not acknowledged. */
  ghost function CrashLogs(a: Db, extra: seq<Op>): map<nat, seq<Entry>>
    requires a.logNumber in a.logs
  {
    a.logs[a.logNumber := a.logs[a.logNumber] + Stamp(extra, a.lastSequence + 1)]
  }

  /** Recovery reads the logs from the manifest's on, filling one memtable after the other. */
  ghost predicate Replays(a: Db, extra: seq<Op>, replay: seq<nat>, chunks: seq<seq<Entry>>) {
    && a.logNumber in a.logs
    && ReplayOrder(a, replay)
    && Flatten(chunks) == LogContents(CrashLogs(a, extra), replay)
  }

  /** The recovered version: the manifest's, and on level 0 the tables of the replayed logs. */
  ghost predicate RecoversVersion(a: Db, w: Levels, chunks: seq<seq<Entry>>, ts: seq<File>) {
    && RecoveredTables(chunks, ts)
    && (forall f | f in ts :: a.manifestNext <= f.number)
    && FlushedAll(a.version, w, ts)
  }

  /** A crash that loses everything in memory, readers included, then DB::Open. */
  ghost predicate CrashAndRecover(a: Db, b: Db, extra: seq<Op>, replay: seq<nat>, chunks: seq<seq<Entry>>, ts: seq<File>) {
    && a.lastSequence + |extra| < MAX_SEQUENCE
    && Replays(a, extra, replay, chunks)
    && RecoversVersion(a, b.version, chunks, ts)
    && (forall f | f in ts :: f.number < b.nextFile)
    && (forall n | n in a.logs :: n < b.logNumber < b.nextFile)
    && a.manifestNext <= b.nextFile
    && IsMaxSequence(b.lastSequence, a.manifestSequence, Flatten(chunks))
    && b == Db(a.history + Elements(Stamp(extra, a.lastSequence + 1)), [], None, b.version, b.lastSequence, [], [], None, {},
               b.nextFile, CrashLogs(a, extra)[b.logNumber := []], b.logNumber, 0, b.logNumber, b.lastSequence,
               b.nextFile, a.tables + Numbers(ts))
  }

  /** The sequence recovery resumes from: the manifest's or the last one found in the logs. */
  ghost predicate IsMaxSequence(m: nat, manifest: nat, es: seq<Entry>) {
    && manifest <= m && (forall e | e in es :: e.k.sn <= m)
    && (m == manifest || exists e :: e in es && e.k.sn == m)
  }

  datatype Step =
    | WriteStep(ops: seq<Op>)
    | SwitchStep
    | FlushStep(p: nat, n: File)
    | StartStep(c: Pending)
    | OpenStep
    | FinishStep(input: seq<Entry>, outputs: seq<seq<Entry>>, outs: seq<File>)
    | MoveStep(level: nat, f: File)
    | SnapshotStep
    | ReleaseStep(i: nat)
    | PinStep(s: nat)
    | UnpinStep(i: nat)
    | DeleteStep
    | CrashStep(extra: seq<Op>, replay: seq<nat>, chunks: seq<seq<Entry>>, ts: seq<File>)

  ghost predicate Next(a: Db, b: Db, step: Step) {
    match step
    case WriteStep(ops) => Write(a, b, ops)
    case SwitchStep => SwitchMemtable(a, b)
    case FlushStep(p, n) => CompactMemTable(a, b, p, n)
    case StartStep(c) => StartCompaction(a, b, c)
    case OpenStep => OpenOutput(a, b)
    case FinishStep(input, outputs, outs) => FinishCompaction(a, b, input, outputs, outs)
    case MoveStep(level, f) => TrivialMove(a, b, level, f)
    case SnapshotStep => TakeSnapshot(a, b)
    case ReleaseStep(i) => ReleaseSnapshot(a, b, i)
    case PinStep(s) => PinView(a, b, s)
    case UnpinStep(i) => UnpinView(a, b, i)
    case DeleteStep => DeleteObsolete(a, b)
    case CrashStep(extra, replay, chunks, ts) => CrashAndRecover(a, b, extra, replay, chunks, ts)
  }
}

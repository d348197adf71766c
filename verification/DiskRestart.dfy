/** Restart from the bytes on disk: log files cut off anywhere, and the manifest. */
module DiskRestart {
  import opened InternalKeys
  import opened Coding
  import opened Version
  import opened LogFormat
  import opened LogRoundTrip
  import opened WriteBatches
  import EditFormat
  import opened CompactionLoop
  import opened DbState
  import opened DbSteps
  import opened RecoverLogs
  import opened ManifestRuns
  import opened DbEdits
  import opened DbCalls
  import opened DbImpls
  import opened KeyFormat
  import opened Boundary
  import opened VersionBuilder

  // ---- From bytes to entries

  /** How keys and values of batches stand for those of the store. */
  datatype View = View(key: Bytes -> UserKey, value: Bytes -> Value)

  function AsOp(view: View, op: ByteOp): Op {
    match op
    case Put(key, value) => Op(view.key(key), Kind.Put, view.value(value))
    case Delete(key) => Op(view.key(key), Deletion, view.value([]))
  }

  function AsOps(view: View, ops: seq<ByteOp>): (r: seq<Op>)
    ensures |r| == |ops| && forall i | 0 <= i < |ops| :: r[i] == AsOp(view, ops[i])
  {
    seq(|ops|, i requires 0 <= i < |ops| => AsOp(view, ops[i]))
  }

  /** What the memtable gets from one record of a log (InsertInto). */
  function RecordEntries(view: View, record: Bytes): seq<Entry> {
    if |record| < WriteBatches.HEADER then [] else Stamp(AsOps(view, Iterated(record).calls), Sequence(record))
  }

  /** What recovery reads from a log file, record by record. */
  function LogRecords(view: View, file: Bytes): seq<seq<Entry>> {
    var found := ReadAll(file, 0);
    seq(|found|, i requires 0 <= i < |found| => RecordEntries(view, found[i].record))
  }

  /** A batch as it was written. */
  datatype Batch = Batch(sn: nat, ops: seq<ByteOp>)

  ghost predicate AreBatches(reps: seq<Bytes>, batches: seq<Batch>) {
    |reps| == |batches| && forall i | 0 <= i < |reps| :: Holds(reps[i], batches[i].sn, batches[i].ops)
  }

  function BatchesEntries(view: View, batches: seq<Batch>): (r: seq<seq<Entry>>)
    ensures |r| == |batches|
    ensures forall i | 0 <= i < |batches| :: r[i] == Stamp(AsOps(view, batches[i].ops), batches[i].sn)
  {
    seq(|batches|, i requires 0 <= i < |batches| => Stamp(AsOps(view, batches[i].ops), batches[i].sn))
  }

  lemma BatchReadsBack(view: View, rep: Bytes, b: Batch)
    requires Holds(rep, b.sn, b.ops)
    ensures RecordEntries(view, rep) == Stamp(AsOps(view, b.ops), b.sn)
  {
    hide Holds, Iterated, Sequence, Stamp;
    IterateReadsBack(rep, b.sn, b.ops);
    HeaderOf(rep, b.sn, b.ops);
  }

  /** Main result for one log: cut off at any byte, it gives back the entries of the batches wholly before the cut,
      in order, with their sequence numbers. */
  lemma TornLogGivesBatches(view: View, file: Bytes, reps: seq<Bytes>, batches: seq<Batch>) returns (k: nat)
    requires AreBatches(reps, batches) && file <= LogFormat.Written(reps)
    ensures WholeRecords(reps, |file|, k)
    ensures LogRecords(view, file) == BatchesEntries(view, batches[..k])
  {
    hide Holds, RecordEntries, ReadAll, Stamp, LogFormat.Written;
    k := TornLogReadsBack(file, reps);
    forall i | 0 <= i < k
      ensures RecordEntries(view, reps[i]) == Stamp(AsOps(view, batches[i].ops), batches[i].sn)
    {
      BatchReadsBack(view, reps[i], batches[i]);
    }
  }

  lemma {:induction false} WrittenGrows(reps: seq<Bytes>, j: nat, k: nat)
    requires j < k <= |reps|
    ensures |LogFormat.Written(reps[..j])| < |LogFormat.Written(reps[..k])|
    decreases k
  {
    hide Emit;
    WrittenStep(reps, k - 1);
    if j < k - 1 {
      WrittenGrows(reps, j, k - 1);
    }
  }

  /** What was whole before the cut is read: in particular every batch acknowledged before a crash. */
  lemma WholeBatchesSurvive(reps: seq<Bytes>, n: nat, k: nat, m: nat)
    requires WholeRecords(reps, n, k) && m <= |reps| && |LogFormat.Written(reps[..m])| <= n
    ensures m <= k
  {
    hide LogFormat.Written;
    if k < m && k + 1 < m {
      WrittenGrows(reps, k + 1, m);
    }
  }

  // ---- The log files of a store

  /** The file of a log that no crash cut: its batches are the log's entries. */
  ghost predicate LogFile(view: View, file: Bytes, es: seq<Entry>, reps: seq<Bytes>, batches: seq<Batch>) {
    && AreBatches(reps, batches) && file == LogFormat.Written(reps)
    && Flatten(BatchesEntries(view, batches)) == es
  }

  ghost predicate IsLogFile(view: View, file: Bytes, es: seq<Entry>) {
    exists reps, batches :: LogFile(view, file, es, reps, batches)
  }

  /** The file of the log being written, after a crash: whole up to the last acknowledged batch, and then anything
      from nothing to all of the record of one more batch. */
  ghost predicate IsCutLogFile(view: View, file: Bytes, es: seq<Entry>, more: Batch) {
    exists reps, batches, rep :: CutLogFile(view, file, es, more, reps, batches, rep)
  }

  ghost predicate CutLogFile(view: View, file: Bytes, es: seq<Entry>, more: Batch, reps: seq<Bytes>, batches: seq<Batch>, rep: Bytes) {
    && AreBatches(reps, batches) && Holds(rep, more.sn, more.ops)
    && LogFormat.Written(reps) <= file <= LogFormat.Written(reps + [rep])
    && Flatten(BatchesEntries(view, batches)) == es
  }

  lemma WholeLogGivesEntries(view: View, file: Bytes, es: seq<Entry>)
    requires IsLogFile(view, file, es)
    ensures Flatten(LogRecords(view, file)) == es
  {
    hide LogRecords, BatchesEntries, AreBatches, Flatten, LogFormat.Written;
    var reps, batches :| LogFile(view, file, es, reps, batches);
    var k := TornLogGivesBatches(view, file, reps, batches);
    assert reps[..|reps|] == reps;
    WholeBatchesSurvive(reps, |file|, k, |reps|);
    SameLength(reps, batches);
    assert batches[..k] == batches;
  }

  lemma SameLength(reps: seq<Bytes>, batches: seq<Batch>)
    requires AreBatches(reps, batches)
    ensures |reps| == |batches|
  {
  }

  lemma OneMoreBatch(reps: seq<Bytes>, batches: seq<Batch>, rep: Bytes, b: Batch)
    requires AreBatches(reps, batches) && Holds(rep, b.sn, b.ops)
    ensures AreBatches(reps + [rep], batches + [b])
  {
    hide Holds;
  }

  lemma OneMoreFlat(view: View, batches: seq<Batch>, b: Batch)
    ensures Flatten(BatchesEntries(view, batches + [b]))
            == Flatten(BatchesEntries(view, batches)) + Stamp(AsOps(view, b.ops), b.sn)
  {
    hide Stamp;
    assert BatchesEntries(view, batches + [b]) == BatchesEntries(view, batches) + [Stamp(AsOps(view, b.ops), b.sn)];
    FlattenAppend(BatchesEntries(view, batches), Stamp(AsOps(view, b.ops), b.sn));
  }

  /** The acknowledged entries all come back; the batch in flight does as a whole or not at all. */
  lemma CutLogGivesEntries(view: View, file: Bytes, es: seq<Entry>, more: Batch)
    requires IsCutLogFile(view, file, es, more)
    ensures Flatten(LogRecords(view, file)) == es || Flatten(LogRecords(view, file)) == es + Stamp(AsOps(view, more.ops), more.sn)
  {
    hide LogRecords, BatchesEntries, AreBatches, Flatten, LogFormat.Written, Stamp;
    var reps, batches, rep :| CutLogFile(view, file, es, more, reps, batches, rep);
    OneMoreBatch(reps, batches, rep, more);
    OneMoreFlat(view, batches, more);
    var k := TornLogGivesBatches(view, file, reps + [rep], batches + [more]);
    assert (reps + [rep])[..|reps|] == reps;
    WholeBatchesSurvive(reps + [rep], |file|, k, |reps|);
    SameLength(reps, batches);
    if k == |reps| {
      assert (batches + [more])[..k] == batches;
    } else {
      assert (batches + [more])[..k] == batches + [more];
    }
  }

  /** The log files on disk after a crash of the store `d`: those of the old logs are whole, the newest one may be
      cut inside the batch `more` that was being written. */
  ghost predicate CrashFiles(view: View, d: Db, files: map<nat, Bytes>, more: seq<ByteOp>) {
    && files.Keys == d.logs.Keys && d.logNumber in d.logs
    && (forall n | n in d.logs && n != d.logNumber :: IsLogFile(view, files[n], d.logs[n]))
    && IsCutLogFile(view, files[d.logNumber], d.logs[d.logNumber], Batch(d.lastSequence + 1, more))
  }

  /** The records recovery reads from the files. */
  function AllRecords(view: View, files: map<nat, Bytes>): map<nat, seq<seq<Entry>>> {
    map n | n in files :: LogRecords(view, files[n])
  }

  /** Main result for the logs: what recovery reads from the bytes is the logs of the store as the crash left them,
      with the batch in flight or without it; it is what CrashAndOpen starts from. */
  lemma CrashFilesGiveLogs(view: View, d: Db, files: map<nat, Bytes>, more: seq<ByteOp>) returns (extra: seq<Op>)
    requires DbState.Inv(d) && CrashFiles(view, d, files, more)
    ensures extra == [] || extra == AsOps(view, more)
    ensures HoldRecords(CrashLogs(d, extra), AllRecords(view, files))
  {
    hide DbState.Inv, LogRecords, IsLogFile, IsCutLogFile, Stamp, Flatten, Ascending, CrashLogs;
    CutLogGivesEntries(view, files[d.logNumber], d.logs[d.logNumber], Batch(d.lastSequence + 1, more));
    extra := [];
    if Flatten(LogRecords(view, files[d.logNumber])) != d.logs[d.logNumber] {
      extra := AsOps(view, more);
    }
    CrashLogsHold(d, extra);
    NothingStamped(d.lastSequence + 1);
    forall n | n in d.logs
      ensures Flatten(AllRecords(view, files)[n]) == CrashLogs(d, extra)[n] && Ascending(CrashLogs(d, extra)[n])
    {
      if n != d.logNumber {
        WholeLogGivesEntries(view, files[n], d.logs[n]);
      }
    }
  }

  lemma NothingStamped(first: nat)
    ensures Stamp([], first) == []
  {
  }

  lemma CrashLogsHold(d: Db, extra: seq<Op>)
    requires DbState.Inv(d) && d.logNumber in d.logs
    ensures CrashLogs(d, extra).Keys == d.logs.Keys
    ensures CrashLogs(d, extra)[d.logNumber] == d.logs[d.logNumber] + Stamp(extra, d.lastSequence + 1)
    ensures forall n | n in d.logs && n != d.logNumber :: CrashLogs(d, extra)[n] == d.logs[n]
    ensures forall n | n in d.logs :: Ascending(CrashLogs(d, extra)[n])
  {
    hide LsmInv, HistoryInv, PendingInv, DbState.NumberInv, DiskInv, ReaderInv, SnapshotInv, Stamp, Ascending;
    StampFacts(extra, d.lastSequence + 1);
    LogGrows(d, Stamp(extra, d.lastSequence + 1));
  }

  // ---- The manifest

  /** The bytes of the records of a manifest. */
  function EncodeAll(edits: seq<EditFormat.Edit>): (r: seq<Bytes>)
    ensures |r| == |edits| && forall i | 0 <= i < |edits| :: r[i] == EditFormat.Encode(edits[i])
  {
    seq(|edits|, i requires 0 <= i < |edits| => EditFormat.Encode(edits[i]))
  }

  /** The key of a file's bounds and of a compaction pointer. */
  function AsInternalKey(view: View, s: Bytes): InternalKey {
    match GetKey(s)
    case Key(k) => InternalKey(view.key(k.user), k.sn, k.kind)
    case NoKey => InternalKey(view.key(s), 0, Deletion)
  }

  /** A file named in an edit; `contents` is what its table holds. */
  function AsFile(view: View, contents: nat -> seq<Entry>, f: EditFormat.NewFile): File {
    File(f.number, f.size, AsInternalKey(view, f.smallest), AsInternalKey(view, f.largest), contents(f.number))
  }

  /** The files an edit adds to level `l`, in its order. */
  function FilesAt(view: View, contents: nat -> seq<Entry>, fs: seq<EditFormat.NewFile>, l: nat): seq<File> {
    if fs == [] then []
    else (if fs[0].level == l then [AsFile(view, contents, fs[0])] else []) + FilesAt(view, contents, fs[1..], l)
  }

  /** The file changes of an edit, level by level (Builder::Apply). */
  function AsRecord(view: View, contents: nat -> seq<Entry>, e: EditFormat.Edit): (r: Record)
    ensures |r| == NUM_LEVELS
  {
    seq(NUM_LEVELS, l requires 0 <= l < NUM_LEVELS =>
      LevelEdit(set d | d in e.deletedFiles && d.level == l :: d.number, FilesAt(view, contents, e.newFiles, l)))
  }

  function AsRecords(view: View, contents: nat -> seq<Entry>, edits: seq<EditFormat.Edit>): (r: seq<Record>)
    ensures |r| == |edits| && forall i | 0 <= i < |r| :: r[i] == AsRecord(view, contents, edits[i])
  {
    seq(|edits|, i requires 0 <= i < |edits| => AsRecord(view, contents, edits[i]))
  }

  /** What recovery keeps of the fields that are not about files: the newest value of each. */
  datatype Numbers = Numbers(log: EditFormat.Maybe<nat>, sequence: EditFormat.Maybe<nat>, next: EditFormat.Maybe<nat>,
                             pointers: seq<Option<InternalKey>>)

  function NoNumbers(): Numbers {
    Numbers(EditFormat.Absent, EditFormat.Absent, EditFormat.Absent, seq(NUM_LEVELS, _ => None))
  }

  function Newer(was: EditFormat.Maybe<nat>, v: EditFormat.Maybe<nat>): EditFormat.Maybe<nat> {
    if v.Present? then v else was
  }

  function PointersAfter(view: View, was: seq<Option<InternalKey>>, ps: seq<EditFormat.Pointer>): (r: seq<Option<InternalKey>>)
    ensures |r| == |was|
  {
    if ps == [] then was
    else
      var before := PointersAfter(view, was, ps[..|ps| - 1]);
      var p := ps[|ps| - 1];
      if p.level < |before| then before[p.level := Some(AsInternalKey(view, p.key))] else before
  }

  function NumbersAfter(view: View, edits: seq<EditFormat.Edit>): (r: Numbers)
    ensures |r.pointers| == NUM_LEVELS
  {
    if edits == [] then NoNumbers()
    else
      var was, e := NumbersAfter(view, edits[..|edits| - 1]), edits[|edits| - 1];
      Numbers(Newer(was.log, e.logNumber), Newer(was.sequence, e.lastSequence), Newer(was.next, e.nextFileNumber),
              PointersAfter(view, was.pointers, e.compactPointers))
  }

  /** The file of the manifest of store `d`, whose records are `m`: it was written edit by edit, and its newest numbers
      are those the store recorded. */
  ghost predicate IsManifestFile(view: View, contents: nat -> seq<Entry>, file: Bytes, edits: seq<EditFormat.Edit>,
                                 m: seq<Record>, d: Db) {
    && file == LogFormat.Written(EncodeAll(edits)) && (forall i | 0 <= i < |edits| :: EditFormat.Fits(edits[i]))
    && m == AsRecords(view, contents, edits)
    && var n := NumbersAfter(view, edits);
       n.log == EditFormat.Present(d.manifestLog) && n.sequence == EditFormat.Present(d.manifestSequence)
       && n.next == EditFormat.Present(d.manifestNext)
  }

  /** LogAndApply keeps it so: the edit is appended, with the numbers of the new state in it. */
  lemma AppendKeepsManifestFile(view: View, contents: nat -> seq<Entry>, file: Bytes, edits: seq<EditFormat.Edit>, m: seq<Record>,
                                a: Db, b: Db, e: EditFormat.Edit)
    requires IsManifestFile(view, contents, file, edits, m, a) && EditFormat.Fits(e)
    requires e.logNumber == EditFormat.Present(b.manifestLog) || (e.logNumber.Absent? && b.manifestLog == a.manifestLog)
    requires e.lastSequence == EditFormat.Present(b.manifestSequence) && e.nextFileNumber == EditFormat.Present(b.manifestNext)
    ensures IsManifestFile(view, contents, file + Emit(|file| % BLOCK, EditFormat.Encode(e), true), edits + [e],
                           m + [AsRecord(view, contents, e)], b)
  {
    hide EditFormat.Encode, EditFormat.Fits, Emit, AsRecord, LogFormat.Written;
    var more := edits + [e];
    assert more[..|edits|] == edits && EncodeAll(more)[..|edits|] == EncodeAll(edits);
    assert EncodeAll(more)[..|edits| + 1] == EncodeAll(more);
    WrittenStep(EncodeAll(more), |edits|);
    assert AsRecords(view, contents, more) == m + [AsRecord(view, contents, e)];
  }

  /** What VersionSet::Recover decodes from the file, into a fresh VersionEdit each time. */
  function DecodeAll(file: Bytes): (r: seq<Parse<EditFormat.Edit>>) {
    var found := ReadAll(file, 0);
    seq(|found|, i requires 0 <= i < |found| => EditFormat.Decode(EditFormat.FRESH, found[i].record))
  }

  function Decoded(ps: seq<Parse<EditFormat.Edit>>): (r: seq<EditFormat.Edit>)
    requires forall p | p in ps :: p.Parsed?
    ensures |r| == |ps| && forall i | 0 <= i < |r| :: r[i] == ps[i].value
  {
    seq(|ps|, i requires 0 <= i < |ps| => ps[i].value)
  }

  lemma ManifestReadsBack(file: Bytes, edits: seq<EditFormat.Edit>)
    requires file == LogFormat.Written(EncodeAll(edits)) && forall i | 0 <= i < |edits| :: EditFormat.Fits(edits[i])
    ensures (forall p | p in DecodeAll(file) :: p.Parsed?) && Decoded(DecodeAll(file)) == edits && Reports(file, 0) == 0
  {
    hide EditFormat.Encode, EditFormat.Decode, EditFormat.Fits, ReadAll, Reports, LogFormat.Written;
    LogReadsBack(EncodeAll(edits));
    forall i | 0 <= i < |edits|
      ensures EditFormat.Decode(EditFormat.FRESH, EditFormat.Encode(edits[i])) == Parsed(edits[i], [])
    {
      EditFormat.RoundTripIff(EditFormat.FRESH, edits[i]);
    }
  }

  /** Every record decodes, and names the comparator the store was opened with, if any. */
  predicate Acceptable(ps: seq<Parse<EditFormat.Edit>>, comparator: Bytes) {
    forall p | p in ps :: p.Parsed? && (p.value.comparator.Present? ==> p.value.comparator.value == comparator)
  }

  datatype Recovery = Recovered(version: Levels, log: nat, sequence: nat, next: nat, pointers: seq<Option<InternalKey>>) | Corruption

  /** VersionSet::Recover, from the bytes of the manifest. */
  method RecoverManifest(view: View, contents: nat -> seq<Entry>, file: Bytes, comparator: Bytes) returns (r: Recovery)
    ensures r.Recovered? <==>
              && Reports(file, 0) == 0 && Acceptable(DecodeAll(file), comparator)
              && var n := NumbersAfter(view, Decoded(DecodeAll(file)));
                 n.next.Present? && n.log.Present? && n.sequence.Present?
    ensures r.Recovered? ==>
              var edits := Decoded(DecodeAll(file));
              var n, m := NumbersAfter(view, edits), AsRecords(view, contents, edits);
              && r.log == n.log.value && r.sequence == n.sequence.value && r.next == n.next.value && r.pointers == n.pointers
              && |r.version| == NUM_LEVELS && forall l | 0 <= l < NUM_LEVELS :: r.version[l] == ManifestRuns.Recovered(m, l)
  {
    hide ReadAll, Reports, EditFormat.Decode, ManifestRuns.Recovered, AsRecord, PointersAfter;
    var ps := DecodeAll(file);
    var n, m := NoNumbers(), [];
    ghost var edits: seq<EditFormat.Edit> := [];
    for i := 0 to |ps|
      invariant Acceptable(ps[..i], comparator) && edits == Decoded(ps[..i])
      invariant n == NumbersAfter(view, edits) && m == AsRecords(view, contents, edits)
    {
      assert ps[..i + 1] == ps[..i] + [ps[i]];
      if ps[i].Failed? || (ps[i].value.comparator.Present? && ps[i].value.comparator.value != comparator) {
        assert ps[i] in ps;
        return Corruption;
      }
      var e := ps[i].value;
      n := Numbers(Newer(n.log, e.logNumber), Newer(n.sequence, e.lastSequence), Newer(n.next, e.nextFileNumber),
                   PointersAfter(view, n.pointers, e.compactPointers));
      m := m + [AsRecord(view, contents, e)];
      edits := edits + [e];
      assert edits[..|edits| - 1] == Decoded(ps[..i]);
    }
    assert ps[..|ps|] == ps;
    if Reports(file, 0) != 0 || n.next.Absent? || n.log.Absent? || n.sequence.Absent? {
      return Corruption;
    }
    var v := RebuildVersion(m);
    r := Recovered(v, n.log.value, n.sequence.value, n.next.value, n.pointers);
  }

  /** Main result for the manifest: from its bytes come the store's version and the numbers it recorded. */
  lemma ManifestGivesStore(view: View, contents: nat -> seq<Entry>, file: Bytes, edits: seq<EditFormat.Edit>, m: seq<Record>,
                           d: Db, comparator: Bytes, r: Recovery)
    requires IsManifestFile(view, contents, file, edits, m, d) && ManifestInv(m, d)
    requires forall e | e in edits && e.comparator.Present? :: e.comparator.value == comparator
    requires r.Recovered? <==>
               && Reports(file, 0) == 0 && Acceptable(DecodeAll(file), comparator)
               && var n := NumbersAfter(view, Decoded(DecodeAll(file)));
                  n.next.Present? && n.log.Present? && n.sequence.Present?
    requires r.Recovered? ==>
               var edits := Decoded(DecodeAll(file));
               var n, m := NumbersAfter(view, edits), AsRecords(view, contents, edits);
               && r.log == n.log.value && r.sequence == n.sequence.value && r.next == n.next.value && r.pointers == n.pointers
               && |r.version| == NUM_LEVELS && forall l | 0 <= l < NUM_LEVELS :: r.version[l] == ManifestRuns.Recovered(m, l)
    ensures r == Recovered(d.version, d.manifestLog, d.manifestSequence, d.manifestNext, NumbersAfter(view, edits).pointers)
  {
    hide DecodeAll, EditFormat.Fits, LogFormat.Written, Reports, ManifestInv, NumbersAfter, AsRecords, ManifestRuns.Recovered;
    ManifestReadsBack(file, edits);
    var ps := DecodeAll(file);
    forall p | p in ps
      ensures p.value.comparator.Present? ==> p.value.comparator.value == comparator
    {
      var i :| 0 <= i < |ps| && ps[i] == p;
      assert Decoded(ps)[i] in edits;
    }
    WellFormedChanges(m, d);
    RebuildsCurrent(m, d, r.version);
  }

  lemma WellFormedChanges(m: seq<Record>, d: Db)
    requires ManifestInv(m, d)
    ensures WellFormed(m)
  {
  }

  // ---- The whole restart

  /** DB::Open after a crash, from nothing but bytes: the manifest, and the logs as they were cut off.  The store goes
      on by exactly the crash step of the state machine, with the batch in flight as a whole or without it. */
  method OpenFromBytes(db: DbImpl, view: View, contents: nat -> seq<Entry>, manifestFile: Bytes, logFiles: map<nat, Bytes>,
                       comparator: Bytes, isFull: seq<Entry> -> bool, fileSize: seq<Entry> -> nat,
                       ghost edits: seq<EditFormat.Edit>, ghost more: seq<ByteOp>)
    returns (isOpen: bool, ghost step: DbState.Step)
    requires db.Valid() && db.lastSequence + |more| < MAX_SEQUENCE
    requires IsManifestFile(view, contents, manifestFile, edits, db.manifest, db.State())
    requires forall e | e in edits && e.comparator.Present? :: e.comparator.value == comparator
    requires CrashFiles(view, db.State(), logFiles, more)
    modifies db
    ensures isOpen && db.Valid()
    ensures step.CrashStep? && (step.extra == [] || step.extra == AsOps(view, more))
    ensures Took(old(db.State()), old(db.manifest), db.State(), db.manifest, step)
    ensures db.compactPointers == NumbersAfter(view, edits).pointers
  {
    hide DbCalls.Ok, DbState.Inv, ManifestInv, Took, CrashFiles, IsManifestFile, CrashLogs, HoldRecords, AllRecords, NumbersAfter, Runnable,
         Reports, Acceptable, DecodeAll, ManifestRuns.Recovered;
    OkParts(db.State(), db.manifest);
    LogExists(db.State());
    var r := RecoverManifest(view, contents, manifestFile, comparator);
    ManifestGivesStore(view, contents, manifestFile, edits, db.manifest, db.State(), comparator, r);
    ghost var extra := CrashFilesGiveLogs(view, db.State(), logFiles, more);
    var ts, replay;
    ghost var chunks;
    ts, replay, chunks := db.OpenFrom(r.version, r.log, r.sequence, r.next, r.pointers, extra, AllRecords(view, logFiles), isFull, fileSize);
    isOpen, step := true, CrashStep(extra, replay, chunks, ts);
  }
}

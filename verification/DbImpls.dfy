/** DBImpl: the store's fields and the methods that change them.  Each method is a step, or a run of steps,
    of the state machine; a sequence of calls is therefore a run of it. */
module DbImpls {
  import opened InternalKeys
  import opened Mvcc
  import opened Version
  import opened VersionBuilder
  import opened Inputs
  import opened Boundary
  import opened Picking
  import opened SetupInputs
  import opened DropRules
  import opened CompactionLoop
  import opened Outputs
  import opened Install
  import opened FlushPlacement
  import opened InFlight
  import opened Lookup
  import opened CompactionReads
  import opened Merging
  import opened DbState
  import opened DbSteps
  import opened DbRecovery
  import opened DbRuns
  import opened ManifestRuns
  import opened DbEdits
  import opened RecoverLogs

  import opened DbReads
  import opened DbCalls

  class DbImpl {
    var mem: seq<Entry>
    var imm: Option<seq<Entry>>
    /** versions_->current() and the counters of the version set. */
    var version: Levels
    var lastSequence: nat
    var nextFile: nat
    var compactPointers: seq<Option<InternalKey>>
    /** Sequence numbers of the live snapshots, oldest first. */
    var snapshots: seq<nat>
    /** Reads and iterators at work, with the memtables and the version they hold references to. */
    var readers: seq<Reader>
    /** The compaction the background thread is running. */
    var pending: Option<Pending>
    var grandparents: seq<File>
    var pendingOutputs: set<nat>
    /** The log being written. */
    var logNumber: nat
    /** The manifest: the file changes of its records, and what the newest record says besides. */
    var manifest: seq<Record>
    var manifestLog: nat
    var manifestSequence: nat
    var manifestNext: nat
    /** The directory: log files with their contents, and table files. */
    var logs: map<nat, seq<Entry>>
    var tables: set<nat>
    /** The log that `imm` was written to. */
    ghost var immLog: nat
    /** Every entry ever written. */
    ghost var history: set<Entry>

    ghost function State(): Db
      reads this
    {
      Db(history, mem, imm, version, lastSequence, snapshots, readers, pending, pendingOutputs, nextFile,
         logs, logNumber, immLog, manifestLog, manifestSequence, manifestNext, tables)
    }

    ghost predicate Valid()
      reads this
    {
      && Ok(State(), manifest)
      && |compactPointers| == NUM_LEVELS
      && (pending.Some? ==> Runnable(pending.value))
    }

    /** An empty store whose first log is `log`. */
    constructor (log: nat)
      ensures Valid() && Init(State(), log)
    {
      mem, imm, version := [], None, seq(NUM_LEVELS, _ => []);
      lastSequence, nextFile, compactPointers := 0, log + 1, seq(NUM_LEVELS, _ => None);
      snapshots, readers, pending, grandparents, pendingOutputs, manifest := [], [], None, [], {}, [];
      logNumber, manifestLog, manifestSequence, manifestNext := log, log, 0, log + 1;
      logs, tables := map[log := []], {};
      immLog, history := 0, {};
      new;
      InitHasInv(State(), log);
      EmptyManifest(State());
    }

    /** WriteBatchInternal::InsertInto: each operation gets the next sequence number. */
    method InsertInto(ops: seq<Op>, first: nat)
      modifies this`mem
      ensures mem == MemAddAll(old(mem), Stamp(ops, first))
    {
      ghost var es := Stamp(ops, first);
      assert es[0..] == es;
      for i := 0 to |ops|
        invariant MemAddAll(mem, es[i..]) == MemAddAll(old(mem), es)
      {
        assert es[i..][1..] == es[i + 1..];
        mem := InsertByKey(mem, Entry(InternalKey(ops[i].user, first + i, ops[i].kind), ops[i].value));
      }
    }

    /** DBImpl::Write of a batch group at the head of the queue. */
    method Write(ops: seq<Op>)
      requires Valid() && lastSequence + |ops| < MAX_SEQUENCE
      modifies this
      ensures Valid() && Took(old(State()), old(manifest), State(), manifest, WriteStep(ops))
    {
      hide Inv, Ok, Took, Next, MemAddAll, InsertByKey, Stamp, Runnable, GrowReaders, Elements;
      ghost var a := State();
      OkParts(a, manifest);
      LogExists(a);
      LogAndInsert(ops);
      WriteIsNext(a, State(), ops, Stamp(ops, a.lastSequence + 1));
      TookQuietStep(a, State(), manifest, WriteStep(ops));
    }

    /** The batch goes to the log, then to the memtable, and then its last sequence number is published. */
    method LogAndInsert(ops: seq<Op>)
      requires logNumber in logs
      modifies this`logs, this`mem, this`readers, this`lastSequence, this`history
      ensures var es := Stamp(ops, old(lastSequence) + 1);
              && logs == old(logs)[logNumber := old(logs)[logNumber] + es]
              && mem == MemAddAll(old(mem), es) && readers == GrowReaders(old(readers), logNumber, mem)
              && lastSequence == old(lastSequence) + |ops| && history == old(history) + Elements(es)
    {
      hide *;
      AddRecord(Stamp(ops, lastSequence + 1));
      InsertInto(ops, lastSequence + 1);
      Publish(|ops|, Stamp(ops, lastSequence + 1));
    }

    /** AddRecord of the log. */
    method AddRecord(es: seq<Entry>)
      requires logNumber in logs
      modifies this`logs
      ensures logs == old(logs)[logNumber := old(logs)[logNumber] + es]
    {
      hide *;
      logs := logs[logNumber := logs[logNumber] + es];
    }

    /** SetLastSequence, which shows the entries to new readers.  Readers at work share the memtable. */
    method Publish(count: nat, ghost es: seq<Entry>)
      modifies this`readers, this`lastSequence, this`history
      ensures readers == GrowReaders(old(readers), logNumber, mem) && lastSequence == old(lastSequence) + count
      ensures history == old(history) + Elements(es)
    {
      hide *;
      readers := GrowReaders(readers, logNumber, mem);
      lastSequence := lastSequence + count;
      history := history + Elements(es);
    }

    /** The end of MakeRoomForWrite: a new log and memtable; the full memtable waits to be flushed. */
    method SwitchMemtable()
      requires Valid() && imm.None?
      modifies this
      ensures Valid() && Took(old(State()), old(manifest), State(), manifest, SwitchStep)
      ensures mem == [] && imm == Some(old(mem))
    {
      hide Inv, Ok, Took, Next, Runnable;
      ghost var a := State();
      NewLogAndMemtable();
      SwitchIsNext(a, State());
      TookQuietStep(a, State(), manifest, SwitchStep);
    }

    method NewLogAndMemtable()
      modifies this`nextFile, this`immLog, this`logs, this`logNumber, this`imm, this`mem
      ensures nextFile == old(nextFile) + 1 && immLog == old(logNumber) && logNumber == old(nextFile)
      ensures logs == old(logs)[old(nextFile) := []] && imm == Some(old(mem)) && mem == []
    {
      hide *;
      var newLogNumber := nextFile;
      nextFile := nextFile + 1;
      immLog := logNumber;
      logs, logNumber := logs[newLogNumber := []], newLogNumber;
      imm, mem := Some(mem), [];
    }

    /** One round of the loop of MakeRoomForWrite. */
    method MakeRoomForWrite(bgError: bool, force: bool, allowDelay: bool, memoryUsage: nat, writeBufferSize: nat) returns (r: Room)
      requires Valid()
      modifies this
      ensures Valid()
      ensures if r.Switched? then Took(old(State()), old(manifest), State(), manifest, SwitchStep)
              else State() == old(State()) && manifest == old(manifest)
      ensures r.Ready? ==> memoryUsage <= writeBufferSize && !force
      ensures r.Failed? <==> bgError
      ensures !r.Ready? && !r.Delay? && !r.Failed? ==> force || memoryUsage > writeBufferSize
      ensures r.Delay? ==> allowDelay && |version[0]| >= L0_SLOWDOWN_WRITES_TRIGGER
      ensures r.WaitForFlush? ==> imm.Some?
      ensures r.WaitForLevel0? ==> imm.None? && |version[0]| >= L0_STOP_WRITES_TRIGGER
      ensures r.Switched? ==> mem == [] && imm == Some(old(mem)) && |old(version)[0]| < L0_STOP_WRITES_TRIGGER
    {
      hide Inv, Ok, Took, Next, Runnable, GoodVersion, SequencesBounded, UniqueNumbers, UniqueSeqs, VersionNumbers, VersionEntries,
           Sorted, LevelsSorted;
      OkParts(State(), manifest);
      VersionFacts(State());
      VersionLength(version);
      if bgError {
        r := Failed;
      } else if allowDelay && |version[0]| >= L0_SLOWDOWN_WRITES_TRIGGER {
        r := Delay;
      } else if !force && memoryUsage <= writeBufferSize {
        r := Ready;
      } else if imm.Some? {
        r := WaitForFlush;
      } else if |version[0]| >= L0_STOP_WRITES_TRIGGER {
        r := WaitForLevel0;
      } else {
        SwitchMemtable();
        r := Switched;
      }
    }

    /** DBImpl::Get, when nothing happens meanwhile. */
    method Get(u: UserKey, s: nat) returns (r: ReadResult)
      requires Valid() && Usable(State(), s)
      ensures r == Read(All(State()), u, s)
      ensures SeesHistory(State()) ==> r == Read(history, u, s)
    {
      hide GoodVersion, MemtablesNewer, UniqueSeqs, Sorted, HistoryInv, PendingInv, NumberInv, LogInv, DiskInv, ReaderInv,
           ManifestInv, Runnable, Read;
      UsableIsServed(State(), s);
      r := DbGet(mem, if imm.Some? then imm.value else [], version, u, s);
    }

    /** The beginning of Get and of NewIterator: references to the memtables and the current version. */
    method BeginRead(s: nat) returns (r: Reader)
      requires Valid() && Usable(State(), s) && s <= lastSequence
      modifies this
      ensures Valid() && Took(old(State()), old(manifest), State(), manifest, PinStep(s))
      ensures r in readers && r.snapshot == s
    {
      hide Inv, Ok, Took, Next, Runnable, Usable;
      ghost var a := State();
      r := Reader(logNumber, mem, if imm.Some? then imm.value else [], version, s);
      readers := readers + [r];
      assert PinView(a, State(), s);
      PinIsNext(a, State(), s);
      TookQuietStep(a, State(), manifest, PinStep(s));
    }

    /** A lookup through references taken earlier, with the mutex released. */
    method ReadThrough(r: Reader, u: UserKey) returns (v: ReadResult)
      requires Valid() && r in readers
      ensures v == Read(ReaderEntries(r), u, r.snapshot)
      ensures SeesHistory(State()) ==> v == Read(history, u, r.snapshot)
    {
      hide Inv, ManifestInv, Runnable, Read, StoreSeesHistory, GoodVersion, MemtablesNewer, UniqueSeqs, Sorted, VersionNumbers;
      InvParts(State());
      ReaderMeaning(State(), r);
      v := DbGet(r.mem, r.imm, r.version, u, r.snapshot);
    }

    /** The `i`-th reader drops its references. */
    method EndRead(i: nat)
      requires Valid() && i < |readers|
      modifies this
      ensures Valid() && Took(old(State()), old(manifest), State(), manifest, UnpinStep(i))
    {
      hide Inv, Ok, Took, Next, Runnable;
      ghost var a := State();
      readers := readers[..i] + readers[i + 1..];
      assert UnpinView(a, State(), i);
      UnpinIsNext(a, State(), i);
      TookQuietStep(a, State(), manifest, UnpinStep(i));
    }

    /** GetSnapshot. */
    method GetSnapshot() returns (s: nat)
      requires Valid()
      modifies this
      ensures Valid() && Took(old(State()), old(manifest), State(), manifest, SnapshotStep)
      ensures s == lastSequence && s in snapshots
    {
      hide Inv, Ok, Took, Next, Runnable;
      ghost var a := State();
      s := lastSequence;
      snapshots := snapshots + [s];
      assert TakeSnapshot(a, State());
      SnapshotIsNext(a, State());
      TookQuietStep(a, State(), manifest, SnapshotStep);
    }

    /** ReleaseSnapshot of the `i`-th live snapshot. */
    method ReleaseSnapshot(i: nat)
      requires Valid() && i < |snapshots|
      modifies this
      ensures Valid() && Took(old(State()), old(manifest), State(), manifest, ReleaseStep(i))
    {
      hide Inv, Ok, Took, Next, Runnable;
      ghost var a := State();
      snapshots := snapshots[..i] + snapshots[i + 1..];
      assert DbState.ReleaseSnapshot(a, State(), i);
      ReleaseIsNext(a, State(), i);
      TookQuietStep(a, State(), manifest, ReleaseStep(i));
    }

    /** LogAndApply: the record names the log, the last sequence and the next file number, and its files
        make the new version. */
    method LogAndApply(e: Record, log: nat)
      requires LevelsSorted(version) && |e| == NUM_LEVELS
      modifies this`version, this`manifest, this`manifestLog, this`manifestSequence, this`manifestNext
      ensures IsInstalled(old(version), version, e) && manifest == old(manifest) + [e]
      ensures manifestLog == log && manifestSequence == lastSequence && manifestNext == nextFile
    {
      manifest, manifestLog, manifestSequence, manifestNext := manifest + [e], log, lastSequence, nextFile;
      version := InstallRecord(version, e);
    }

    /** WriteLevel0Table of a memtable that is not empty: a table, and the level it goes to. */
    method WriteLevel0Table(fileSize: nat, maxGrandparentOverlap: nat) returns (level: nat, meta: File)
      requires Valid() && imm.Some? && imm.value != []
      modifies this`nextFile, this`tables
      ensures nextFile == old(nextFile) + 1 && tables == old(tables) + {meta.number}
      ensures meta.number == old(nextFile) && IsTableOf(meta, imm.value)
      ensures level <= MAX_MEM_COMPACT_LEVEL
      ensures level > 0 ==> forall l, f | 0 <= l <= level && f in version[l] :: UserApart(f, meta)
    {
      hide Inv, Ok, Runnable, GoodVersion, LevelsSorted, UserApart, GoodFile, SequencesBounded, UniqueNumbers,
           UniqueSeqs, VersionNumbers, VersionEntries, Sorted;
      OkParts(State(), manifest);
      VersionFacts(State());
      meta := TableOf(nextFile, imm.value, fileSize);
      SortedTableIsGood(meta, imm.value);
      nextFile := nextFile + 1;
      tables := tables + {meta.number};
      level := PickLevelForMemTableOutput(version, meta, maxGrandparentOverlap);
    }

    /** The record of a flush, after which the memtable is gone. */
    method InstallFlush(e: Record, number: nat)
      requires LevelsSorted(version) && |e| == NUM_LEVELS
      modifies this`nextFile, this`imm, this`version, this`manifest, this`manifestLog, this`manifestSequence, this`manifestNext
      ensures nextFile == number && imm == None && IsInstalled(old(version), version, e) && manifest == old(manifest) + [e]
      ensures manifestLog == logNumber && manifestSequence == lastSequence && manifestNext == number
    {
      hide *;
      nextFile := number;
      LogAndApply(e, logNumber);
      imm := None;
    }

    /** An empty memtable makes no table, and its number stays unused. */
    method FlushNothing()
      requires Valid() && imm == Some([])
      modifies this`nextFile, this`imm, this`version, this`manifest, this`manifestLog, this`manifestSequence, this`manifestNext
      ensures Valid() && Took(old(State()), old(manifest), State(), manifest, FlushStep(0, NoFile()))
    {
      hide Inv, Ok, Took, Next, Runnable, GoodVersion, LevelsSorted, IsInstalled, SequencesBounded, UniqueNumbers, UniqueSeqs,
           VersionNumbers, VersionEntries, Sorted, IsRecord, LogsRecord;
      ghost var a, m := State(), manifest;
      OkParts(a, m);
      VersionFacts(a);
      VersionLength(version);
      InstallFlush(NoChange(), nextFile + 1);
      NothingInstalled(a.version, version);
      EmptyFlushIsNext(a, State(), NoFile());
      FlushIsRecord(a, 0, NoFile(), NoChange());
      TookLoggedStep(a, State(), m, NoChange(), FlushStep(0, NoFile()));
    }

    /** A memtable that is not empty: its table, and the record that adds it. */
    method FlushTable(fileSize: nat, maxGrandparentOverlap: nat) returns (level: nat, meta: File, ghost e: Record)
      requires Valid() && imm.Some? && imm.value != []
      modifies this`nextFile, this`tables, this`imm, this`version, this`manifest, this`manifestLog, this`manifestSequence,
        this`manifestNext
      ensures meta.number == old(nextFile) && IsTableOf(meta, old(imm.value)) && level <= MAX_MEM_COMPACT_LEVEL
      ensures level > 0 ==> forall l, f | 0 <= l <= level && f in old(version)[l] :: UserApart(f, meta)
      ensures e == NoChange()[level := LevelEdit({}, [meta])]
      ensures nextFile == old(nextFile) + 1 && tables == old(tables) + {meta.number} && imm == None
      ensures IsInstalled(old(version), version, e) && manifest == old(manifest) + [e]
      ensures manifestLog == logNumber && manifestSequence == lastSequence && manifestNext == nextFile
    {
      hide Inv, Ok, Runnable, GoodVersion, LevelsSorted, UserApart, GoodFile, SequencesBounded, UniqueNumbers, UniqueSeqs,
           VersionNumbers, VersionEntries, Sorted, IsTableOf, IsInstalled, SortedFiles;
      OkParts(State(), manifest);
      VersionFacts(State());
      VersionLength(version);
      level, meta := WriteLevel0Table(fileSize, maxGrandparentOverlap);
      e := NoChange()[level := LevelEdit({}, [meta])];
      InstallFlush(NoChange()[level := LevelEdit({}, [meta])], nextFile);
    }

    method FlushSomething(fileSize: nat, maxGrandparentOverlap: nat) returns (level: nat, meta: File)
      requires Valid() && imm.Some? && imm.value != []
      modifies this`nextFile, this`tables, this`imm, this`version, this`manifest, this`manifestLog, this`manifestSequence,
        this`manifestNext
      ensures Valid() && Took(old(State()), old(manifest), State(), manifest, FlushStep(level, meta))
      ensures level <= MAX_MEM_COMPACT_LEVEL
    {
      hide Inv, Ok, Took, Next, Runnable, GoodVersion, LevelsSorted, IsInstalled, Flushed, UserApart, GoodFile, SequencesBounded,
           UniqueNumbers, UniqueSeqs, VersionNumbers, VersionEntries, Sorted, IsRecord, LogsRecord, IsTableOf;
      ghost var a, m := State(), manifest;
      OkParts(a, m);
      VersionFacts(a);
      VersionLength(version);
      ghost var e;
      level, meta, e := FlushTable(fileSize, maxGrandparentOverlap);
      InstalledFlush(a.version, version, level, meta);
      TableFlushIsNext(a, State(), level, meta);
      FlushIsRecord(a, level, meta, e);
      TookLoggedStep(a, State(), m, e, FlushStep(level, meta));
    }

    /** CompactMemTable: WriteLevel0Table, then the record that makes the old log unnecessary. */
    method CompactMemTable(fileSize: nat, maxGrandparentOverlap: nat) returns (level: nat, table: File)
      requires Valid() && imm.Some?
      modifies this
      ensures Valid() && Took(old(State()), old(manifest), State(), manifest, FlushStep(level, table))
      ensures level <= MAX_MEM_COMPACT_LEVEL
    {
      hide Inv, Ok, Took, Next, Runnable;
      if imm.value == [] {
        level, table := 0, NoFile();
        FlushNothing();
      } else {
        level, table := FlushSomething(fileSize, maxGrandparentOverlap);
      }
    }

    /** PickCompaction at `level`, from the given file or from the one after the level's compaction pointer. */
    method PickCompaction(level: nat, seekFile: Option<File>, expandedLimit: nat) returns (in0: seq<File>, in1: seq<File>)
      requires Valid() && level + 1 < NUM_LEVELS && version[level] != []
      requires seekFile.Some? ==> seekFile.value in version[level]
      modifies this`compactPointers, this`grandparents
      ensures |compactPointers| == NUM_LEVELS
      ensures exists g :: IsLargest(in0, g) && compactPointers == old(compactPointers)[level := Some(g.largest)]
      ensures StartsFrom(version[level], old(compactPointers)[level], seekFile, in0)
      ensures forall f | f in Grandparents(version, level) :: f in grandparents <==> OverlapsHull(f, in0 + in1)
      ensures GoodInputs(version[level], version[level + 1], in0, in1)
      ensures InputsOrdered(Pending(level, in0, in1, version, 0))
    {
      hide Inv, GoodVersion, LevelsSorted, GoodInputs, SequencesBounded, UniqueNumbers, UniqueSeqs, VersionEntries, Sorted,
           InputsOrdered, GoodPair, GoodFiles, Disjoint, OverlapsHull, IsLargest, Seeded, StartsAt;
      OkParts(State(), manifest);
      VersionFacts(State());
      VersionLength(version);
      PairOf(version, level);
      var seed;
      if seekFile.Some? {
        seed := seekFile.value;
      } else {
        seed := FirstAfterPointer(version[level], compactPointers[level]);
      }
      var pointer;
      in0, in1, grandparents, pointer :=
        SetupInputs.PickCompaction(level, version[level], version[level + 1], Grandparents(version, level), seed, expandedLimit);
      compactPointers := compactPointers[level := Some(pointer)];
      SeededIsOrdered(level, version, in0, in1);
    }

    /** The trivial move of BackgroundCompaction. */
    method MoveFile(level: nat, f: File)
      requires Valid() && pending.None? && level + 1 < NUM_LEVELS
      requires GoodInputs(version[level], version[level + 1], [f], [])
      modifies this`version, this`manifest, this`manifestLog, this`manifestSequence, this`manifestNext
      ensures Valid() && Took(old(State()), old(manifest), State(), manifest, MoveStep(level, f))
    {
      hide Inv, Ok, Took, Next, Runnable, GoodVersion, LevelsSorted, IsInstalled, Replaced, GoodInputs, SequencesBounded, UniqueNumbers,
           UniqueSeqs, VersionNumbers, VersionEntries, Sorted, IsRecord, LogsRecord, SortedFiles;
      ghost var a, m := State(), manifest;
      OkParts(a, m);
      VersionFacts(a);
      VersionLength(version);
      var e := NoChange()[level := LevelEdit({f.number}, [])][level + 1 := LevelEdit({}, [f])];
      LogAndApply(e, manifestLog);
      MovedByRecord(a.version, version, level, f, e);
      MoveIsNext(a, State(), level, f);
      MoveIsRecord(level, f, e);
      TookLoggedStep(a, State(), m, e, MoveStep(level, f));
    }

    /** The version is pinned and the oldest snapshot to serve is fixed. */
    method Pin(level: nat, in0: seq<File>, in1: seq<File>)
      modifies this`pending
      ensures pending == Some(Pending(level, in0, in1, version, if snapshots == [] then lastSequence else snapshots[0]))
    {
      hide *;
      pending := Some(Pending(level, in0, in1, version, if snapshots == [] then lastSequence else snapshots[0]));
    }

    /** The start of DoCompactionWork, on the picked inputs. */
    method StartOn(level: nat, in0: seq<File>, in1: seq<File>)
      requires Valid() && pending.None? && level + 1 < NUM_LEVELS
      requires GoodInputs(version[level], version[level + 1], in0, in1) && InputsOrdered(Pending(level, in0, in1, version, 0))
      modifies this`pending
      ensures Valid() && pending.Some? && Took(old(State()), old(manifest), State(), manifest, StartStep(pending.value))
      ensures pending.value.level == level && pending.value.in0 == in0 && pending.value.in1 == in1
    {
      hide Inv, Ok, Took, Next, GoodVersion, LevelsSorted, GoodInputs, SequencesBounded, UniqueNumbers, UniqueSeqs,
           VersionEntries, Sorted, InputsOrdered, Runnable;
      ghost var a := State();
      OkParts(a, manifest);
      VersionFacts(a);
      VersionLength(version);
      Pin(level, in0, in1);
      ghost var p := pending.value;
      SmallestDoesNotOrder(level, in0, in1, version, p.smallest);
      PickedIsRunnable(p);
      StartIsNext(a, State(), p);
      TookQuietStep(a, State(), manifest, StartStep(p));
    }

    /** BackgroundCompaction at `level`, started by a file that was sought too often or by the level's size.
        The result says whether the compaction was a trivial move; otherwise it is left running. */
    method BackgroundCompaction(level: nat, seekFile: Option<File>, expandedLimit: nat, maxGrandparentOverlap: nat)
      returns (moved: bool)
      requires Valid() && pending.None? && imm.None? && level + 1 < NUM_LEVELS && version[level] != []
      requires seekFile.Some? ==> seekFile.value in version[level]
      modifies this
      ensures Valid()
      ensures moved ==> exists f :: Took(old(State()), old(manifest), State(), manifest, MoveStep(level, f))
                                   && StartsFrom(old(version)[level], old(compactPointers)[level], seekFile, [f])
      ensures !moved ==> pending.Some? && Took(old(State()), old(manifest), State(), manifest, StartStep(pending.value))
      ensures !moved ==> pending.value.level == level
                         && StartsFrom(old(version)[level], old(compactPointers)[level], seekFile, pending.value.in0)
      ensures moved ==> TotalFileSize(grandparents) <= maxGrandparentOverlap
      ensures !moved ==> |pending.value.in0| != 1 || pending.value.in1 != [] || TotalFileSize(grandparents) > maxGrandparentOverlap
    {
      hide Inv, Ok, Took, Next, GoodVersion, LevelsSorted, GoodInputs, SequencesBounded, UniqueNumbers, UniqueSeqs,
           VersionEntries, Sorted, InputsOrdered, StartsFrom, IsLargest;
      ghost var a := State();
      OkParts(a, manifest);
      VersionFacts(a);
      VersionLength(version);
      var in0, in1 := PickCompaction(level, seekFile, expandedLimit);
      assert State() == a;
      moved := |in0| == 1 && |in1| == 0 && TotalFileSize(grandparents) <= maxGrandparentOverlap;
      if moved {
        assert in0 == [in0[0]] && in1 == [];
        MoveFile(level, in0[0]);
      } else {
        StartOn(level, in0, in1);
      }
    }

    /** OpenCompactionOutputFile. */
    method OpenCompactionOutputFile() returns (number: nat)
      requires Valid() && pending.Some?
      modifies this`nextFile, this`pendingOutputs, this`tables
      ensures Valid() && Took(old(State()), old(manifest), State(), manifest, OpenStep)
      ensures number == old(nextFile) && nextFile == number + 1 && pendingOutputs == old(pendingOutputs) + {number}
    {
      hide Inv, Ok, Took, Next, Runnable;
      ghost var a := State();
      number := nextFile;
      nextFile := nextFile + 1;
      pendingOutputs := pendingOutputs + {number};
      tables := tables + {number};
      OpenIsNext(a, State());
      TookQuietStep(a, State(), manifest, OpenStep);
    }

    /** The loop of DoCompactionWork over the merged inputs.  It runs without the mutex and reads nothing
        that other threads change. */
    method CompactInputs(fileSize: seq<Entry> -> nat, maxOutputFileSize: nat, maxGrandparentOverlap: nat)
      returns (input: seq<Entry>, outputs: seq<seq<Entry>>)
      requires Valid() && pending.Some?
      ensures IsCompacted(pending.value, input, outputs)
    {
      hide Inv, GoodVersion, PendingOk, InputsOrdered, UniqueSeqs, VersionEntries, UniqueNumbers, SequencesBounded,
           LevelsSorted, Survivors, BaseKeys, InsEntries, Sorted;
      OkParts(State(), manifest);
      VersionFacts(State());
      PendingFacts(State());
      InputUnique(State());
      var p := pending.value;
      InputMerges(version, p);
      input := MergeAll(InputChildren(p));
      var c := new Compaction(p.level, p.base, grandparents, maxGrandparentOverlap);
      outputs := CompactionLoop.DoCompactionWork(c, input, p.smallest, fileSize, maxOutputFileSize);
    }

    /** The record of a compaction: its inputs are deleted, its outputs added (AddInputDeletions, AddFile). */
    method ReplaceInputs(p: Pending, outs: seq<File>, numbers: seq<nat>) returns (e: Record)
      requires LevelsSorted(version) && p.level + 1 < NUM_LEVELS
      modifies this`version, this`manifest, this`manifestLog, this`manifestSequence, this`manifestNext, this`pending, this`pendingOutputs
      ensures e == NoChange()[p.level := LevelEdit(Numbers(p.in0), [])][p.level + 1 := LevelEdit(Numbers(p.in1), outs)]
      ensures IsInstalled(old(version), version, e) && manifest == old(manifest) + [e]
      ensures manifestLog == old(manifestLog) && manifestSequence == lastSequence && manifestNext == nextFile
      ensures pending == None && forall n :: n in pendingOutputs <==> n in old(pendingOutputs) && n !in numbers
    {
      hide LevelsSorted, IsInstalled, Numbers, SortedFiles;
      var in0 := FileNumbers(p.in0);
      var in1 := FileNumbers(p.in1);
      e := NoChange()[p.level := LevelEdit(in0, [])][p.level + 1 := LevelEdit(in1, outs)];
      LogAndApply(e, manifestLog);
      pendingOutputs := EraseAll(pendingOutputs, numbers);
      pending := None;
    }

    /** InstallCompactionResults and CleanupCompaction: the inputs go, the finished tables come. */
    method InstallCompactionResults(ghost input: seq<Entry>, outputs: seq<seq<Entry>>, numbers: seq<nat>, sizes: seq<nat>)
      returns (outs: seq<File>)
      requires Valid() && pending.Some? && IsCompacted(pending.value, input, outputs)
      requires |numbers| == |outputs| == |sizes| && AllDifferent(numbers)
      requires forall n :: n in pendingOutputs <==> n in numbers
      modifies this
      ensures Valid() && Took(old(State()), old(manifest), State(), manifest, FinishStep(input, outputs, outs))
    {
      hide Inv, Ok, Took, Next, Runnable, GoodVersion, PendingOk, InputsOrdered, UniqueSeqs, VersionEntries, UniqueNumbers,
           SequencesBounded, LevelsSorted, Sorted, IsInstalled, Replaced, AreTables, VersionNumbers, Numbers, IsSubset;
      hide AllDifferent, IsCompacted, IsRecord, LogsRecord, SortedFiles;
      ghost var a, m := State(), manifest;
      OkParts(a, m);
      VersionFacts(a);
      PendingFacts(a);
      var p := pending.value;
      RunnableLevel(p);
      OutputsNotEmpty(p, input, outputs);
      outs := FinishedTables(outputs, numbers, sizes);
      ghost var e := ReplaceInputs(p, outs, numbers);
      OutputsArePending(a, outs, numbers);
      OutputNumbersAreNew(a, outs, p.level + 1);
      InstalledReplace(a.version, version, p.level, p.in0, p.in1, outs);
      AllErased(pendingOutputs, a.pendingOutputs, numbers);
      FinishIsNext(a, State(), input, outputs, outs);
      FinishIsRecord(a, FinishStep(input, outputs, outs), e);
      TookLoggedStep(a, State(), m, e, FinishStep(input, outputs, outs));
    }

    /** DoCompactionWork from the picked inputs to the installed outputs, when no other thread intervenes. */
    method DoCompactionWork(fileSize: seq<Entry> -> nat, maxOutputFileSize: nat, maxGrandparentOverlap: nat)
      returns (ghost states: seq<Db>, ghost steps: seq<Step>)
      requires Valid() && pending.Some? && pendingOutputs == {}
      modifies this
      ensures Valid() && pending.None? && IsPath(states, steps, old(State()), State())
    {
      hide Inv, Ok, Took, Next, Runnable, IsCompacted, Flatten;
      var input, outputs := CompactInputs(fileSize, maxOutputFileSize, maxGrandparentOverlap);
      ghost var a := State();
      states, steps := [a], [];
      var numbers: seq<nat> := [];
      var sizes: seq<nat> := [];
      for i := 0 to |outputs|
        invariant Valid() && pending == old(pending) && |numbers| == |sizes| == i
        invariant forall n :: n in pendingOutputs <==> n in numbers
        invariant AllDifferent(numbers) && forall n | n in numbers :: n < nextFile
        invariant IsPath(states, steps, a, State())
      {
        ghost var b := State();
        var number := OpenCompactionOutputFile();
        numbers, sizes := numbers + [number], sizes + [fileSize(outputs[i])];
        TookNext(b, manifest, State(), manifest, OpenStep);
        PathExtends(states, steps, a, b, State(), OpenStep);
        states, steps := states + [State()], steps + [OpenStep];
      }
      ghost var b := State();
      ghost var m := manifest;
      var outs := InstallCompactionResults(input, outputs, numbers, sizes);
      TookNext(b, m, State(), manifest, FinishStep(input, outputs, outs));
      PathExtends(states, steps, a, b, State(), FinishStep(input, outputs, outs));
      states, steps := states + [State()], steps + [FinishStep(input, outputs, outs)];
      FinishClears(b, State(), steps[|steps| - 1]);
    }

    /** DeleteObsoleteFiles. */
    method DeleteObsoleteFiles()
      requires Valid()
      modifies this`tables, this`logs
      ensures Valid() && Took(old(State()), old(manifest), State(), manifest, DeleteStep)
    {
      hide Inv, Ok, Took, Next, Runnable, VersionNumbers, PinnedNumbers;
      ghost var a := State();
      var live := AddLiveFiles(version, pendingOutputs);
      live := AddPinnedFiles(readers, live);
      if pending.Some? {
        live := AddLiveFiles(pending.value.base, live);
      }
      tables := KeepLiveTables(tables, live);
      logs := KeepLogsFrom(logs, manifestLog);
      assert live == LiveTables(a);
      DeleteIsNext(a, State());
      TookQuietStep(a, State(), manifest, DeleteStep);
    }

    /** What DB::Open sets up around the rebuilt version and the tables `ts` of the replayed logs: a new log and
        memtable, and a new manifest that starts with a snapshot of the version and makes the old logs
        unnecessary. */
    method Resume(rebuilt: Levels, ts: seq<File>, next: nat, last: nat, pointers: seq<Option<InternalKey>>)
      requires LevelsSorted(rebuilt)
      modifies this
      ensures IsInstalled(rebuilt, version, NoChange()[0 := LevelEdit({}, ts)])
      ensures manifest == [Snapshot(rebuilt), NoChange()[0 := LevelEdit({}, ts)]]
      ensures mem == [] && imm == None && lastSequence == last && snapshots == [] && readers == []
      ensures pending == None && pendingOutputs == {} && history == old(history) && compactPointers == pointers
      ensures nextFile == next + 1 && logs == old(logs)[next := []] && logNumber == next && immLog == 0
      ensures manifestLog == next && manifestSequence == last && manifestNext == next + 1 && tables == old(tables) + Numbers(ts)
    {
      hide LevelsSorted, IsInstalled, Numbers, Snapshot;
      StartEmpty(pointers);
      var written := FileNumbers(ts);
      ContinueFrom(rebuilt, written, next, last);
      LogAndApply(NoChange()[0 := LevelEdit({}, ts)], logNumber);
    }

    /** A new process has nothing in memory. */
    method StartEmpty(pointers: seq<Option<InternalKey>>)
      modifies this`mem, this`imm, this`immLog, this`snapshots, this`readers, this`pending, this`pendingOutputs, this`compactPointers
      ensures mem == [] && imm == None && immLog == 0 && snapshots == [] && readers == []
      ensures pending == None && pendingOutputs == {} && compactPointers == pointers
    {
      hide *;
      mem, imm, immLog, snapshots, readers, pending, pendingOutputs := [], None, 0, [], [], None, {};
      compactPointers := pointers;
    }

    method ContinueFrom(rebuilt: Levels, written: set<nat>, next: nat, last: nat)
      modifies this`lastSequence, this`nextFile, this`logNumber, this`logs, this`tables, this`version, this`manifest
      ensures lastSequence == last && nextFile == next + 1 && logNumber == next && logs == old(logs)[next := []]
      ensures tables == old(tables) + written && version == rebuilt && manifest == [Snapshot(rebuilt)]
    {
      hide *;
      lastSequence, nextFile, logNumber, logs, tables := last, next + 1, next, logs[next := []], tables + written;
      version, manifest := rebuilt, [Snapshot(rebuilt)];
    }

    /** A crash, then DB::Open from what is on disk.  A batch `extra` may have reached the log without having been
        acknowledged; `records` are the log files as the crash left them. */
    method CrashAndOpen(ghost extra: seq<Op>, records: map<nat, seq<seq<Entry>>>, isFull: seq<Entry> -> bool,
                        fileSize: seq<Entry> -> nat)
      returns (ts: seq<File>, replay: seq<nat>, ghost chunks: seq<seq<Entry>>)
      requires Valid() && lastSequence + |extra| < MAX_SEQUENCE
      requires logNumber in logs && HoldRecords(CrashLogs(State(), extra), records)
      modifies this
      ensures Valid() && Took(old(State()), old(manifest), State(), manifest, CrashStep(extra, replay, chunks, ts))
    {
      hide Inv, Ok, Took, Next, HoldRecords, CrashLogs, Recovered, ManifestInv;
      OkParts(State(), manifest);
      ManifestIsWellFormed(State(), manifest);
      var rebuilt := RebuildVersion(manifest);
      RebuildsCurrent(manifest, State(), rebuilt);
      ts, replay, chunks := OpenFrom(rebuilt, manifestLog, manifestSequence, manifestNext, seq(NUM_LEVELS, _ => None), extra,
                                     records, isFull, fileSize);
    }

    /** DB::Open with what was read from the manifest: the version, the numbers and the compaction pointers. */
    method OpenFrom(rebuilt: Levels, log: nat, sequence: nat, number: nat, pointers: seq<Option<InternalKey>>,
                    ghost extra: seq<Op>, records: map<nat, seq<seq<Entry>>>, isFull: seq<Entry> -> bool,
                    fileSize: seq<Entry> -> nat)
      returns (ts: seq<File>, replay: seq<nat>, ghost chunks: seq<seq<Entry>>)
      requires Valid() && lastSequence + |extra| < MAX_SEQUENCE && |pointers| == NUM_LEVELS
      requires rebuilt == version && log == manifestLog && sequence == manifestSequence && number == manifestNext
      requires logNumber in logs && HoldRecords(CrashLogs(State(), extra), records)
      modifies this
      ensures Valid() && Took(old(State()), old(manifest), State(), manifest, CrashStep(extra, replay, chunks, ts))
      ensures compactPointers == pointers
    {
      hide Inv, Ok, Took, Next, CrashAndRecover, HoldRecords, Stamp, GoodVersion, LevelsSorted, IsInstalled, SequencesBounded,
           UniqueNumbers, UniqueSeqs, VersionNumbers, VersionEntries, Sorted, Flatten, LogContents, CrashLogs, Increasing,
           TablesWritten, IsMaxSequence, AllIn, Runnable, RecoversVersion, Replays, Numbers, Elements, Recovered, Snapshot,
           ManifestInv;
      ghost var a, m := State(), manifest;
      OkParts(a, m);
      VersionFacts(a);
      var next, last;
      ts, next, last, replay, chunks :=
        Recover(records, log, sequence, number + 1, isFull, fileSize, CrashLogs(a, extra));
      ghost var batch := Stamp(extra, lastSequence + 1);
      CrashLeavesLogs(extra, records);
      Resume(rebuilt, ts, next, last, pointers);
      RecoveryInstalls(a, version, chunks, ts, a.manifestNext + 1, next);
      CrashIsNext(a, State(), extra, replay, chunks, ts, a.manifestNext + 1, next, batch);
      TookStep(a, m, State(), manifest, CrashStep(extra, replay, chunks, ts));
    }

    /** What the crash leaves of the logs is what is read from them. */
    method CrashLeavesLogs(ghost extra: seq<Op>, records: map<nat, seq<seq<Entry>>>)
      requires logNumber in logs && HoldRecords(CrashLogs(State(), extra), records)
      modifies this`logs, this`history
      ensures logs == old(logs)[logNumber := old(logs)[logNumber] + Stamp(extra, lastSequence + 1)]
      ensures history == old(history) + Elements(Stamp(extra, lastSequence + 1))
    {
      hide Stamp, Flatten, Ascending;
      ghost var crashed := CrashLogs(State(), extra);
      history, logs := history + Elements(Stamp(extra, lastSequence + 1)), map n | n in records :: Flatten(records[n]);
      assert logs == crashed;
    }
  }
}

/** Restart: the manifest's version and the logs it refers to give back every write. */
module DbRecovery {
  import opened InternalKeys
  import opened Mvcc
  import opened Version
  import opened Boundary
  import opened CompactionLoop
  import opened DropRules
  import opened VersionBuilder
  import opened Outputs
  import opened Install
  import opened Lookup
  import opened CompactionReads
  import opened DbState
  import opened DbSteps

  // ---- What the logs hold

  lemma ReplayedLogs(d: Db, replay: seq<nat>)
    requires LogInv(d) && ReplayOrder(d, replay)
    ensures replay == if d.imm.Some? then [d.immLog, d.logNumber] else [d.logNumber]
  {
    var wanted := if d.imm.Some? then [d.immLog, d.logNumber] else [d.logNumber];
    assert forall n :: n in replay <==> n in wanted;
    assert Increasing(replay) && Increasing(wanted);
    IncreasingUnique(replay, wanted);
  }

  ghost predicate Increasing(ns: seq<nat>) {
    forall i, j | 0 <= i < j < |ns| :: ns[i] < ns[j]
  }

  /** An increasing list is determined by its elements. */
  lemma {:induction false} IncreasingUnique(a: seq<nat>, b: seq<nat>)
    requires Increasing(a) && Increasing(b)
    requires forall n :: n in a <==> n in b
    ensures a == b
  {
    if a != [] && b != [] {
      var x, y := a[|a| - 1], b[|b| - 1];
      assert x in b && y in a;
      assert x == y;
      var a', b' := a[..|a| - 1], b[..|b| - 1];
      assert a == a' + [x] && b == b' + [x];
      assert x !in a' && x !in b';
      forall n
        ensures n in a' <==> n in b'
      {
        assert n in a <==> n in a' || n == x;
        assert n in b <==> n in b' || n == x;
      }
      IncreasingUnique(a', b');
    } else if a != [] {
      NonEmptyHasOne(a);
    } else if b != [] {
      NonEmptyHasOne(b);
    }
  }

  lemma NonEmptyHasOne(a: seq<nat>)
    requires a != []
    ensures exists n :: n in a
  {
    assert a[0] in a;
  }

  lemma ConcatAscending(a: seq<Entry>, b: seq<Entry>)
    requires Ascending(a) && Ascending(b)
    requires forall x, y | x in a && y in b :: x.k.sn < y.k.sn
    ensures Ascending(a + b)
  {
    forall i, j | 0 <= i < j < |a + b|
      ensures (a + b)[i].k.sn < (a + b)[j].k.sn
    {
      if i < |a| <= j {
        assert (a + b)[i] in a && (a + b)[j] in b;
      }
    }
  }

  lemma LogContentsOfOne(logs: map<nat, seq<Entry>>, n: nat)
    requires n in logs
    ensures LogContents(logs, [n]) == logs[n]
  {
    assert [n][..0] == [];
    assert LogContents(logs, []) == [];
  }

  lemma LogContentsOfTwo(logs: map<nat, seq<Entry>>, m: nat, n: nat)
    requires m in logs && n in logs
    ensures LogContents(logs, [m, n]) == logs[m] + logs[n]
  {
    assert [m, n][..1] == [m];
    LogContentsOfOne(logs, m);
  }

  /** What replaying the logs yields. */
  lemma ReplayedContents(a: Db, extra: seq<Op>, replay: seq<nat>)
    requires LogInv(a) && ReplayOrder(a, replay)
    ensures LogContents(CrashLogs(a, extra), replay)
            == (if a.imm.Some? then a.logs[a.immLog] else []) + (a.logs[a.logNumber] + Stamp(extra, a.lastSequence + 1))
  {
    hide LogContents, Stamp, Ascending, Elements;
    ReplayedLogs(a, replay);
    if a.imm.Some? {
      LogContentsOfTwo(CrashLogs(a, extra), a.immLog, a.logNumber);
    } else {
      LogContentsOfOne(CrashLogs(a, extra), a.logNumber);
      assert [] + CrashLogs(a, extra)[a.logNumber] == CrashLogs(a, extra)[a.logNumber];
    }
  }

  /** The replayed logs hold exactly the lost memtables and the unacknowledged batch, oldest first. */
  lemma ReplayedEntries(a: Db, extra: seq<Op>, replay: seq<nat>, chunks: seq<seq<Entry>>)
    requires Inv(a) && Replays(a, extra, replay, chunks)
    ensures Elements(Flatten(chunks)) == Elements(a.mem) + Elements(Imm(a)) + Elements(Stamp(extra, a.lastSequence + 1))
    ensures Ascending(Flatten(chunks))
  {
    hide *;
    var es := Stamp(extra, a.lastSequence + 1);
    InvParts(a);
    ReplayShape(a, extra, replay, chunks);
    StampFacts(extra, a.lastSequence + 1);
    LogGrows(a, es);
    ReplayedContents(a, extra, replay);
    if a.imm.Some? {
      ImmLogIsOlder(a, es);
      ImmLogHolds(a);
      ConcatAscending(a.logs[a.immLog], a.logs[a.logNumber] + es);
      ConcatElements(a.logs[a.immLog], a.logs[a.logNumber] + es);
    } else {
      NoImm(a);
      assert [] + (a.logs[a.logNumber] + es) == a.logs[a.logNumber] + es;
    }
  }

  lemma ReplayShape(a: Db, extra: seq<Op>, replay: seq<nat>, chunks: seq<seq<Entry>>)
    requires LogInv(a) && Replays(a, extra, replay, chunks)
    ensures a.logNumber in a.logs && (a.imm.Some? ==> a.immLog in a.logs) && ReplayOrder(a, replay)
    ensures (forall n | n in replay :: n in a.logs)
    ensures Flatten(chunks) == LogContents(CrashLogs(a, extra), replay)
  {
    hide Stamp, Flatten, LogContents, Ascending, Elements;
  }

  lemma ImmLogHolds(a: Db)
    requires LogInv(a) && a.imm.Some?
    ensures a.immLog in a.logs && Ascending(a.logs[a.immLog]) && Elements(a.logs[a.immLog]) == Elements(Imm(a))
  {
    hide Ascending, Elements;
  }

  lemma NoImm(a: Db)
    requires a.imm.None?
    ensures Elements(Imm(a)) == {}
  {
  }

  lemma ConcatElements(a: seq<Entry>, b: seq<Entry>)
    ensures Elements(a + b) == Elements(a) + Elements(b)
  {
  }

  lemma ImmLogIsOlder(a: Db, es: seq<Entry>)
    requires Inv(a) && a.imm.Some? && forall e | e in es :: e.k.sn > a.lastSequence
    ensures forall x, y | x in a.logs[a.immLog] && y in a.logs[a.logNumber] + es :: x.k.sn < y.k.sn
  {
    forall x, y | x in a.logs[a.immLog] && y in a.logs[a.logNumber] + es
      ensures x.k.sn < y.k.sn
    {
      assert x in Elements(a.imm.value);
      assert x in All(a);
      if y in a.logs[a.logNumber] {
        assert y in Elements(a.mem);
      }
    }
  }

  // ---- The recovered tables

  /** The memtables recovery fills follow each other in sequence order. */
  lemma {:induction false} ChunksAscending(chunks: seq<seq<Entry>>)
    requires Ascending(Flatten(chunks))
    ensures forall i, j, x, y | 0 <= i < j < |chunks| && x in chunks[i] && y in chunks[j] :: x.k.sn < y.k.sn
  {
    if chunks != [] {
      var init, last := chunks[..|chunks| - 1], chunks[|chunks| - 1];
      AscendingConcat(Flatten(init), last);
      ChunksAscending(init);
      FlattenElements(init);
      forall i, j, x, y | 0 <= i < j < |chunks| && x in chunks[i] && y in chunks[j]
        ensures x.k.sn < y.k.sn
      {
        assert x in init[i];
        if j < |init| {
          assert y in init[j];
        }
      }
    }
  }

  lemma AscendingConcat(a: seq<Entry>, b: seq<Entry>)
    requires Ascending(a + b)
    ensures Ascending(a)
    ensures forall x, y | x in a && y in b :: x.k.sn < y.k.sn
  {
    var s := a + b;
    forall i, j | 0 <= i < j < |a|
      ensures a[i].k.sn < a[j].k.sn
    {
      assert s[i] == a[i] && s[j] == a[j];
    }
    forall x, y | x in a && y in b
      ensures x.k.sn < y.k.sn
    {
      var i :| 0 <= i < |a| && a[i] == x;
      var j :| 0 <= j < |b| && b[j] == y;
      assert s[i] == x && s[|a| + j] == y;
    }
  }

  /** Each table is newer than everything before it, and carries a higher number. */
  ghost predicate TablesInOrder(v: Levels, ts: seq<File>) {
    && |v| > 0
    && (forall t | t in ts :: GoodFile(t))
    && (forall l, f, t | 0 <= l < |v| && f in v[l] && t in ts :: AllNewer(t, f))
    && (forall i, j | 0 <= i < j < |ts| :: AllNewer(ts[j], ts[i]) && ts[i].number < ts[j].number)
    && (forall f, t | f in v[0] && t in ts :: f.number < t.number)
  }

  /** Adding tables in one edit is adding them one after the other. */
  lemma {:induction false} FlushedAllGood(v: Levels, w: Levels, ts: seq<File>)
    requires GoodVersion(v) && FlushedAll(v, w, ts) && TablesInOrder(v, ts)
    ensures GoodVersion(w)
    decreases |ts|
  {
    hide GoodVersion, FlushedAll, TablesInOrder, Flushed, FlushOk;
    if ts == [] {
      LevelZeroSorted(v);
      NothingFlushed(v, w);
    } else {
      var init, n := ts[..|ts| - 1], ts[|ts| - 1];
      assert ts == init + [n];
      EarlierTablesInOrder(v, init, n);
      var u := WithoutLast(v, init);
      FlushedAllGood(v, u, init);
      LastIsFlushed(v, u, w, init, n);
      FlushKeepsInvariant(u, w, 0, n);
    }
  }

  lemma LevelZeroSorted(v: Levels)
    requires GoodVersion(v)
    ensures |v| > 0 && SortedFiles(v[0])
  {
  }

  lemma EarlierTablesInOrder(v: Levels, init: seq<File>, n: File)
    requires TablesInOrder(v, init + [n])
    ensures TablesInOrder(v, init)
  {
    hide AllNewer, GoodFile;
    var ts := init + [n];
    assert forall t | t in init :: t in ts;
    assert forall i | 0 <= i < |init| :: ts[i] == init[i];
  }

  lemma NothingFlushed(v: Levels, w: Levels)
    requires FlushedAll(v, w, []) && SortedFiles(v[0])
    ensures w == v
  {
    SortedFilesUnique(w[0], v[0]);
  }

  lemma WithoutLast(v: Levels, init: seq<File>) returns (u: Levels)
    requires GoodVersion(v) && TablesInOrder(v, init)
    ensures FlushedAll(v, u, init)
  {
    var edit := LevelEdit({}, init);
    assert Numbers(init) !! Numbers(v[0]);
    EditLevel(v[0], edit);
    u := v[0 := SaveLevel(v[0], Apply(EMPTY_STATE, edit))];
  }

  lemma LastIsFlushed(v: Levels, u: Levels, w: Levels, init: seq<File>, n: File)
    requires FlushedAll(v, u, init) && FlushedAll(v, w, init + [n]) && TablesInOrder(v, init + [n])
    ensures Flushed(u, w, 0, n) && FlushOk(u, 0, n)
  {
    var ts := init + [n];
    assert n in ts;
    forall i | 0 <= i < |init|
      ensures AllNewer(n, init[i]) && init[i].number < n.number
    {
      assert ts[i] == init[i] && ts[|init|] == n;
    }
    forall l, f | 0 <= l < |u| && f in u[l]
      ensures AllNewer(n, f)
      ensures l == 0 ==> f.number < n.number
    {
      if l == 0 && f in init {
        var i :| 0 <= i < |init| && init[i] == f;
      } else {
        assert f in v[l];
      }
    }
  }

  lemma RecoveredEntries(v: Levels, w: Levels, chunks: seq<seq<Entry>>, ts: seq<File>)
    requires FlushedAll(v, w, ts) && RecoveredTables(chunks, ts)
    ensures VersionEntries(w) == VersionEntries(v) + Elements(Flatten(chunks))
  {
    FlattenElements(chunks);
    forall e | e in VersionEntries(w)
      ensures e in VersionEntries(v) + Elements(Flatten(chunks))
    {
      var l, f := VersionEntryFile(w, e);
      if l == 0 && f in ts {
        var i :| 0 <= i < |ts| && ts[i] == f;
        assert e in Elements(ts[i].entries);
        assert e in chunks[i];
      } else {
        FileEntryInVersion(v, l, f, e);
      }
    }
    forall e | e in VersionEntries(v)
      ensures e in VersionEntries(w)
    {
      var l, f := VersionEntryFile(v, e);
      FileEntryInVersion(w, l, f, e);
    }
    forall e | e in Flatten(chunks)
      ensures e in VersionEntries(w)
    {
      var i :| 0 <= i < |chunks| && e in chunks[i];
      assert e in Elements(ts[i].entries);
      assert ts[i] in w[0];
      FileEntryInVersion(w, 0, ts[i], e);
    }
  }

  lemma NonEmptyVersion(a: Db)
    requires LsmInv(a)
    ensures |a.version| > 0
  {
  }

  lemma RecoveredInOrder(a: Db, w: Levels, extra: seq<Op>, replay: seq<nat>, chunks: seq<seq<Entry>>, ts: seq<File>)
    requires Inv(a) && Replays(a, extra, replay, chunks) && RecoversVersion(a, w, chunks, ts)
    ensures TablesInOrder(a.version, ts)
  {
    hide Replays, FlushedAll, LsmInv, HistoryInv, SnapshotInv, PendingInv, LogInv, DiskInv, UniqueNumbers, GoodFile, AllNewer, Flatten, Ascending, Stamp;
    InvParts(a);
    NonEmptyVersion(a);
    ReplayedEntries(a, extra, replay, chunks);
    RecoveredAmongThemselves(chunks, ts);
    forall t | t in ts
      ensures GoodFile(t)
    {
      var i :| 0 <= i < |ts| && ts[i] == t;
    }
    forall l, f, t | 0 <= l < |a.version| && f in a.version[l] && t in ts
      ensures AllNewer(t, f) && f.number < t.number
    {
      var i :| 0 <= i < |ts| && ts[i] == t;
      RecoveredIsNewer(a, extra, chunks, i, t, l, f);
      assert f.number in VersionNumbers(a.version);
    }
  }

  lemma RecoveredAmongThemselves(chunks: seq<seq<Entry>>, ts: seq<File>)
    requires Ascending(Flatten(chunks)) && RecoveredTables(chunks, ts)
    ensures forall i, j | 0 <= i < j < |ts| :: AllNewer(ts[j], ts[i]) && ts[i].number < ts[j].number
  {
    ChunksAscending(chunks);
    forall i, j | 0 <= i < j < |ts|
      ensures AllNewer(ts[j], ts[i]) && ts[i].number < ts[j].number
    {
      forall x, y | x in ts[j].entries && y in ts[i].entries
        ensures x.k.sn > y.k.sn
      {
        assert x in Elements(ts[j].entries) && y in Elements(ts[i].entries);
        assert x in chunks[j] && y in chunks[i];
      }
    }
  }

  lemma RecoveredIsNewer(a: Db, extra: seq<Op>, chunks: seq<seq<Entry>>, i: nat, t: File, l: nat, f: File)
    requires Inv(a)
    requires Elements(Flatten(chunks)) == Elements(a.mem) + Elements(Imm(a)) + Elements(Stamp(extra, a.lastSequence + 1))
    requires i < |chunks| && Elements(t.entries) == Elements(chunks[i])
    requires l < |a.version| && f in a.version[l]
    ensures AllNewer(t, f)
  {
    FlattenElements(chunks);
    StampFacts(extra, a.lastSequence + 1);
    forall x, y | x in t.entries && y in f.entries
      ensures x.k.sn > y.k.sn
    {
      assert x in Elements(t.entries);
      assert x in chunks[i];
      assert x in Elements(Flatten(chunks));
      FileEntryInVersion(a.version, l, f, y);
      assert y in All(a);
    }
  }

  // ---- The invariant after recovery

  lemma RecoveredAll(a: Db, b: Db, extra: seq<Op>, replay: seq<nat>, chunks: seq<seq<Entry>>, ts: seq<File>)
    requires Inv(a) && CrashAndRecover(a, b, extra, replay, chunks, ts)
    ensures All(b) == All(a) + Elements(Stamp(extra, a.lastSequence + 1))
  {
    ReplayedEntries(a, extra, replay, chunks);
    RecoveredEntries(a.version, b.version, chunks, ts);
    MemoryMovedToVersion(a.mem, Imm(a), a.version, Elements(Stamp(extra, a.lastSequence + 1)), b.version);
  }

  lemma MemoryMovedToVersion(mem: seq<Entry>, imm: seq<Entry>, v: Levels, es: set<Entry>, w: Levels)
    requires VersionEntries(w) == VersionEntries(v) + (Elements(mem) + Elements(imm) + es)
    ensures AllEntries([], [], w) == AllEntries(mem, imm, v) + es
  {
  }

  lemma RecoveredHistory(a: Db, b: Db, extra: seq<Op>, replay: seq<nat>, chunks: seq<seq<Entry>>, ts: seq<File>)
    requires Inv(a) && CrashAndRecover(a, b, extra, replay, chunks, ts)
    ensures UniqueSeqs(b.history) && All(b) <= b.history
  {
    hide *;
    var es := Stamp(extra, a.lastSequence + 1);
    CrashShape(a, b, extra, replay, chunks, ts);
    InvParts(a);
    RecoveredAll(a, b, extra, replay, chunks, ts);
    StampFacts(extra, a.lastSequence + 1);
    AscendingUnique(es);
    WrittenUnique(a, b, es);
    AllIsHistory(a, b, es);
  }

  /** The recovered sequence bounds everything written. */
  lemma RecoveredSequence(a: Db, b: Db, extra: seq<Op>, replay: seq<nat>, chunks: seq<seq<Entry>>, ts: seq<File>)
    requires Inv(a) && CrashAndRecover(a, b, extra, replay, chunks, ts)
    ensures forall e | e in b.history :: e.k.sn <= b.lastSequence
    ensures b.lastSequence < MAX_SEQUENCE
  {
    var es := Stamp(extra, a.lastSequence + 1);
    ReplayedEntries(a, extra, replay, chunks);
    StampFacts(extra, a.lastSequence + 1);
    forall e | e in b.history
      ensures e.k.sn <= b.lastSequence
    {
      if e in es || e in a.mem || e in Imm(a) {
        assert e in Elements(Flatten(chunks));
      }
    }
    if e :| e in Flatten(chunks) && e.k.sn == b.lastSequence {
      assert e in Elements(Flatten(chunks));
      assert e in All(a) || e in es;
    }
  }

  lemma RecoverLsm(a: Db, b: Db, extra: seq<Op>, replay: seq<nat>, chunks: seq<seq<Entry>>, ts: seq<File>)
    requires Inv(a) && CrashAndRecover(a, b, extra, replay, chunks, ts)
    ensures LsmInv(b)
  {
    hide *;
    CrashShape(a, b, extra, replay, chunks, ts);
    InvParts(a);
    VersionIsGood(a);
    RecoveredInOrder(a, b.version, extra, replay, chunks, ts);
    FlushedAllGood(a.version, b.version, ts);
    RecoveredHistory(a, b, extra, replay, chunks, ts);
    SubsetUniqueSeqs(All(b), b.history);
    EmptyMemoryReadable(b);
  }

  lemma EmptyMemoryReadable(b: Db)
    requires GoodVersion(b.version) && b.mem == [] && b.imm.None? && UniqueSeqs(All(b))
    ensures LsmInv(b)
  {
    hide GoodVersion, UniqueSeqs;
  }

  /** What recovery leaves. */
  lemma CrashShape(a: Db, b: Db, extra: seq<Op>, replay: seq<nat>, chunks: seq<seq<Entry>>, ts: seq<File>)
    requires CrashAndRecover(a, b, extra, replay, chunks, ts)
    ensures a.logNumber in a.logs
    ensures Replays(a, extra, replay, chunks) && RecoversVersion(a, b.version, chunks, ts)
    ensures FlushedAll(a.version, b.version, ts)
    ensures IsMaxSequence(b.lastSequence, a.manifestSequence, Flatten(chunks))
    ensures b.mem == [] && b.imm.None? && b.snapshots == [] && b.readers == [] && b.pending.None?
    ensures b.history == a.history + Elements(Stamp(extra, a.lastSequence + 1))
    ensures b.logs == CrashLogs(a, extra)[b.logNumber := []]
    ensures b.manifestLog == b.logNumber && b.manifestSequence == b.lastSequence
    ensures a.lastSequence + |extra| < MAX_SEQUENCE
    ensures forall n | n in a.logs :: n < b.logNumber < b.nextFile
  {
    hide Stamp, FlushedAll, IsMaxSequence, Flatten, CrashLogs, RecoveredTables, LogContents, ReplayOrder;
  }

  lemma RecoverHistory(a: Db, b: Db, extra: seq<Op>, replay: seq<nat>, chunks: seq<seq<Entry>>, ts: seq<File>)
    requires Inv(a) && CrashAndRecover(a, b, extra, replay, chunks, ts)
    ensures HistoryInv(b)
  {
    hide *;
    RecoveredHistory(a, b, extra, replay, chunks, ts);
    RecoveredSequence(a, b, extra, replay, chunks, ts);
    HistoryRestarts(b);
  }

  lemma HistoryRestarts(b: Db)
    requires UniqueSeqs(b.history) && All(b) <= b.history
    requires forall e | e in b.history :: e.k.sn <= b.lastSequence
    requires b.lastSequence < MAX_SEQUENCE
    ensures HistoryInv(b)
  {
    hide All, UniqueSeqs;
  }

  lemma RecoveredNumbers(v: Levels, w: Levels, ts: seq<File>, next: nat)
    requires FlushedAll(v, w, ts) && UniqueNumbers(v)
    requires forall n | n in VersionNumbers(v) :: n < next
    requires forall t | t in ts :: next <= t.number
    requires forall i, j | 0 <= i < j < |ts| :: ts[i].number < ts[j].number
    ensures UniqueNumbers(w)
    ensures VersionNumbers(w) <= VersionNumbers(v) + Numbers(ts)
  {
    RecoveredNumberOrigin(v, w, ts, next);
    IncreasingNumbersDistinct(ts);
    forall l, m, f, g | 0 <= l < |w| && 0 <= m < |w| && f in w[l] && g in w[m] && f.number == g.number
      ensures l == m && f == g
    {
      if f.number < next {
        assert f in v[l] && g in v[m];
      } else {
        assert f in ts && g in ts;
      }
    }
  }

  lemma RecoveredNumberOrigin(v: Levels, w: Levels, ts: seq<File>, next: nat)
    requires FlushedAll(v, w, ts)
    requires forall n | n in VersionNumbers(v) :: n < next
    requires forall t | t in ts :: next <= t.number
    ensures forall l, f | 0 <= l < |w| && f in w[l] ::
              (l == 0 && f in ts && next <= f.number) || (f in v[l] && f.number in VersionNumbers(v) && f.number < next)
  {
    forall l, f | 0 <= l < |w| && f in w[l]
      ensures (l == 0 && f in ts && next <= f.number) || (f in v[l] && f.number in VersionNumbers(v) && f.number < next)
    {
      if f in v[l] {
        assert f.number in VersionNumbers(v);
      }
    }
  }

  lemma IncreasingNumbersDistinct(ts: seq<File>)
    requires forall i, j | 0 <= i < j < |ts| :: ts[i].number < ts[j].number
    ensures forall f, g | f in ts && g in ts && f.number == g.number :: f == g
  {
    forall f, g | f in ts && g in ts && f.number == g.number
      ensures f == g
    {
      var i :| 0 <= i < |ts| && ts[i] == f;
      var j :| 0 <= j < |ts| && ts[j] == g;
      assert i == j;
    }
  }

  lemma RecoverFiles(a: Db, b: Db, extra: seq<Op>, replay: seq<nat>, chunks: seq<seq<Entry>>, ts: seq<File>)
    requires NumberInv(a) && DiskInv(a) && CrashAndRecover(a, b, extra, replay, chunks, ts)
    ensures NumberInv(b) && DiskInv(b)
  {
    RecoveredNumbers(a.version, b.version, ts, a.manifestNext);
  }

  lemma RecoverLogs(a: Db, b: Db, extra: seq<Op>, replay: seq<nat>, chunks: seq<seq<Entry>>, ts: seq<File>)
    requires Inv(a) && CrashAndRecover(a, b, extra, replay, chunks, ts)
    ensures LogInv(b)
  {
    hide *;
    var es := Stamp(extra, a.lastSequence + 1);
    CrashShape(a, b, extra, replay, chunks, ts);
    InvParts(a);
    StampFacts(extra, a.lastSequence + 1);
    LogGrows(a, es);
    RecoveredSequence(a, b, extra, replay, chunks, ts);
    CrashLogOf(a, extra);
    RecoveredLogsOrdered(a, b, extra);
    FreshLog(b);
  }

  lemma CrashLogOf(a: Db, extra: seq<Op>)
    requires a.logNumber in a.logs
    ensures a.logNumber in CrashLogs(a, extra)
    ensures CrashLogs(a, extra)[a.logNumber] == a.logs[a.logNumber] + Stamp(extra, a.lastSequence + 1)
  {
    hide Stamp;
  }

  lemma FreshLog(b: Db)
    requires b.mem == [] && b.imm.None? && b.logNumber in b.logs && b.logs[b.logNumber] == []
    requires b.manifestLog == b.logNumber && b.manifestSequence == b.lastSequence
    requires forall n | n in b.logs :: n <= b.logNumber < b.nextFile && Ascending(b.logs[n])
    requires forall e | e in b.history :: e.k.sn <= b.lastSequence
    ensures LogInv(b)
  {
    hide Ascending;
  }

  lemma RecoveredLogsOrdered(a: Db, b: Db, extra: seq<Op>)
    requires LogInv(a) && Ascending(CrashLogs(a, extra)[a.logNumber])
    requires b.logs == CrashLogs(a, extra)[b.logNumber := []]
    requires forall n | n in a.logs :: n < b.logNumber < b.nextFile
    ensures forall n | n in b.logs :: n <= b.logNumber < b.nextFile && Ascending(b.logs[n])
  {
  }

  /** A restart after a crash keeps the invariant: no acknowledged write is lost. */
  lemma CrashKeepsInv(a: Db, b: Db, extra: seq<Op>, replay: seq<nat>, chunks: seq<seq<Entry>>, ts: seq<File>)
    requires Inv(a) && CrashAndRecover(a, b, extra, replay, chunks, ts)
    ensures Inv(b)
  {
    hide LsmInv, HistoryInv, PendingInv, NumberInv, LogInv, DiskInv, SnapshotInv, CrashAndRecover;
    InvParts(a);
    RecoverLsm(a, b, extra, replay, chunks, ts);
    RecoverHistory(a, b, extra, replay, chunks, ts);
    RecoverFiles(a, b, extra, replay, chunks, ts);
    RecoverLogs(a, b, extra, replay, chunks, ts);
    NothingPending(a, b, extra, replay, chunks, ts);
  }

  lemma NothingPending(a: Db, b: Db, extra: seq<Op>, replay: seq<nat>, chunks: seq<seq<Entry>>, ts: seq<File>)
    requires CrashAndRecover(a, b, extra, replay, chunks, ts)
    ensures PendingInv(b) && SnapshotInv(b) && ReaderInv(b)
  {
    hide Stamp, FlushedAll, IsMaxSequence, Flatten, CrashLogs, RecoversVersion, Replays;
  }
}

/** Every step of the store keeps the invariant. */
module DbSteps {
  import opened InternalKeys
  import opened Mvcc
  import opened Version
  import opened Inputs
  import opened Boundary
  import opened Picking
  import opened DropRules
  import opened CompactionLoop
  import opened VersionBuilder
  import opened Outputs
  import opened Install
  import opened Lookup
  import opened InFlight
  import opened CompactionReads
  import opened DbState

  lemma InvParts(d: Db)
    requires Inv(d)
    ensures LsmInv(d) && HistoryInv(d) && SnapshotInv(d) && PendingInv(d) && NumberInv(d) && LogInv(d) && DiskInv(d) && ReaderInv(d)
  {
  }

  /** Everything in the memtables was written. */
  lemma MemoryIsHistory(d: Db)
    requires HistoryInv(d)
    ensures forall e | e in d.mem || e in Imm(d) || e in VersionEntries(d.version) :: e in d.history && e.k.sn <= d.lastSequence
  {
    hide VersionEntries;
    forall e | e in d.mem || e in Imm(d) || e in VersionEntries(d.version)
      ensures e in d.history
    {
      assert e in All(d);
    }
  }

  /** Steps that leave the memtable alone and delete no table leave the readers in order. */
  lemma ReadersStay(a: Db, b: Db)
    requires ReaderInv(a) && (forall r | r in b.readers :: r in a.readers)
    requires b.mem == a.mem && b.logNumber == a.logNumber
    requires a.history <= b.history && a.lastSequence <= b.lastSequence && a.tables <= b.tables
    ensures ReaderInv(b)
  {
    hide Readable, ReaderEntries, VersionNumbers;
  }

  // ---- Write

  lemma StampFacts(ops: seq<Op>, first: nat)
    ensures Ascending(Stamp(ops, first))
    ensures forall e | e in Stamp(ops, first) :: first <= e.k.sn < first + |ops|
  {
  }

  lemma {:induction false} MemAddAllMeaning(mem: seq<Entry>, es: seq<Entry>)
    requires Sorted(mem) && Ascending(es)
    requires forall x, e | x in mem && e in es :: x.k.sn != e.k.sn
    ensures Sorted(MemAddAll(mem, es))
    ensures Elements(MemAddAll(mem, es)) == Elements(mem) + Elements(es)
    decreases |es|
  {
    if es != [] {
      assert es[0] in es;
      InsertByKeyMeaning(mem, es[0]);
      assert forall x | x in InsertByKey(mem, es[0]) :: x in Elements(InsertByKey(mem, es[0]));
      MemAddAllMeaning(InsertByKey(mem, es[0]), es[1..]);
      assert Elements(es) == {es[0]} + Elements(es[1..]) by {
        assert es == [es[0]] + es[1..];
      }
    }
  }

  lemma WriteAll(a: Db, b: Db, ops: seq<Op>)
    requires Inv(a) && Write(a, b, ops)
    ensures Sorted(b.mem)
    ensures Elements(b.mem) == Elements(a.mem) + Elements(Stamp(ops, a.lastSequence + 1))
    ensures All(b) == All(a) + Elements(Stamp(ops, a.lastSequence + 1))
    ensures UniqueSeqs(b.history)
  {
    hide *;
    var es := Stamp(ops, a.lastSequence + 1);
    InvParts(a);
    WriteShape(a, b, ops, es);
    StampFacts(ops, a.lastSequence + 1);
    MemoryIsHistory(a);
    SortedMemtable(a);
    MemAddAllMeaning(a.mem, es);
    MemtableGrows(a, b, es);
    AscendingUnique(es);
    WrittenUnique(a, b, es);
  }

  lemma WriteShape(a: Db, b: Db, ops: seq<Op>, es: seq<Entry>)
    requires Write(a, b, ops) && es == Stamp(ops, a.lastSequence + 1)
    ensures a.logNumber in a.logs && a.lastSequence + |ops| < MAX_SEQUENCE
    ensures b == a.(history := a.history + Elements(es), mem := MemAddAll(a.mem, es),
                    lastSequence := a.lastSequence + |ops|,
                    readers := GrowReaders(a.readers, a.logNumber, MemAddAll(a.mem, es)),
                    logs := a.logs[a.logNumber := a.logs[a.logNumber] + es])
  {
    hide *;
    BatchIsStamped(a, ops);
    WriteMeaning(a, b, ops);
    WrittenShape(a, es, a.lastSequence + |ops|);
  }

  lemma BatchIsStamped(a: Db, ops: seq<Op>)
    ensures BatchEntries(a, ops) == Stamp(ops, a.lastSequence + 1)
  {
    hide Stamp;
  }

  lemma WriteMeaning(a: Db, b: Db, ops: seq<Op>)
    ensures Write(a, b, ops) <==>
              && a.logNumber in a.logs && a.lastSequence + |ops| < MAX_SEQUENCE
              && b == Written(a, BatchEntries(a, ops), a.lastSequence + |ops|)
  {
    hide Written, BatchEntries;
  }

  lemma WrittenShape(a: Db, es: seq<Entry>, last: nat)
    requires a.logNumber in a.logs
    ensures Written(a, es, last) == a.(history := a.history + Elements(es), mem := MemAddAll(a.mem, es), lastSequence := last,
                                       readers := GrowReaders(a.readers, a.logNumber, MemAddAll(a.mem, es)),
                                       logs := a.logs[a.logNumber := a.logs[a.logNumber] + es])
  {
    hide MemAddAll, Elements, GrowReaders;
  }

  lemma SortedMemtable(d: Db)
    requires LsmInv(d)
    ensures Sorted(d.mem)
  {
  }

  lemma MemtableGrows(a: Db, b: Db, es: seq<Entry>)
    requires b.imm == a.imm && b.version == a.version && Elements(b.mem) == Elements(a.mem) + Elements(es)
    ensures All(b) == All(a) + Elements(es)
  {
    hide VersionEntries;
  }

  lemma WrittenUnique(a: Db, b: Db, es: seq<Entry>)
    requires HistoryInv(a) && UniqueSeqs(Elements(es)) && b.history == a.history + Elements(es)
    requires forall e | e in es :: e.k.sn > a.lastSequence
    ensures UniqueSeqs(b.history)
  {
    UniqueUnion(a.history, Elements(es), a.lastSequence);
  }

  lemma AscendingUnique(es: seq<Entry>)
    requires Ascending(es)
    ensures UniqueSeqs(Elements(es))
  {
    forall x, y | x in es && y in es && x.k.sn == y.k.sn
      ensures x == y
    {
      var i :| 0 <= i < |es| && es[i] == x;
      var j :| 0 <= j < |es| && es[j] == y;
    }
  }

  lemma UniqueUnion(h: set<Entry>, n: set<Entry>, last: nat)
    requires UniqueSeqs(h) && UniqueSeqs(n)
    requires (forall e | e in h :: e.k.sn <= last) && (forall e | e in n :: e.k.sn > last)
    ensures UniqueSeqs(h + n)
  {
  }

  lemma WriteLsm(a: Db, b: Db, ops: seq<Op>)
    requires Inv(a) && Write(a, b, ops)
    ensures LsmInv(b)
  {
    hide *;
    var es := Stamp(ops, a.lastSequence + 1);
    InvParts(a);
    WriteAll(a, b, ops);
    WriteShape(a, b, ops, es);
    StampFacts(ops, a.lastSequence + 1);
    MemoryIsHistory(a);
    AllIsHistory(a, b, es);
    SubsetUniqueSeqs(All(b), b.history);
    WriteKeepsReadable(a, b, es);
  }

  lemma AllIsHistory(a: Db, b: Db, es: seq<Entry>)
    requires HistoryInv(a) && All(b) == All(a) + Elements(es) && b.history == a.history + Elements(es)
    ensures All(b) <= b.history
  {
    hide All, UniqueSeqs;
  }

  lemma WriteKeepsReadable(a: Db, b: Db, es: seq<Entry>)
    requires LsmInv(a) && Sorted(b.mem) && UniqueSeqs(All(b))
    requires b.imm == a.imm && b.version == a.version && Elements(b.mem) == Elements(a.mem) + Elements(es)
    requires forall e | e in Imm(a) || e in VersionEntries(a.version) :: e.k.sn <= a.lastSequence
    requires forall e | e in es :: e.k.sn > a.lastSequence
    ensures LsmInv(b)
  {
    hide GoodVersion, Sorted, UniqueSeqs, VersionEntries;
    ViewGrows(a.mem, b.mem, Imm(a), a.version, es, a.lastSequence);
  }

  /** A memtable that gains newer entries leaves what a reader looks at in order. */
  lemma ViewGrows(mem: seq<Entry>, more: seq<Entry>, imm: seq<Entry>, v: Levels, es: seq<Entry>, last: nat)
    requires Readable(mem, imm, v) && Sorted(more) && Elements(more) == Elements(mem) + Elements(es)
    requires UniqueSeqs(AllEntries(more, imm, v))
    requires forall e | e in imm || e in VersionEntries(v) :: e.k.sn <= last
    requires forall e | e in es :: e.k.sn > last
    ensures Readable(more, imm, v)
  {
    hide GoodVersion, Sorted, UniqueSeqs, VersionEntries;
    forall x | x in more
      ensures x in mem || x in es
    {
      assert x in Elements(more);
    }
  }

  lemma WriteHistory(a: Db, b: Db, ops: seq<Op>)
    requires Inv(a) && Write(a, b, ops)
    ensures HistoryInv(b)
  {
    hide *;
    var es := Stamp(ops, a.lastSequence + 1);
    InvParts(a);
    WriteAll(a, b, ops);
    WriteShape(a, b, ops, es);
    StampFacts(ops, a.lastSequence + 1);
    AllIsHistory(a, b, es);
    HistoryGrows(a, b, es);
  }

  lemma HistoryGrows(a: Db, b: Db, es: seq<Entry>)
    requires HistoryInv(a) && UniqueSeqs(b.history) && All(b) <= b.history
    requires b.history == a.history + Elements(es)
    requires forall e | e in es :: a.lastSequence < e.k.sn <= b.lastSequence
    requires a.lastSequence <= b.lastSequence < MAX_SEQUENCE
    ensures HistoryInv(b)
  {
    hide All, UniqueSeqs;
  }

  lemma WriteReaders(a: Db, b: Db, ops: seq<Op>)
    requires Inv(a) && Write(a, b, ops)
    ensures ReaderInv(b)
  {
    hide *;
    var es := Stamp(ops, a.lastSequence + 1);
    InvParts(a);
    WriteAll(a, b, ops);
    WriteShape(a, b, ops, es);
    StampFacts(ops, a.lastSequence + 1);
    forall r | r in b.readers
      ensures ReaderOk(b, r)
    {
      var q := GrownReader(a, b.mem, r);
      ReaderMeaning(a, q);
      if q.log == a.logNumber {
        GrownReaderOk(a, b, es, q, r);
      } else {
        OtherReaderOk(a, b, r);
      }
    }
    AllReadersOk(b);
  }

  lemma AllReadersOk(d: Db)
    requires forall r | r in d.readers :: ReaderOk(d, r)
    ensures ReaderInv(d)
  {
    hide ReaderOk;
  }

  lemma GrownReader(a: Db, mem: seq<Entry>, r: Reader) returns (q: Reader)
    requires r in GrowReaders(a.readers, a.logNumber, mem)
    ensures q in a.readers && r == if q.log == a.logNumber then q.(mem := mem) else q
  {
    var i :| 0 <= i < |a.readers| && GrowReaders(a.readers, a.logNumber, mem)[i] == r;
    q := a.readers[i];
  }

  lemma ReaderMeaning(d: Db, r: Reader)
    requires ReaderInv(d) && r in d.readers
    ensures ReaderOk(d, r)
  {
    hide ReaderOk;
  }

  lemma OtherReaderOk(a: Db, b: Db, r: Reader)
    requires ReaderOk(a, r) && r.log != a.logNumber && b.logNumber == a.logNumber
    requires a.history <= b.history && a.lastSequence <= b.lastSequence && a.tables <= b.tables
    ensures ReaderOk(b, r)
  {
    hide Readable, ReaderEntries, VersionNumbers;
  }

  lemma GrownReaderOk(a: Db, b: Db, es: seq<Entry>, q: Reader, r: Reader)
    requires HistoryInv(a) && ReaderOk(a, q) && q.log == a.logNumber && r == q.(mem := b.mem)
    requires Sorted(b.mem) && Elements(b.mem) == Elements(a.mem) + Elements(es)
    requires b.history == a.history + Elements(es) && UniqueSeqs(b.history)
    requires b.logNumber == a.logNumber && a.lastSequence <= b.lastSequence && b.tables == a.tables
    requires forall e | e in es :: e.k.sn > a.lastSequence
    ensures ReaderOk(b, r)
  {
    hide GoodVersion, VersionEntries, VersionNumbers, Sorted, UniqueSeqs;
    assert ReaderEntries(r) == ReaderEntries(q) + Elements(es);
    SubsetUniqueSeqs(ReaderEntries(r), b.history);
    forall e | e in q.imm || e in VersionEntries(q.version)
      ensures e.k.sn <= a.lastSequence
    {
      assert e in ReaderEntries(q);
    }
    ViewGrows(q.mem, r.mem, q.imm, q.version, es, a.lastSequence);
  }

  lemma WriteLogs(a: Db, b: Db, ops: seq<Op>)
    requires Inv(a) && Write(a, b, ops)
    ensures LogInv(b)
  {
    hide *;
    var es := Stamp(ops, a.lastSequence + 1);
    InvParts(a);
    WriteAll(a, b, ops);
    WriteShape(a, b, ops, es);
    StampFacts(ops, a.lastSequence + 1);
    LogGrows(a, es);
    WriteUnlogged(a, b, es);
    WriteLogFiles(a, b, es);
  }

  lemma WriteLogFiles(a: Db, b: Db, es: seq<Entry>)
    requires LogInv(a) && Elements(b.mem) == Elements(a.mem) + Elements(es)
    requires Ascending(a.logs[a.logNumber] + es)
    requires Elements(a.logs[a.logNumber] + es) == Elements(a.mem) + Elements(es)
    requires b == a.(history := b.history, mem := b.mem, lastSequence := b.lastSequence, readers := b.readers,
                     logs := a.logs[a.logNumber := a.logs[a.logNumber] + es])
    requires a.lastSequence <= b.lastSequence
    requires forall e | e in b.history && e !in b.mem && e !in Imm(b) :: e.k.sn <= b.manifestSequence
    ensures LogInv(b)
  {
    hide Ascending, Elements;
  }

  lemma WriteUnlogged(a: Db, b: Db, es: seq<Entry>)
    requires LogInv(a) && b.history == a.history + Elements(es) && Elements(b.mem) == Elements(a.mem) + Elements(es)
    requires b.imm == a.imm && b.manifestSequence == a.manifestSequence
    ensures forall e | e in b.history && e !in b.mem && e !in Imm(b) :: e.k.sn <= b.manifestSequence
  {
    forall e | e in b.history && e !in b.mem && e !in Imm(b)
      ensures e.k.sn <= b.manifestSequence
    {
      assert e !in Elements(b.mem);
    }
  }

  lemma LogGrows(a: Db, es: seq<Entry>)
    requires Inv(a) && Ascending(es) && forall e | e in es :: e.k.sn > a.lastSequence
    ensures Ascending(a.logs[a.logNumber] + es)
    ensures Elements(a.logs[a.logNumber] + es) == Elements(a.mem) + Elements(es)
  {
    hide LsmInv, PendingInv, NumberInv, DiskInv, SnapshotInv, UniqueSeqs, All;
    var was := a.logs[a.logNumber];
    MemoryIsHistory(a);
    forall e | e in was
      ensures e.k.sn <= a.lastSequence
    {
      assert e in Elements(a.mem);
    }
    forall i, j | 0 <= i < j < |was + es|
      ensures (was + es)[i].k.sn < (was + es)[j].k.sn
    {
      if j >= |was| {
        assert (was + es)[j] in es;
        if i < |was| {
          assert (was + es)[i] in was;
        }
      }
    }
  }

  lemma WriteKeepsInv(a: Db, b: Db, ops: seq<Op>)
    requires Inv(a) && Write(a, b, ops)
    ensures Inv(b)
  {
    hide LsmInv, HistoryInv, SnapshotInv, PendingInv, NumberInv, LogInv, DiskInv, ReaderInv, Write;
    InvParts(a);
    WriteLsm(a, b, ops);
    WriteHistory(a, b, ops);
    WriteLogs(a, b, ops);
    WriteReaders(a, b, ops);
    WriteOthers(a, b, ops);
  }

  lemma WriteOthers(a: Db, b: Db, ops: seq<Op>)
    requires SnapshotInv(a) && PendingInv(a) && NumberInv(a) && DiskInv(a) && Write(a, b, ops)
    ensures SnapshotInv(b) && PendingInv(b) && NumberInv(b) && DiskInv(b)
  {
    hide BatchEntries, MemAddAll, PendingOk, UniqueNumbers, VersionNumbers, GrowReaders;
  }

  // ---- Memtable switch

  lemma SwitchKeepsInv(a: Db, b: Db)
    requires Inv(a) && SwitchMemtable(a, b)
    ensures Inv(b)
  {
    hide Readable, PendingOk, UniqueSeqs, UniqueNumbers, VersionNumbers, ReaderInv;
    SwitchReadable(a, b);
    SwitchReaders(a, b);
    assert Ascending(b.logs[b.logNumber]);
  }

  lemma SwitchReadable(a: Db, b: Db)
    requires LsmInv(a) && SwitchMemtable(a, b)
    ensures LsmInv(b) && All(b) == All(a)
  {
    hide GoodVersion, UniqueSeqs, VersionEntries;
    assert Imm(b) == a.mem && Imm(a) == [] && b.mem == [];
    assert AllEntries(b.mem, Imm(b), b.version) == AllEntries(a.mem, Imm(a), a.version);
  }

  lemma SwitchReaders(a: Db, b: Db)
    requires ReaderInv(a) && LogInv(a) && SwitchMemtable(a, b)
    ensures ReaderInv(b)
  {
    hide Readable, ReaderEntries, VersionNumbers, Ascending;
    assert a.logNumber < b.logNumber;
    forall r | r in b.readers
      ensures ReaderOk(b, r)
    {
      assert ReaderOk(a, r);
    }
  }

  // ---- Memtable flush

  /** The flushed table satisfies what its placement needs. */
  lemma FlushIsOk(a: Db, b: Db, p: nat, n: File)
    requires Inv(a) && CompactMemTable(a, b, p, n) && a.imm.value != []
    ensures FlushOk(a.version, p, n)
  {
    forall l, f | 0 <= l < |a.version| && f in a.version[l]
      ensures AllNewer(n, f) && f.number < n.number
    {
      forall x, y | x in n.entries && y in f.entries
        ensures x.k.sn > y.k.sn
      {
        FileEntryInVersion(a.version, l, f, y);
      }
      assert f.number in VersionNumbers(a.version);
    }
  }

  lemma FlushedEntries(v: Levels, w: Levels, p: nat, n: File)
    requires Flushed(v, w, p, n)
    ensures VersionEntries(w) == VersionEntries(v) + Elements(n.entries)
    ensures VersionNumbers(w) == VersionNumbers(v) + {n.number}
  {
    forall e | e in VersionEntries(w)
      ensures e in VersionEntries(v) + Elements(n.entries)
    {
      var l, f := VersionEntryFile(w, e);
      if f != n {
        FileEntryInVersion(v, l, f, e);
      }
    }
    forall e | e in VersionEntries(v)
      ensures e in VersionEntries(w)
    {
      var l, f := VersionEntryFile(v, e);
      assert f in w[l];
      FileEntryInVersion(w, l, f, e);
    }
    assert n in w[p];
    forall e | e in n.entries
      ensures e in VersionEntries(w)
    {
      FileEntryInVersion(w, p, n, e);
    }
    forall m | m in VersionNumbers(v)
      ensures m in VersionNumbers(w)
    {
      var l, f :| 0 <= l < |v| && f in v[l] && f.number == m;
      assert f in w[l];
    }
  }

  lemma FlushedMemtablesNewer(mem: seq<Entry>, imm: seq<Entry>, v: Levels, w: Levels)
    requires MemtablesNewer(mem, imm, v)
    requires VersionEntries(w) == VersionEntries(v) + Elements(imm)
    ensures MemtablesNewer(mem, [], w)
    ensures AllEntries(mem, [], w) == AllEntries(mem, imm, v)
  {
  }

  lemma FlushLsm(a: Db, b: Db, p: nat, n: File)
    requires Inv(a) && CompactMemTable(a, b, p, n) && a.imm.value != []
    ensures LsmInv(b) && All(b) == All(a)
  {
    FlushIsOk(a, b, p, n);
    FlushKeepsInvariant(a.version, b.version, p, n);
    FlushedEntries(a.version, b.version, p, n);
    FlushedMemtablesNewer(a.mem, a.imm.value, a.version, b.version);
  }

  lemma FlushedNumbers(v: Levels, w: Levels, p: nat, n: File)
    requires Flushed(v, w, p, n) && UniqueNumbers(v) && n.number !in VersionNumbers(v)
    ensures UniqueNumbers(w)
  {
    forall l, f | 0 <= l < |w| && f in w[l]
      ensures (l == p && f == n) || (f in v[l] && f.number != n.number)
    {
      if f in v[l] {
        assert f.number in VersionNumbers(v);
      }
    }
    forall l, m, f, g | 0 <= l < |w| && 0 <= m < |w| && f in w[l] && g in w[m] && f.number == g.number
      ensures l == m && f == g
    {
    }
  }

  lemma FlushNumbers(a: Db, b: Db, p: nat, n: File)
    requires NumberInv(a) && DiskInv(a) && CompactMemTable(a, b, p, n) && a.imm.value != []
    ensures NumberInv(b) && DiskInv(b)
  {
    hide Flushed, IsTableOf, UserApart, VersionNumbers, VersionEntries, UniqueNumbers;
    assert n.number !in VersionNumbers(a.version);
    FlushedEntries(a.version, b.version, p, n);
    FlushedNumbers(a.version, b.version, p, n);
  }

  lemma FlushPendingInv(a: Db, b: Db, p: nat, n: File)
    requires Inv(a) && CompactMemTable(a, b, p, n) && a.imm.value != []
    ensures PendingInv(b)
  {
    if a.pending.Some? {
      FlushIsOk(a, b, p, n);
      FlushKeepsPending(a.version, b.version, p, n, a.pending.value);
    }
  }

  lemma FlushLogs(a: Db, b: Db, p: nat, n: File)
    requires Inv(a) && CompactMemTable(a, b, p, n)
    ensures LogInv(b)
  {
  }

  lemma FlushKeepsInv(a: Db, b: Db, p: nat, n: File)
    requires Inv(a) && CompactMemTable(a, b, p, n)
    ensures Inv(b)
  {
    hide LogInv, ReaderInv, Readable, PendingOk, UniqueSeqs, UniqueNumbers, Flushed, VersionNumbers;
    FlushLogs(a, b, p, n);
    ReadersStay(a, b);
    if a.imm.value == [] {
      assert All(b) == All(a);
    } else {
      FlushLsm(a, b, p, n);
      FlushNumbers(a, b, p, n);
      FlushPendingInv(a, b, p, n);
    }
  }

  // ---- Compaction

  lemma StartKeepsInv(a: Db, b: Db, p: Pending)
    requires Inv(a) && StartCompaction(a, b, p)
    ensures Inv(b)
  {
    hide LogInv, ReaderInv, UniqueSeqs, UniqueNumbers, VersionNumbers, GoodInputs, PendingOk, GoodVersion, MemtablesNewer;
    PickedIsPending(a.version, p);
    assert All(b) == All(a);
    ReadersStay(a, b);
    SameLogs(a, b);
  }

  lemma SameLogs(a: Db, b: Db)
    requires LogInv(a) && b == a.(pending := b.pending)
    ensures LogInv(b)
  {
  }

  lemma OpenKeepsInv(a: Db, b: Db)
    requires Inv(a) && OpenOutput(a, b)
    ensures Inv(b)
  {
    hide Readable, PendingOk, UniqueSeqs, UniqueNumbers, VersionNumbers, ReaderInv;
    assert All(b) == All(a);
    assert a.nextFile !in VersionNumbers(a.version);
    ReadersStay(a, b);
  }

  /** The finished tables fit where the inputs were. */
  lemma FinishReplaceOk(a: Db, b: Db, input: seq<Entry>, outputs: seq<seq<Entry>>, outs: seq<File>)
    requires Inv(a) && FinishCompaction(a, b, input, outputs, outs)
    ensures var p := a.pending.value;
            && ReplaceOk(a.version, p.level, p.in0, p.in1, outs)
            && FileEntries(outs) == Kept(InsEntries(p), p.smallest, BaseKeys(p.base, p.level))
  {
    var p := a.pending.value;
    var base := BaseKeys(p.base, p.level);
    SurvivorsAreKept(input, p.smallest, base);
    TablesMeaning(outs, outputs);
  }

  /** Replacing inputs by outputs introduces no number but the outputs'. */
  lemma ReplacedNumbers(v: Levels, w: Levels, level: nat, in0: seq<File>, in1: seq<File>, outs: seq<File>, numbers: set<nat>)
    requires Replaced(v, w, level, in0, in1, outs) && UniqueNumbers(v)
    requires forall f | f in outs :: f.number in numbers
    requires numbers !! VersionNumbers(v)
    requires forall i, j | 0 <= i < j < |outs| :: outs[i].number != outs[j].number
    ensures UniqueNumbers(w)
    ensures VersionNumbers(w) <= VersionNumbers(v) + numbers
  {
    forall l, f | 0 <= l < |w| && f in w[l]
      ensures (l == level + 1 && f in outs) || (f in v[l] && f.number in VersionNumbers(v))
    {
    }
    forall l, m, f, g | 0 <= l < |w| && 0 <= m < |w| && f in w[l] && g in w[m] && f.number == g.number
      ensures l == m && f == g
    {
      if f in v[l] && g in v[m] {
      } else if f in outs && g in outs {
        var i :| 0 <= i < |outs| && outs[i] == f;
        var j :| 0 <= j < |outs| && outs[j] == g;
        assert i == j;
      }
    }
  }

  lemma FinishFiles(a: Db, b: Db, input: seq<Entry>, outputs: seq<seq<Entry>>, outs: seq<File>)
    requires Inv(a) && FinishCompaction(a, b, input, outputs, outs)
    ensures NumberInv(b) && DiskInv(b) && LogInv(b)
  {
    var p := a.pending.value;
    ReplacedNumbers(a.version, b.version, p.level, p.in0, p.in1, outs, a.pendingOutputs);
  }

  lemma FinishKeepsInv(a: Db, b: Db, input: seq<Entry>, outputs: seq<seq<Entry>>, outs: seq<File>)
    requires Inv(a) && FinishCompaction(a, b, input, outputs, outs)
    ensures Inv(b)
  {
    hide LsmInv, HistoryInv, SnapshotInv, NumberInv, LogInv, DiskInv, ReaderInv, PendingOk, Replaced, ReplaceOk,
         Sorted, AreTables, Survivors, BaseKeys, Kept;
    InvParts(a);
    VersionIsGood(a);
    var p := a.pending.value;
    FinishReplaceOk(a, b, input, outputs, outs);
    ReplaceKeepsInvariant(a.version, b.version, p.level, p.in0, p.in1, outs);
    FinishLsm(a, b, p, outs);
    HistoryStays(a, b);
    FinishFiles(a, b, input, outputs, outs);
    SameSnapshots(a, b);
    ReadersStay(a, b);
  }

  lemma SameSnapshots(a: Db, b: Db)
    requires SnapshotInv(a) && b.snapshots == a.snapshots && b.lastSequence == a.lastSequence
    ensures SnapshotInv(b)
  {
  }

  /** A store that only lost entries, the sequence numbers staying. */
  lemma HistoryStays(a: Db, b: Db)
    requires HistoryInv(a) && b.history == a.history && All(b) <= All(a) && b.lastSequence == a.lastSequence
    ensures HistoryInv(b)
  {
    hide All, UniqueSeqs;
  }

  lemma FinishLsm(a: Db, b: Db, p: Pending, outs: seq<File>)
    requires LsmInv(a) && HistoryInv(a) && PendingInv(a) && a.pending == Some(p) && GoodVersion(b.version)
    requires Replaced(a.version, b.version, p.level, p.in0, p.in1, outs)
    requires FileEntries(outs) == Kept(InsEntries(p), p.smallest, BaseKeys(p.base, p.level))
    requires b == a.(version := b.version, pending := None, pendingOutputs := {},
                     manifestSequence := a.lastSequence, manifestNext := a.nextFile)
    ensures LsmInv(b) && All(b) <= All(a)
  {
    var base := BaseKeys(p.base, p.level);
    InstalledAll(a.mem, Imm(a), a.version, b.version, p, outs, base);
    InstalledEntries(a.version, b.version, p, outs);
    InsEntriesInVersion(a.version, p);
    assert VersionEntries(b.version) <= VersionEntries(a.version);
    SubsetUniqueSeqs(All(b), All(a));
  }

  // ---- Trivial move

  /** A move is a replacement by the file itself. */
  lemma MoveReplaceOk(a: Db, b: Db, level: nat, f: File)
    requires Inv(a) && TrivialMove(a, b, level, f)
    ensures ReplaceOk(a.version, level, [f], [], [f])
    ensures PendingOk(a.version, Pending(level, [f], [], a.version, 0))
  {
    hide *;
    MoveShape(a, b, level, f);
    InvParts(a);
    VersionIsGood(a);
    PickedIsPending(a.version, Pending(level, [f], [], a.version, 0));
    MoveIsReplace(a.version, level, f);
  }

  lemma VersionIsGood(a: Db)
    requires LsmInv(a)
    ensures GoodVersion(a.version)
  {
  }

  lemma MoveShape(a: Db, b: Db, level: nat, f: File)
    requires TrivialMove(a, b, level, f)
    ensures level + 1 < |a.version|
    ensures GoodInputs(a.version[level], a.version[level + 1], [f], [])
    ensures Replaced(a.version, b.version, level, [f], [], [f])
  {
    hide GoodInputs, Replaced;
  }

  lemma MoveIsReplace(v: Levels, level: nat, f: File)
    requires GoodVersion(v) && level + 1 < |v| && PendingOk(v, Pending(level, [f], [], v, 0))
    ensures ReplaceOk(v, level, [f], [], [f])
  {
    hide LeftNewer, Unbroken, OverlapsHull, KeepsApart, SortedFiles, LevelsNewer, NewestByNumber, DeeperApart;
    var p := Pending(level, [f], [], v, 0);
    assert f in [f];
    assert f in v[level];
    assert GoodFiles([f]);
    assert p.Ins() == [f] + [];
    forall g | g in v[level + 1]
      ensures KeepsApart(g, [f] + [])
    {
      assert ParentApart(g, p);
    }
  }

  lemma MoveNumbers(v: Levels, w: Levels, level: nat, f: File)
    requires Replaced(v, w, level, [f], [], [f]) && UniqueNumbers(v) && f in v[level]
    ensures UniqueNumbers(w) && VersionNumbers(w) <= VersionNumbers(v)
  {
    forall l, g | 0 <= l < |w| && g in w[l]
      ensures if l == level + 1 && g == f then true else g in v[l] && (l == level ==> g != f)
      ensures g.number in VersionNumbers(v)
    {
      assert l == level + 1 && g in [f] ==> g == f;
      assert f.number in VersionNumbers(v);
    }
    forall l, m, g, h | 0 <= l < |w| && 0 <= m < |w| && g in w[l] && h in w[m] && g.number == h.number
      ensures l == m && g == h
    {
      MovedFileOnce(v, w, level, f, l, g, m, h);
    }
  }

  lemma MovedFileOnce(v: Levels, w: Levels, level: nat, f: File, l: nat, g: File, m: nat, h: File)
    requires UniqueNumbers(v) && level + 1 < |v| == |w| && f in v[level] && l < |w| && m < |w|
    requires if l == level + 1 && g == f then true else g in v[l] && (l == level ==> g != f)
    requires if m == level + 1 && h == f then true else h in v[m] && (m == level ==> h != f)
    requires g.number == h.number
    ensures l == m && g == h
  {
    hide UniqueNumbers;
    if l == level + 1 && g == f {
      if !(m == level + 1 && h == f) {
        SameNumberSameFile(v, m, h, level, f);
      }
    } else if m == level + 1 && h == f {
      SameNumberSameFile(v, l, g, level, f);
    } else {
      SameNumberSameFile(v, l, g, m, h);
    }
  }

  lemma SameNumberSameFile(v: Levels, l: nat, f: File, m: nat, g: File)
    requires UniqueNumbers(v) && l < |v| && m < |v| && f in v[l] && g in v[m] && f.number == g.number
    ensures l == m && f == g
  {
  }

  lemma MovedEntries(a: Db, b: Db, level: nat, f: File)
    requires Inv(a) && TrivialMove(a, b, level, f)
    ensures GoodVersion(b.version)
    ensures VersionEntries(b.version) == VersionEntries(a.version)
  {
    var p := Pending(level, [f], [], a.version, 0);
    MoveReplaceOk(a, b, level, f);
    ReplaceKeepsInvariant(a.version, b.version, level, [f], [], [f]);
    InstalledEntries(a.version, b.version, p, [f]);
    assert p.Ins() == [f];
    InsEntriesInVersion(a.version, p);
  }

  lemma MoveFiles(a: Db, b: Db, level: nat, f: File)
    requires NumberInv(a) && DiskInv(a) && PendingInv(a) && TrivialMove(a, b, level, f)
    ensures NumberInv(b) && DiskInv(b)
  {
    assert f in [f];
    MoveNumbers(a.version, b.version, level, f);
  }

  lemma MoveReads(a: Db, b: Db, level: nat, f: File)
    requires LsmInv(a) && HistoryInv(a) && TrivialMove(a, b, level, f)
    requires GoodVersion(b.version) && VersionEntries(b.version) == VersionEntries(a.version)
    ensures LsmInv(b) && HistoryInv(b)
  {
    hide GoodVersion, VersionEntries, Replaced, GoodInputs, UniqueSeqs;
    assert All(b) == All(a);
  }

  lemma MoveKeepsInv(a: Db, b: Db, level: nat, f: File)
    requires Inv(a) && TrivialMove(a, b, level, f)
    ensures Inv(b)
  {
    hide LsmInv, HistoryInv, NumberInv, DiskInv, ReaderInv, GoodInputs, Replaced, GoodVersion, VersionEntries;
    MovedEntries(a, b, level, f);
    MoveReads(a, b, level, f);
    MoveFiles(a, b, level, f);
    ReadersStay(a, b);
  }

  // ---- Snapshots and garbage collection

  lemma SnapshotKeepsInv(a: Db, b: Db)
    requires Inv(a) && TakeSnapshot(a, b)
    ensures Inv(b)
  {
    hide Readable, PendingOk, UniqueSeqs, UniqueNumbers, VersionNumbers, ReaderInv, LogInv;
    assert All(b) == All(a);
    assert Floor(b) == Floor(a);
    ReadersStay(a, b);
    SnapshotLogs(a, b);
  }

  lemma SnapshotLogs(a: Db, b: Db)
    requires LogInv(a) && b == a.(snapshots := b.snapshots)
    ensures LogInv(b)
  {
  }

  lemma ReleaseFloor(a: Db, b: Db, i: nat)
    requires SnapshotInv(a) && ReleaseSnapshot(a, b, i)
    ensures SnapshotInv(b) && Floor(a) <= Floor(b)
  {
    forall j | 0 <= j < |b.snapshots|
      ensures b.snapshots[j] == a.snapshots[if j < i then j else j + 1]
    {
    }
    if b.snapshots != [] {
      assert a.snapshots[0] <= a.snapshots[if 0 < i then 0 else 1];
    }
  }

  lemma ReleaseKeepsInv(a: Db, b: Db, i: nat)
    requires Inv(a) && ReleaseSnapshot(a, b, i)
    ensures Inv(b)
  {
    hide Readable, PendingOk, UniqueSeqs, UniqueNumbers, VersionNumbers, ReaderInv, LogInv;
    assert All(b) == All(a);
    ReleaseFloor(a, b, i);
    ReadersStay(a, b);
    SnapshotLogs(a, b);
  }

  lemma DeleteKeepsLogs(a: Db, b: Db)
    requires LogInv(a) && DeleteObsolete(a, b)
    ensures LogInv(b)
  {
  }

  lemma PinnedIsLive(d: Db, r: Reader)
    requires r in d.readers
    ensures VersionNumbers(r.version) <= PinnedNumbers(d.readers)
  {
    hide VersionNumbers;
  }

  /** What readers, the running compaction and the current version refer to is not deleted. */
  lemma DeleteKeepsTables(a: Db, b: Db)
    requires DiskInv(a) && ReaderInv(a) && DeleteObsolete(a, b)
    ensures DiskInv(b) && ReaderInv(b)
  {
    hide VersionNumbers, Readable, ReaderEntries, PinnedNumbers;
    forall r | r in b.readers
      ensures ReaderOk(b, r)
    {
      PinnedIsLive(a, r);
    }
  }

  lemma DeleteKeepsInv(a: Db, b: Db)
    requires Inv(a) && DeleteObsolete(a, b)
    ensures Inv(b)
  {
    hide LogInv, ReaderInv, DiskInv, Readable, PendingOk, UniqueSeqs, UniqueNumbers, LiveTables, VersionNumbers;
    DeleteKeepsLogs(a, b);
    DeleteKeepsTables(a, b);
    assert All(b) == All(a);
  }

  // ---- Readers

  lemma PinKeepsInv(a: Db, b: Db, s: nat)
    requires Inv(a) && PinView(a, b, s)
    ensures Inv(b)
  {
    hide LogInv, ReaderInv, Readable, PendingOk, UniqueSeqs, UniqueNumbers, VersionNumbers, Usable;
    assert All(b) == All(a);
    var r := b.readers[|a.readers|];
    assert ReaderEntries(r) == All(a);
    forall q | q in b.readers
      ensures ReaderOk(b, q)
    {
      if q != r {
        assert q in a.readers;
        ReaderMeaning(a, q);
      }
    }
    AllReadersOk(b);
    PinnedLogs(a, b);
  }

  lemma PinnedLogs(a: Db, b: Db)
    requires LogInv(a) && b == a.(readers := b.readers)
    ensures LogInv(b)
  {
  }

  lemma UnpinKeepsInv(a: Db, b: Db, i: nat)
    requires Inv(a) && UnpinView(a, b, i)
    ensures Inv(b)
  {
    hide LogInv, ReaderInv, Readable, PendingOk, UniqueSeqs, UniqueNumbers, VersionNumbers;
    assert All(b) == All(a);
    ReadersStay(a, b);
    PinnedLogs(a, b);
  }
}

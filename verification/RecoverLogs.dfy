/** DBImpl::Recover: the logs from the manifest's on, replayed into level-0 tables. */
module RecoverLogs {
  import opened InternalKeys
  import opened Version
  import opened CompactionLoop
  import opened Outputs
  import opened DbState
  import opened DbSteps
  import opened DbRecovery

  /** Insertion into the sorted list of log numbers. */
  function InsertNumber(ns: seq<nat>, n: nat): (r: seq<nat>)
    requires Increasing(ns) && n !in ns
    ensures Increasing(r) && forall m :: m in r <==> m in ns || m == n
  {
    if ns == [] then [n]
    else if n < ns[0] then [n] + ns
    else
      var rest := InsertNumber(ns[1..], n);
      LeastFirst(ns, n, rest);
      [ns[0]] + rest
  }

  lemma LeastFirst(ns: seq<nat>, n: nat, rest: seq<nat>)
    requires Increasing(ns) && ns != [] && ns[0] <= n && n !in ns && Increasing(rest)
    requires forall m :: m in rest <==> m in ns[1..] || m == n
    ensures Increasing([ns[0]] + rest)
    ensures forall m :: m in [ns[0]] + rest <==> m in ns || m == n
  {
    forall m | m in rest
      ensures ns[0] < m
    {
      if m != n {
        var i :| 0 <= i < |ns[1..]| && ns[1..][i] == m;
        assert ns[i + 1] == m;
      }
    }
    var r := [ns[0]] + rest;
    forall i, j | 0 <= i < j < |r|
      ensures r[i] < r[j]
    {
      assert r[j] == rest[j - 1] && rest[j - 1] in rest;
    }
    forall m
      ensures m in r <==> m in ns || m == n
    {
      assert ns == [ns[0]] + ns[1..];
    }
  }

  /** The numbers of the logs to replay, sorted. */
  method LogsToReplay(found: set<nat>, minLog: nat) returns (logs: seq<nat>)
    ensures Increasing(logs) && forall n :: n in logs <==> n in found && n >= minLog
  {
    logs := [];
    var rest := found;
    while rest != {}
      invariant rest <= found && Increasing(logs)
      invariant forall n :: n in logs <==> n in found && n !in rest && n >= minLog
      decreases |rest|
    {
      var number :| number in rest;
      if number >= minLog {
        logs := InsertNumber(logs, number);
      }
      rest := rest - {number};
    }
  }

  /** `m` is the greatest sequence number of `es`, 0 if there is none. */
  ghost predicate TopSequence(m: nat, es: seq<Entry>) {
    && (forall e | e in es :: e.k.sn <= m)
    && (m == 0 || exists e :: e in es && e.k.sn == m)
  }

  lemma TopGrows(m: nat, es: seq<Entry>, more: seq<Entry>)
    requires TopSequence(m, es) && Ascending(more) && more != []
    ensures var last := more[|more| - 1].k.sn; TopSequence(if last > m then last else m, es + more)
  {
    var last := more[|more| - 1];
    assert last in es + more;
    if m != 0 {
      var e :| e in es && e.k.sn == m;
      assert e in es + more;
    }
    forall e | e in more
      ensures e.k.sn <= last.k.sn
    {
    }
  }

  lemma {:induction false} AddTwice(mem: seq<Entry>, a: seq<Entry>, b: seq<Entry>)
    ensures MemAddAll(MemAddAll(mem, a), b) == MemAddAll(mem, a + b)
    decreases |a|
  {
    if a == [] {
      assert a + b == b;
    } else {
      assert (a + b)[1..] == a[1..] + b;
      AddTwice(InsertByKey(mem, a[0]), a[1..], b);
    }
  }

  /** What is left of `es` to insert. */
  lemma AddNext(mem: seq<Entry>, es: seq<Entry>, i: nat)
    requires i < |es|
    ensures MemAddAll(mem, es[i..]) == MemAddAll(InsertByKey(mem, es[i]), es[i + 1..])
  {
    assert es[i..][1..] == es[i + 1..];
  }

  /** WriteBatchInternal::InsertInto of one log record. */
  method InsertRecord(mem: seq<Entry>, record: seq<Entry>) returns (r: seq<Entry>)
    ensures r == MemAddAll(mem, record)
  {
    hide MemAddAll, InsertByKey;
    r := mem;
    assert record[0..] == record;
    for i := 0 to |record|
      invariant MemAddAll(r, record[i..]) == MemAddAll(mem, record)
    {
      AddNext(r, record, i);
      r := InsertByKey(r, record[i]);
    }
    NothingToAdd(r, record[|record|..]);
  }

  lemma NothingToAdd(mem: seq<Entry>, es: seq<Entry>)
    requires es == []
    ensures MemAddAll(mem, es) == mem
  {
  }

  /** A memtable filled with the entries of `chunk`. */
  lemma FilledMemtable(chunk: seq<Entry>)
    requires Ascending(chunk)
    ensures Sorted(MemAddAll([], chunk)) && Elements(MemAddAll([], chunk)) == Elements(chunk)
    ensures MemAddAll([], chunk) == [] <==> chunk == []
  {
    MemAddAllMeaning([], chunk);
    var mem := MemAddAll([], chunk);
    if chunk != [] {
      assert chunk[0] in Elements(mem);
    }
    if mem != [] {
      assert mem[0] in Elements(chunk);
    }
  }

  /** The tables written so far, all numbered from `low` up to but excluding `next`. */
  ghost predicate TablesWritten(chunks: seq<seq<Entry>>, ts: seq<File>, low: nat, next: nat) {
    && RecoveredTables(chunks, ts)
    && low <= next
    && forall f | f in ts :: low <= f.number < next
  }

  /** WriteLevel0Table without a base version: a table for level 0, unless the memtable is empty. */
  method WriteLevel0Table(mem: seq<Entry>, ts: seq<File>, next: nat, fileSize: nat,
                          ghost chunk: seq<Entry>, ghost chunks: seq<seq<Entry>>, ghost low: nat)
    returns (r: seq<File>, ghost cs: seq<seq<Entry>>)
    requires Ascending(chunk) && mem == MemAddAll([], chunk) && TablesWritten(chunks, ts, low, next)
    ensures TablesWritten(cs, r, low, next + 1) && Flatten(cs) == Flatten(chunks) + chunk
  {
    FilledMemtable(chunk);
    r, cs := ts, chunks;
    if mem != [] {
      var meta := File(next, fileSize, mem[0].k, mem[|mem| - 1].k, mem);
      r := ts + [meta];
      cs := chunks + [chunk];
      FlattenAppend(chunks, chunk);
      OneMoreTable(chunks, ts, chunk, meta, low, next);
    }
  }

  lemma OneMoreTable(chunks: seq<seq<Entry>>, ts: seq<File>, chunk: seq<Entry>, n: File, low: nat, next: nat)
    requires TablesWritten(chunks, ts, low, next) && chunk != [] && GoodFile(n) && n.number == next
    requires Elements(n.entries) == Elements(chunk)
    ensures TablesWritten(chunks + [chunk], ts + [n], low, next + 1)
  {
    hide GoodFile;
  }

  lemma WrittenBelow(chunks: seq<seq<Entry>>, ts: seq<File>, low: nat, next: nat)
    requires TablesWritten(chunks, ts, low, next)
    ensures low <= next && forall f | f in ts :: low <= f.number < next
  {
    hide RecoveredTables;
  }

  lemma WrittenLater(chunks: seq<seq<Entry>>, ts: seq<File>, low: nat, next: nat, later: nat)
    requires TablesWritten(chunks, ts, low, next) && next <= later
    ensures TablesWritten(chunks, ts, low, later)
  {
    hide RecoveredTables;
  }

  lemma {:induction false} FlattenPrefix(records: seq<seq<Entry>>, i: nat)
    requires i <= |records| && Ascending(Flatten(records))
    ensures Ascending(Flatten(records[..i]))
    decreases |records|
  {
    if i == |records| {
      assert records[..i] == records;
    } else {
      var init := records[..|records| - 1];
      PartsAscending(Flatten(init), records[|records| - 1]);
      FlattenPrefix(init, i);
      assert init[..i] == records[..i];
    }
  }

  lemma PartsAscending(a: seq<Entry>, b: seq<Entry>)
    requires Ascending(a + b)
    ensures Ascending(a) && Ascending(b)
  {
    assert forall i | 0 <= i < |a| :: (a + b)[i] == a[i];
    assert forall i | 0 <= i < |b| :: (a + b)[|a| + i] == b[i];
  }

  lemma FlattenNext(records: seq<seq<Entry>>, i: nat)
    requires i < |records|
    ensures Flatten(records[..i + 1]) == Flatten(records[..i]) + records[i]
  {
    assert records[..i + 1] == records[..i] + [records[i]];
    FlattenAppend(records[..i], records[i]);
  }

  /** The entries of the memtable being filled, and of the next record, are a stretch of the log. */
  lemma StretchAscending(records: seq<seq<Entry>>, i: nat, before: seq<Entry>, chunk: seq<Entry>)
    requires i < |records| && Ascending(Flatten(records)) && Flatten(records[..i]) == before + chunk
    ensures Ascending(chunk + records[i]) && Ascending(records[i])
    ensures Flatten(records[..i + 1]) == before + (chunk + records[i])
  {
    hide Ascending, Flatten;
    FlattenNext(records, i);
    FlattenPrefix(records, i + 1);
    assert Flatten(records[..i + 1]) == before + (chunk + records[i]);
    PartsAscending(before, chunk + records[i]);
    PartsAscending(chunk, records[i]);
  }

  /** RecoverLogFile: each record goes into a memtable, which becomes a table when it is full and at the end
      of the log. */
  method RecoverLogFile(records: seq<seq<Entry>>, added: seq<File>, nextFile: nat, maxSequence: nat,
                        isFull: seq<Entry> -> bool, fileSize: seq<Entry> -> nat,
                        ghost done: seq<seq<Entry>>, ghost low: nat)
    returns (ts: seq<File>, next: nat, max: nat, ghost chunks: seq<seq<Entry>>)
    requires Ascending(Flatten(records))
    requires TablesWritten(done, added, low, nextFile) && TopSequence(maxSequence, Flatten(done))
    ensures TablesWritten(chunks, ts, low, next) && next >= nextFile
    ensures Flatten(chunks) == Flatten(done) + Flatten(records)
    ensures TopSequence(max, Flatten(chunks))
  {
    hide Ascending, Flatten, TablesWritten, TopSequence, MemAddAll;
    ts, next, max, chunks := added, nextFile, maxSequence, done;
    var mem: seq<Entry> := [];
    var hasMem := false;
    ghost var before, chunk: seq<Entry> := [], [];
    FlattenNothing(records[..0]);
    NothingToAdd([], []);
    EmptyAscending();
    for i := 0 to |records|
      invariant Flatten(records[..i]) == before + chunk && Ascending(chunk)
      invariant Flatten(chunks) == Flatten(done) + before
      invariant mem == MemAddAll([], chunk) && (!hasMem ==> chunk == [])
      invariant TablesWritten(chunks, ts, low, next) && next >= nextFile
      invariant TopSequence(max, Flatten(chunks) + chunk)
    {
      var record := records[i];
      StretchAscending(records, i, before, chunk);
      AddTwice([], chunk, record);
      mem := InsertRecord(mem, record);
      hasMem := true;
      assert Flatten(chunks) + chunk + record == Flatten(chunks) + (chunk + record);
      if record != [] {
        TopGrows(max, Flatten(chunks) + chunk, record);
        if record[|record| - 1].k.sn > max {
          max := record[|record| - 1].k.sn;
        }
      } else {
        assert chunk + record == chunk;
      }
      chunk := chunk + record;
      if isFull(mem) {
        ts, chunks := WriteLevel0Table(mem, ts, next, fileSize(mem), chunk, chunks, low);
        assert Flatten(chunks) + [] == Flatten(chunks);
        next, mem, hasMem := next + 1, [], false;
        before, chunk := before + chunk, [];
        assert before + chunk == before;
        NothingToAdd([], []);
        EmptyAscending();
      }
    }
    assert records[..|records|] == records;
    if hasMem {
      ts, chunks := WriteLevel0Table(mem, ts, next, fileSize(mem), chunk, chunks, low);
      next := next + 1;
    } else {
      assert Flatten(chunks) + chunk == Flatten(chunks);
      assert before + chunk == before;
    }
  }

  lemma FlattenNothing(records: seq<seq<Entry>>)
    requires records == []
    ensures Flatten(records) == []
  {
  }

  lemma EmptyAscending()
    ensures Ascending([])
  {
  }

  /** The log files hold these records. */
  ghost predicate HoldRecords(logs: map<nat, seq<Entry>>, records: map<nat, seq<seq<Entry>>>) {
    && logs.Keys == records.Keys
    && forall n | n in logs :: Flatten(records[n]) == logs[n] && Ascending(logs[n])
  }

  ghost predicate AllIn(ns: seq<nat>, logs: map<nat, seq<Entry>>) {
    forall n | n in ns :: n in logs
  }

  lemma NextLogContents(logs: map<nat, seq<Entry>>, replay: seq<nat>, i: nat)
    requires i < |replay| && AllIn(replay, logs)
    ensures AllIn(replay[..i], logs) && AllIn(replay[..i + 1], logs)
    ensures LogContents(logs, replay[..i + 1]) == LogContents(logs, replay[..i]) + logs[replay[i]]
  {
    assert replay[..i + 1][..i] == replay[..i];
  }

  /** The loop of Recover over the logs, and the file numbers it marks as used. */
  method ReplayLogs(replay: seq<nat>, records: map<nat, seq<seq<Entry>>>, nextFile: nat,
                    isFull: seq<Entry> -> bool, fileSize: seq<Entry> -> nat, ghost logs: map<nat, seq<Entry>>)
    returns (ts: seq<File>, next: nat, max: nat, ghost chunks: seq<seq<Entry>>)
    requires HoldRecords(logs, records) && AllIn(replay, logs)
    ensures TablesWritten(chunks, ts, nextFile, next)
    ensures forall n | n in replay :: n < next
    ensures Flatten(chunks) == LogContents(logs, replay)
    ensures TopSequence(max, Flatten(chunks))
  {
    hide Ascending, Flatten, TablesWritten, TopSequence, LogContents;
    ts, next, max, chunks := [], nextFile, 0, [];
    NothingReplayed(logs, replay[..0], nextFile);
    for i := 0 to |replay|
      invariant TablesWritten(chunks, ts, nextFile, next)
      invariant forall j | 0 <= j < i :: replay[j] < next
      invariant AllIn(replay[..i], logs) && Flatten(chunks) == LogContents(logs, replay[..i])
      invariant TopSequence(max, Flatten(chunks))
    {
      NextLogContents(logs, replay, i);
      LogIsThere(replay, logs, i);
      ghost var before := next;
      ts, next, max, chunks := RecoverLogFile(records[replay[i]], ts, next, max, isFull, fileSize, chunks, nextFile);
      if next <= replay[i] {
        WrittenLater(chunks, ts, nextFile, next, replay[i] + 1);
        next := replay[i] + 1;
      }
    }
    assert replay[..|replay|] == replay;
  }

  lemma LogIsThere(replay: seq<nat>, logs: map<nat, seq<Entry>>, i: nat)
    requires i < |replay| && AllIn(replay, logs)
    ensures replay[i] in logs
  {
  }

  lemma NothingReplayed(logs: map<nat, seq<Entry>>, replay: seq<nat>, nextFile: nat)
    requires replay == []
    ensures TablesWritten([], [], nextFile, nextFile) && TopSequence(0, Flatten([])) && AllIn(replay, logs)
    ensures Flatten([]) == LogContents(logs, replay)
  {
  }

  /** The sequence the store resumes from. */
  lemma ResumedSequence(manifest: nat, max: nat, es: seq<Entry>)
    requires TopSequence(max, es)
    ensures IsMaxSequence(if manifest < max then max else manifest, manifest, es)
  {
  }

  /** DBImpl::Recover after the manifest has been read: which logs are replayed into which tables, and the
      file number and the sequence the store resumes from. */
  method Recover(records: map<nat, seq<seq<Entry>>>, manifestLog: nat, manifestSequence: nat, manifestNext: nat,
                 isFull: seq<Entry> -> bool, fileSize: seq<Entry> -> nat, ghost logs: map<nat, seq<Entry>>)
    returns (ts: seq<File>, next: nat, last: nat, replay: seq<nat>, ghost chunks: seq<seq<Entry>>)
    requires HoldRecords(logs, records)
    ensures TablesWritten(chunks, ts, manifestNext, next)
    ensures Increasing(replay) && forall n :: n in replay <==> n in logs && n >= manifestLog
    ensures AllIn(replay, logs) && forall n | n in replay :: n < next
    ensures Flatten(chunks) == LogContents(logs, replay)
    ensures IsMaxSequence(last, manifestSequence, Flatten(chunks))
  {
    hide TablesWritten, Increasing, LogContents, TopSequence, IsMaxSequence, Flatten, Ascending;
    replay := LogsToReplay(records.Keys, manifestLog);
    var max;
    ts, next, max, chunks := ReplayLogs(replay, records, manifestNext, isFull, fileSize, logs);
    last := manifestSequence;
    ResumedSequence(manifestSequence, max, Flatten(chunks));
    if last < max {
      last := max;
    }
  }
}

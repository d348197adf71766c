/** What group commit guarantees over every interleaving of writers and readers. */
module GroupCommit {
  import opened InternalKeys
  import opened Boundary
  import opened DbState
  import opened DbSteps
  import opened WriteQueue

  function Writers(cs: seq<Completion>): seq<Request> {
    seq(|cs|, i requires 0 <= i < |cs| => cs[i].w)
  }

  /** How many sequence numbers a completed writer used up, its own or, after an error, nobody's. */
  function Width(c: Completion): nat {
    if c.numbered then |OpsOf(c.w)| else 0
  }

  function Total(cs: seq<Completion>): nat {
    if cs == [] then 0 else Total(cs[..|cs| - 1]) + Width(cs[|cs| - 1])
  }

  /** Each writer's numbers start where those of the writer before it end. */
  ghost predicate Consecutive(cs: seq<Completion>) {
    forall i | 0 <= i < |cs| && cs[i].numbered :: cs[i].first == 1 + Total(cs[..i])
  }

  function EntriesOf(c: Completion): seq<Entry> {
    if c.numbered && c.status.Ok? then Stamp(OpsOf(c.w), c.first) else []
  }

  /** The entries of the writers that were told their write succeeded. */
  function Acknowledged(cs: seq<Completion>): seq<Entry> {
    if cs == [] then [] else Acknowledged(cs[..|cs| - 1]) + EntriesOf(cs[|cs| - 1])
  }

  /** The entries of the group at work that are in the memtable already. */
  function InProgress(p: Phase): seq<Entry> {
    match p
    case Applying(_, ops, first, k) => if k <= |ops| then Stamp(ops, first)[..k] else []
    case Finishing(_, ops, first, Ok, _) => Stamp(ops, first)
    case _ => []
  }

  /** A successful write is in the log at its numbers, synced if it asked for that. */
  ghost predicate InRecord(r: LogRecord, c: Completion) {
    && r.first <= c.first && c.first + |OpsOf(c.w)| <= r.first + |r.ops|
    && r.ops[c.first - r.first..c.first - r.first + |OpsOf(c.w)|] == OpsOf(c.w)
    && (c.w.sync ==> r.synced)
  }

  ghost predicate Logged(log: seq<LogRecord>, c: Completion) {
    exists r :: r in log && InRecord(r, c)
  }

  // ---- The invariant, in parts.

  ghost predicate OrderInv(q: Queue) {
    && Writers(q.completions) + q.waiting == q.arrivals
    && (forall i, j | 0 <= i < j < |q.arrivals| :: q.arrivals[i].id != q.arrivals[j].id)
  }

  ghost predicate SleepInv(q: Queue) {
    && q.asleep <= Ids(q.waiting)
    && (q.waiting != [] ==> q.waiting[0].id !in q.asleep)
  }

  ghost predicate NumberInv(q: Queue) {
    Consecutive(q.completions) && q.lastSequence == Total(q.completions)
  }

  ghost predicate PhaseInv(q: Queue) {
    !q.phase.Waiting? ==>
      && 1 <= q.phase.n <= |q.waiting|
      && q.phase.ops == GroupOps(q.waiting[..q.phase.n])
      && q.phase.first == q.lastSequence + 1
      && (forall i | 0 <= i < q.phase.n :: q.waiting[i].sync ==> q.waiting[0].sync)
      && (q.phase.Applying? ==> q.phase.applied <= |q.phase.ops|)
  }

  ghost predicate AppliedInv(q: Queue) {
    q.applied == Elements(Acknowledged(q.completions)) + Elements(InProgress(q.phase))
  }

  ghost predicate LoggedInv(q: Queue) {
    && (q.phase.Syncing? ==>
          && q.log != [] && q.log[|q.log| - 1] == LogRecord(q.phase.first, q.phase.ops, false)
          && q.waiting != [] && q.waiting[0].sync)
    && (q.phase.Applying? || (q.phase.Finishing? && q.phase.status.Ok?) ==>
          q.waiting != [] && LogRecord(q.phase.first, q.phase.ops, q.waiting[0].sync) in q.log)
    && (forall c | c in q.completions && c.numbered && c.status.Ok? :: Logged(q.log, c))
  }

  ghost predicate Inv(q: Queue) {
    OrderInv(q) && SleepInv(q) && NumberInv(q) && PhaseInv(q) && AppliedInv(q) && LoggedInv(q)
  }

  // ---- Facts about completing a group

  lemma {:induction false} StampConcat(a: seq<Op>, b: seq<Op>, first: nat)
    ensures Stamp(a + b, first) == Stamp(a, first) + Stamp(b, first + |a|)
  {
  }

  lemma CompleteSplit(ws: seq<Request>, first: nat, numbered: bool, status: Status)
    requires ws != []
    ensures var init, cs := ws[..|ws| - 1], Complete(ws, first, numbered, status);
            && cs != [] && cs[..|cs| - 1] == Complete(init, first, numbered, status)
            && cs[|cs| - 1] == Completion(ws[|ws| - 1], first + if numbered then |GroupOps(init)| else 0, numbered, status)
  {
  }

  lemma {:induction false} CompleteWriters(ws: seq<Request>, first: nat, numbered: bool, status: Status)
    ensures Writers(Complete(ws, first, numbered, status)) == ws
  {
    if ws != [] {
      CompleteWriters(ws[..|ws| - 1], first, numbered, status);
      CompleteSplit(ws, first, numbered, status);
      assert ws == ws[..|ws| - 1] + [ws[|ws| - 1]];
    }
  }

  lemma {:induction false} CompleteTotal(ws: seq<Request>, first: nat, numbered: bool, status: Status)
    ensures Total(Complete(ws, first, numbered, status)) == if numbered then |GroupOps(ws)| else 0
  {
    if ws != [] {
      hide Complete;
      CompleteTotal(ws[..|ws| - 1], first, numbered, status);
      CompleteSplit(ws, first, numbered, status);
    } else {
      assert Complete(ws, first, numbered, status) == [];
    }
  }

  lemma AcknowledgedLast(cs: seq<Completion>)
    requires cs != []
    ensures Acknowledged(cs) == Acknowledged(cs[..|cs| - 1]) + EntriesOf(cs[|cs| - 1])
  {
    hide EntriesOf;
  }

  lemma MemberEntries(ws: seq<Request>, k: nat, numbered: bool, status: Status)
    requires ws != []
    ensures EntriesOf(Completion(ws[|ws| - 1], k, numbered, status))
            == if numbered && status.Ok? then Stamp(OpsOf(ws[|ws| - 1]), k) else []
    ensures GroupOps(ws) == GroupOps(ws[..|ws| - 1]) + OpsOf(ws[|ws| - 1])
  {
    hide Stamp;
  }

  /** The entries of a group that succeeds are those of its operations in queue order. */
  lemma {:induction false} SuccessAcknowledged(ws: seq<Request>, first: nat)
    ensures Acknowledged(Complete(ws, first, true, Ok)) == Stamp(GroupOps(ws), first)
  {
    hide *;
    if ws == [] {
      NoEntries(ws, first, true, Ok);
    } else {
      var init, last := ws[..|ws| - 1], ws[|ws| - 1];
      SuccessAcknowledged(init, first);
      CompleteSplit(ws, first, true, Ok);
      AcknowledgedLast(Complete(ws, first, true, Ok));
      MemberEntries(ws, first + |GroupOps(init)|, true, Ok);
      StampConcat(GroupOps(init), OpsOf(last), first);
    }
  }

  lemma NoEntries(ws: seq<Request>, first: nat, numbered: bool, status: Status)
    requires ws == []
    ensures Acknowledged(Complete(ws, first, numbered, status)) == [] && Stamp(GroupOps(ws), first) == []
  {
    assert Complete(ws, first, numbered, status) == [];
    assert GroupOps(ws) == [];
  }

  lemma {:induction false} FailureAcknowledged(ws: seq<Request>, first: nat, numbered: bool, status: Status)
    requires !(numbered && status.Ok?)
    ensures Acknowledged(Complete(ws, first, numbered, status)) == []
  {
    hide *;
    if ws == [] {
      NoEntries(ws, first, numbered, status);
    } else {
      var init := ws[..|ws| - 1];
      FailureAcknowledged(init, first, numbered, status);
      CompleteSplit(ws, first, numbered, status);
      AcknowledgedLast(Complete(ws, first, numbered, status));
      MemberEntries(ws, first + if numbered then |GroupOps(init)| else 0, numbered, status);
    }
  }

  lemma {:induction false} CompleteAt(ws: seq<Request>, first: nat, numbered: bool, status: Status, i: nat)
    requires i < |ws|
    ensures |Complete(ws, first, numbered, status)| == |ws|
    ensures Complete(ws, first, numbered, status)[i]
            == Completion(ws[i], first + if numbered then |GroupOps(ws[..i])| else 0, numbered, status)
    ensures Complete(ws, first, numbered, status)[..i] == Complete(ws[..i], first, numbered, status)
  {
    var init := ws[..|ws| - 1];
    if i < |ws| - 1 {
      CompleteAt(init, first, numbered, status, i);
      assert init[..i] == ws[..i];
      var cs, ds := Complete(ws, first, numbered, status), Complete(init, first, numbered, status);
      assert cs[..i] == ds[..i];
    } else {
      CompleteLength(init, first, numbered, status);
      assert ws[..i] == init;
    }
  }

  lemma {:induction false} CompleteLength(ws: seq<Request>, first: nat, numbered: bool, status: Status)
    ensures |Complete(ws, first, numbered, status)| == |ws|
  {
    if ws != [] {
      CompleteLength(ws[..|ws| - 1], first, numbered, status);
    }
  }

  lemma ConcatSplit(a: seq<Completion>, b: seq<Completion>)
    requires b != []
    ensures (a + b)[..|a + b| - 1] == a + b[..|b| - 1] && (a + b)[|a + b| - 1] == b[|b| - 1]
  {
  }

  lemma {:induction false} TotalConcat(a: seq<Completion>, b: seq<Completion>)
    ensures Total(a + b) == Total(a) + Total(b)
  {
    if b == [] {
      assert a + b == a;
    } else {
      TotalConcat(a, b[..|b| - 1]);
      ConcatSplit(a, b);
    }
  }

  lemma {:induction false} AcknowledgedConcat(a: seq<Completion>, b: seq<Completion>)
    ensures Acknowledged(a + b) == Acknowledged(a) + Acknowledged(b)
  {
    hide EntriesOf;
    if b == [] {
      assert a + b == a;
    } else {
      AcknowledgedConcat(a, b[..|b| - 1]);
      ConcatSplit(a, b);
    }
  }

  /** The numbers of a completed group follow those given out before. */
  lemma GroupIsConsecutive(cs: seq<Completion>, ws: seq<Request>, first: nat, numbered: bool, status: Status)
    requires Consecutive(cs) && first == Total(cs) + 1
    ensures Consecutive(cs + Complete(ws, first, numbered, status))
  {
    hide Total, Complete;
    var more := Complete(ws, first, numbered, status);
    CompleteLength(ws, first, numbered, status);
    var all := cs + more;
    forall i | 0 <= i < |all| && all[i].numbered
      ensures all[i].first == 1 + Total(all[..i])
    {
      if i < |cs| {
        assert all[..i] == cs[..i];
      } else {
        CompleteAt(ws, first, numbered, status, i - |cs|);
        assert all[..i] == cs + more[..i - |cs|];
        TotalConcat(cs, more[..i - |cs|]);
        CompleteTotal(ws[..i - |cs|], first, numbered, status);
      }
    }
  }

  lemma {:induction false} GroupOpsSlice(ws: seq<Request>, i: nat)
    requires i < |ws|
    ensures |GroupOps(ws[..i])| + |OpsOf(ws[i])| <= |GroupOps(ws)|
    ensures GroupOps(ws)[|GroupOps(ws[..i])|..|GroupOps(ws[..i])| + |OpsOf(ws[i])|] == OpsOf(ws[i])
  {
    var init := ws[..|ws| - 1];
    if i < |ws| - 1 {
      GroupOpsSlice(init, i);
      assert init[..i] == ws[..i];
      var k, n := |GroupOps(ws[..i])|, |OpsOf(ws[i])|;
      assert GroupOps(ws)[k..k + n] == GroupOps(init)[k..k + n];
    } else {
      assert ws[..i] == init;
    }
  }

  /** Every member of a logged group is in its record. */
  lemma GroupIsLogged(ws: seq<Request>, first: nat, status: Status, r: LogRecord, c: Completion)
    requires ws != [] && r == LogRecord(first, GroupOps(ws), ws[0].sync)
    requires forall i | 0 <= i < |ws| :: ws[i].sync ==> ws[0].sync
    requires c in Complete(ws, first, true, status)
    ensures InRecord(r, c)
  {
    hide Complete, GroupOps;
    CompleteLength(ws, first, true, status);
    var i :| 0 <= i < |ws| && Complete(ws, first, true, status)[i] == c;
    CompleteAt(ws, first, true, status, i);
    GroupOpsSlice(ws, i);
  }

  // ---- Each step keeps the invariant

  lemma IdsOfParts(ws: seq<Request>, n: nat)
    requires n <= |ws|
    ensures Ids(ws) == Ids(ws[..n]) + Ids(ws[n..])
  {
    assert ws == ws[..n] + ws[n..];
  }

  lemma WritersConcat(a: seq<Completion>, b: seq<Completion>)
    ensures Writers(a + b) == Writers(a) + Writers(b)
  {
  }

  /** Completing a group keeps order, sleep and numbers. */
  lemma PopKeepsOrder(a: Queue, n: nat, first: nat, numbered: bool, status: Status)
    requires OrderInv(a) && SleepInv(a) && 1 <= n <= |a.waiting|
    ensures OrderInv(PopGroup(a, n, first, numbered, status)) && SleepInv(PopGroup(a, n, first, numbered, status))
  {
    hide Complete, Writers;
    var ws := a.waiting[..n];
    WritersConcat(a.completions, Complete(ws, first, numbered, status));
    CompleteWriters(ws, first, numbered, status);
    assert a.waiting == ws + a.waiting[n..];
    assert Writers(a.completions) + ws + a.waiting[n..] == Writers(a.completions) + (ws + a.waiting[n..]);
    IdsOfParts(a.waiting, n);
  }

  lemma PopKeepsNumbers(a: Queue, b: Queue, n: nat, first: nat, numbered: bool, status: Status)
    requires NumberInv(a) && first == a.lastSequence + 1 && n <= |a.waiting|
    requires b.completions == a.completions + Complete(a.waiting[..n], first, numbered, status)
    requires b.lastSequence == a.lastSequence + if numbered then |GroupOps(a.waiting[..n])| else 0
    ensures NumberInv(b)
    ensures Acknowledged(b.completions) == Acknowledged(a.completions)
              + if numbered && status.Ok? then Stamp(GroupOps(a.waiting[..n]), first) else []
  {
    hide Complete, Total, Acknowledged, GroupOps, Consecutive, Stamp;
    var ws := a.waiting[..n];
    GroupIsConsecutive(a.completions, ws, first, numbered, status);
    CompleteTotal(ws, first, numbered, status);
    if numbered && status.Ok? {
      SuccessAcknowledged(ws, first);
    } else {
      FailureAcknowledged(ws, first, numbered, status);
    }
    TotalConcat(a.completions, Complete(ws, first, numbered, status));
    AcknowledgedConcat(a.completions, Complete(ws, first, numbered, status));
  }

  lemma ElementsConcat(a: seq<Entry>, b: seq<Entry>)
    ensures Elements(a + b) == Elements(a) + Elements(b)
  {
  }

  lemma ArriveKeepsInv(a: Queue, b: Queue, w: Request)
    requires Inv(a) && Arrives(a, b, w)
    ensures Inv(b)
  {
    hide Consecutive, Total, Acknowledged, InProgress, GroupOps, Logged, Writers;
    assert Writers(a.completions) + (a.waiting + [w]) == a.arrivals + [w];
    forall i | 0 <= i < |a.arrivals|
      ensures a.arrivals[i].id != w.id
    {
      assert a.arrivals[i] in a.arrivals;
    }
    IdsOfParts(b.waiting, |a.waiting|);
    assert b.waiting[..|a.waiting|] == a.waiting && b.waiting[|a.waiting|..] == [w];
    WaitingIsArrived(a);
    if !a.phase.Waiting? {
      assert b.waiting[..a.phase.n] == a.waiting[..a.phase.n];
    }
  }

  lemma WaitingIsArrived(a: Queue)
    requires OrderInv(a)
    ensures Ids(a.waiting) <= Ids(a.arrivals)
  {
  }

  /** A writer done without numbers leaves everything but the queue alone. */
  lemma LeadKeepsInv(a: Queue, b: Queue, room: bool, n: nat)
    requires Inv(a) && Leads(a, b, room, n)
    ensures Inv(b)
  {
    hide Consecutive, Total, Acknowledged, GroupOps, Logged, Writers, Complete, Stamp, OrderInv, SleepInv;
    if room && a.waiting[0].batch.Some? {
      SameOrder(a, b);
      GroupSyncs(a.waiting, n);
    } else {
      var status := if room then Ok else Error;
      PopKeepsOrder(a, 1, a.lastSequence + 1, false, status);
      SameOrder(PopGroup(a, 1, a.lastSequence + 1, false, status), b);
      PopKeepsNumbers(a, b, 1, a.lastSequence + 1, false, status);
      UnnumberedLogged(a, b, status);
    }
  }

  lemma SameOrder(a: Queue, b: Queue)
    requires OrderInv(a) && SleepInv(a)
    requires b.waiting == a.waiting && b.arrivals == a.arrivals && b.completions == a.completions && b.asleep == a.asleep
    ensures OrderInv(b) && SleepInv(b)
  {
  }

  lemma GroupSyncs(q: seq<Request>, n: nat)
    requires IsGroup(q, n)
    ensures forall i | 0 <= i < n :: q[i].sync ==> q[0].sync
  {
    forall i | 0 <= i < n && q[i].sync
      ensures q[0].sync
    {
      assert i > 0 ==> Fits(q, i);
    }
  }

  lemma UnnumberedLogged(a: Queue, b: Queue, status: Status)
    requires a.waiting != [] && b.log == a.log
    requires b.completions == a.completions + Complete(a.waiting[..1], a.lastSequence + 1, false, status)
    requires forall c | c in a.completions && c.numbered && c.status.Ok? :: Logged(a.log, c)
    ensures forall c | c in b.completions && c.numbered && c.status.Ok? :: Logged(b.log, c)
  {
    hide Logged;
    CompleteLength(a.waiting[..1], a.lastSequence + 1, false, status);
    CompleteAt(a.waiting[..1], a.lastSequence + 1, false, status, 0);
  }

  /** Records are only added, or marked as synced. */
  lemma LogGrows(a: seq<LogRecord>, b: seq<LogRecord>, c: Completion)
    requires Logged(a, c) && |a| <= |b|
    requires forall i | 0 <= i < |a| :: b[i].first == a[i].first && b[i].ops == a[i].ops && (a[i].synced ==> b[i].synced)
    ensures Logged(b, c)
  {
    var r :| r in a && InRecord(r, c);
    var i :| 0 <= i < |a| && a[i] == r;
    assert InRecord(b[i], c);
  }

  lemma LogStepKeepsInv(a: Queue, b: Queue, ok: bool)
    requires Inv(a) && AppendsLog(a, b, ok)
    ensures Inv(b)
  {
    hide Consecutive, Total, Acknowledged, GroupOps, Logged, Writers, OrderInv, SleepInv, Stamp;
    SameOrder(a, b);
    forall c | c in a.completions && c.numbered && c.status.Ok?
      ensures Logged(b.log, c)
    {
      LogGrows(a.log, b.log, c);
    }
  }

  lemma SyncStepKeepsInv(a: Queue, b: Queue, ok: bool)
    requires Inv(a) && SyncsLog(a, b, ok)
    ensures Inv(b)
  {
    hide Consecutive, Total, Acknowledged, GroupOps, Logged, Writers, OrderInv, SleepInv, Stamp;
    SameOrder(a, b);
    assert ok ==> b.log[|b.log| - 1] in b.log;
    forall c | c in a.completions && c.numbered && c.status.Ok?
      ensures Logged(b.log, c)
    {
      LogGrows(a.log, b.log, c);
    }
  }

  lemma ApplyKeepsInv(a: Queue, b: Queue)
    requires Inv(a) && AppliesOne(a, b)
    ensures Inv(b)
  {
    hide Consecutive, Total, Acknowledged, GroupOps, Logged, Writers, OrderInv, SleepInv, Stamp;
    SameOrder(a, b);
    var Applying(n, ops, first, k) := a.phase;
    if k < |ops| {
      assert Stamp(ops, first)[..k + 1] == Stamp(ops, first)[..k] + [Stamp(ops, first)[k]];
    } else {
      assert Stamp(ops, first)[..k] == Stamp(ops, first);
    }
  }

  lemma PublishKeepsInv(a: Queue, b: Queue)
    requires Inv(a) && Publishes(a, b)
    ensures Inv(b)
  {
    hide Consecutive, Total, Acknowledged, GroupOps, Logged, Writers, OrderInv, SleepInv, Stamp, Complete;
    var Finishing(n, ops, first, status, syncError) := a.phase;
    var popped := PopGroup(a, n, first, true, status);
    PopKeepsOrder(a, n, first, true, status);
    SameOrder(popped, b);
    PopKeepsNumbers(a, b, n, first, true, status);
    ElementsConcat(Acknowledged(a.completions), if status.Ok? then Stamp(ops, first) else []);
    forall c | c in b.completions && c.numbered && c.status.Ok?
      ensures Logged(b.log, c)
    {
      if c !in a.completions {
        MemberLogged(a, c);
      }
    }
  }

  lemma MemberLogged(a: Queue, c: Completion)
    requires PhaseInv(a) && LoggedInv(a) && a.phase.Finishing?
    requires c in Complete(a.waiting[..a.phase.n], a.phase.first, true, a.phase.status) && c.status.Ok?
    ensures Logged(a.log, c)
  {
    hide Complete, GroupOps;
    var ws := a.waiting[..a.phase.n];
    CompleteStatus(ws, a.phase.first, a.phase.status, c);
    var r := LogRecord(a.phase.first, a.phase.ops, a.waiting[0].sync);
    GroupIsLogged(ws, a.phase.first, a.phase.status, r, c);
  }

  lemma CompleteStatus(ws: seq<Request>, first: nat, status: Status, c: Completion)
    requires c in Complete(ws, first, true, status)
    ensures c.status == status
  {
    hide Complete, GroupOps;
    CompleteLength(ws, first, true, status);
    var i :| 0 <= i < |ws| && Complete(ws, first, true, status)[i] == c;
    CompleteAt(ws, first, true, status, i);
  }

  lemma SleepStepsKeepInv(a: Queue, b: Queue, id: nat)
    requires Inv(a) && (Wakes(a, b, id) || Sleeps(a, b, id))
    ensures Inv(b)
  {
    hide Consecutive, Total, Acknowledged, GroupOps, Logged, Writers, Stamp;
  }

  lemma NextKeepsInv(a: Queue, b: Queue, step: WriteQueue.Step)
    requires Inv(a) && WriteQueue.Next(a, b, step)
    ensures Inv(b)
  {
    hide Inv, Arrives, Wakes, Sleeps, Leads, AppendsLog, SyncsLog, AppliesOne, Publishes;
    match step
    case ArriveStep(w) => ArriveKeepsInv(a, b, w);
    case WakeStep(id) => SleepStepsKeepInv(a, b, id);
    case SleepStep(id) => SleepStepsKeepInv(a, b, id);
    case LeadStep(room, n) => LeadKeepsInv(a, b, room, n);
    case LogStep(ok) => LogStepKeepsInv(a, b, ok);
    case SyncStep(ok) => SyncStepKeepsInv(a, b, ok);
    case ApplyStep => ApplyKeepsInv(a, b);
    case PublishStep => PublishKeepsInv(a, b);
  }

  // ---- Runs

  ghost predicate LinkedAt(states: seq<Queue>, steps: seq<WriteQueue.Step>, i: nat)
    requires |states| == |steps| + 1 && i < |steps|
  {
    WriteQueue.Next(states[i], states[i + 1], steps[i])
  }

  ghost predicate IsRun(states: seq<Queue>, steps: seq<WriteQueue.Step>) {
    && |states| == |steps| + 1
    && WriteQueue.Init(states[0])
    && forall i | 0 <= i < |steps| :: LinkedAt(states, steps, i)
  }

  lemma InitHasInv(q: Queue)
    requires WriteQueue.Init(q)
    ensures Inv(q)
  {
  }

  lemma {:induction false} RunKeepsInv(states: seq<Queue>, steps: seq<WriteQueue.Step>, n: nat)
    requires IsRun(states, steps) && n < |states|
    ensures Inv(states[n])
  {
    hide Inv, WriteQueue.Next, WriteQueue.Init;
    if n == 0 {
      InitHasInv(states[0]);
    } else {
      RunKeepsInv(states, steps, n - 1);
      assert LinkedAt(states, steps, n - 1);
      NextKeepsInv(states[n - 1], states[n], steps[n - 1]);
    }
  }

  /** Every writer is completed once and in the order of arrival, or still waits in that order. */
  lemma CompletedOnceInOrder(states: seq<Queue>, steps: seq<WriteQueue.Step>, n: nat)
    requires IsRun(states, steps) && n < |states|
    ensures Writers(states[n].completions) + states[n].waiting == states[n].arrivals
    ensures forall i, j | 0 <= i < j < |states[n].arrivals| :: states[n].arrivals[i].id != states[n].arrivals[j].id
  {
    hide Acknowledged, InProgress, Logged, Consecutive;
    RunKeepsInv(states, steps, n);
  }

  /** The sequence numbers of the completed writers are consecutive ranges in queue order, from 1 to the last
      published sequence. */
  lemma RangesAreConsecutive(states: seq<Queue>, steps: seq<WriteQueue.Step>, n: nat)
    requires IsRun(states, steps) && n < |states|
    ensures Consecutive(states[n].completions)
    ensures states[n].lastSequence == Total(states[n].completions)
  {
    hide Acknowledged, InProgress, Logged, Consecutive;
    RunKeepsInv(states, steps, n);
  }

  /** A sync write that succeeded is in a synced record of the log at its own numbers, whoever led its group. */
  lemma SyncMeansSynced(states: seq<Queue>, steps: seq<WriteQueue.Step>, n: nat, c: Completion)
    requires IsRun(states, steps) && n < |states|
    requires c in states[n].completions && c.numbered && c.status.Ok?
    ensures exists r :: r in states[n].log && InRecord(r, c)
    ensures c.w.sync ==> exists r :: r in states[n].log && InRecord(r, c) && r.synced
  {
    hide Acknowledged, InProgress, Consecutive;
    RunKeepsInv(states, steps, n);
    assert Logged(states[n].log, c);
  }

  /** No wakeup is lost: the front of the queue is never left asleep, and no completed writer is. */
  lemma NobodyIsForgotten(states: seq<Queue>, steps: seq<WriteQueue.Step>, n: nat)
    requires IsRun(states, steps) && n < |states|
    ensures states[n].waiting != [] ==> states[n].waiting[0].id !in states[n].asleep
    ensures forall c | c in states[n].completions :: c.w.id !in states[n].asleep
  {
    hide Acknowledged, InProgress, Consecutive, Logged;
    RunKeepsInv(states, steps, n);
    CompletedAreAwake(states[n]);
  }

  lemma CompletedAreAwake(q: Queue)
    requires OrderInv(q) && SleepInv(q)
    ensures forall c | c in q.completions :: c.w.id !in q.asleep
  {
    forall c | c in q.completions
      ensures c.w.id !in q.asleep
    {
      var i :| 0 <= i < |q.completions| && q.completions[i] == c;
      assert q.arrivals[i] == c.w;
      forall j | 0 <= j < |q.waiting|
        ensures q.waiting[j].id != c.w.id
      {
        assert q.arrivals[|q.completions| + j] == q.waiting[j];
      }
    }
  }

  // ---- What readers see

  /** The entries visible at sequence `s`. */
  ghost function Visible(applied: set<Entry>, s: nat): set<Entry> {
    set e | e in applied && e.k.sn <= s
  }

  lemma {:induction false} AcknowledgedBounds(cs: seq<Completion>)
    requires Consecutive(cs)
    ensures forall e | e in Acknowledged(cs) :: e.k.sn <= Total(cs)
  {
    if cs != [] {
      var init, c := cs[..|cs| - 1], cs[|cs| - 1];
      PrefixConsecutive(cs, |cs| - 1);
      AcknowledgedBounds(init);
      if c.numbered {
        StampFacts(OpsOf(c.w), c.first);
      }
    }
  }

  lemma PrefixConsecutive(cs: seq<Completion>, k: nat)
    requires Consecutive(cs) && k <= |cs|
    ensures Consecutive(cs[..k])
  {
    forall i | 0 <= i < k && cs[..k][i].numbered
      ensures cs[..k][i].first == 1 + Total(cs[..k][..i])
    {
      assert cs[..k][..i] == cs[..i];
    }
  }

  /** What is acknowledged later has later numbers. */
  lemma {:induction false} LaterAbove(cs: seq<Completion>, k: nat)
    requires Consecutive(cs) && k <= |cs|
    ensures Total(cs[..k]) <= Total(cs)
    ensures Elements(Acknowledged(cs[..k])) <= Elements(Acknowledged(cs))
    ensures forall e | e in Acknowledged(cs) && e !in Acknowledged(cs[..k]) :: e.k.sn > Total(cs[..k])
  {
    if k == |cs| {
      assert cs[..k] == cs;
    } else {
      var init, c := cs[..|cs| - 1], cs[|cs| - 1];
      PrefixConsecutive(cs, |cs| - 1);
      LaterAbove(init, k);
      assert init[..k] == cs[..k];
      AcknowledgedLast(cs);
      ElementsConcat(Acknowledged(init), EntriesOf(c));
      if c.numbered {
        StampFacts(OpsOf(c.w), c.first);
      }
    }
  }

  lemma {:induction false} CompletionsGrow(states: seq<Queue>, steps: seq<WriteQueue.Step>, m: nat, n: nat)
    requires IsRun(states, steps) && m <= n < |states|
    ensures states[m].completions <= states[n].completions
  {
    if m < n {
      CompletionsGrow(states, steps, m, n - 1);
      assert LinkedAt(states, steps, n - 1);
      StepGrowsCompletions(states[n - 1], states[n], steps[n - 1]);
    }
  }

  lemma StepGrowsCompletions(a: Queue, b: Queue, step: WriteQueue.Step)
    requires WriteQueue.Next(a, b, step)
    ensures a.completions <= b.completions
  {
    hide Complete, GroupOps, IsGroup, Stamp;
  }

  /** What is in the memtables but not acknowledged lies above the published sequence. */
  lemma InProgressAbove(q: Queue)
    requires PhaseInv(q)
    ensures forall e | e in InProgress(q.phase) :: e.k.sn > q.lastSequence
  {
    if !q.phase.Waiting? {
      StampFacts(q.phase.ops, q.phase.first);
    }
  }

  /** Main result: a reader that took the last sequence at any moment sees, at that moment and at any later one,
      exactly the entries of the groups published by then: all of a group or nothing of it. */
  lemma ReadersSeeWholeGroups(states: seq<Queue>, steps: seq<WriteQueue.Step>, m: nat, n: nat)
    requires IsRun(states, steps) && m <= n < |states|
    ensures Visible(states[n].applied, states[m].lastSequence) == Elements(Acknowledged(states[m].completions))
  {
    hide Acknowledged, InProgress, Consecutive, Logged, OrderInv, SleepInv, LoggedInv, PhaseInv, IsRun, Total;
    RunKeepsInv(states, steps, m);
    RunKeepsInv(states, steps, n);
    CompletionsGrow(states, steps, m, n);
    var cs, k := states[n].completions, |states[m].completions|;
    assert cs[..k] == states[m].completions;
    LaterAbove(cs, k);
    AcknowledgedBounds(cs[..k]);
    InProgressAbove(states[n]);
  }

  /** Every group a leader built becomes visible at one step, if it succeeded. */
  lemma PublishIsAtomic(states: seq<Queue>, steps: seq<WriteQueue.Step>, n: nat)
    requires IsRun(states, steps) && n < |steps| && steps[n].PublishStep?
    ensures var a, b := states[n], states[n + 1];
            && a.phase.Finishing?
            && Visible(b.applied, b.lastSequence) == Visible(a.applied, a.lastSequence)
                 + (if a.phase.status.Ok? then Elements(Stamp(a.phase.ops, a.lastSequence + 1)) else {})
            && b.lastSequence == a.lastSequence + |a.phase.ops|
  {
    hide Acknowledged, InProgress, Consecutive, Logged, Total, Stamp;
    var a, b := states[n], states[n + 1];
    RunKeepsInv(states, steps, n);
    assert LinkedAt(states, steps, n);
    ReadersSeeWholeGroups(states, steps, n, n);
    ReadersSeeWholeGroups(states, steps, n + 1, n + 1);
    PublishedEntries(a, b);
  }

  lemma PublishedEntries(a: Queue, b: Queue)
    requires NumberInv(a) && PhaseInv(a) && Publishes(a, b)
    ensures Elements(Acknowledged(b.completions)) == Elements(Acknowledged(a.completions))
              + if a.phase.status.Ok? then Elements(Stamp(a.phase.ops, a.lastSequence + 1)) else {}
  {
    hide Acknowledged, InProgress, Consecutive, Logged, Total, Stamp, Complete, GroupOps, NumberInv;
    var Finishing(n, ops, first, status, syncError) := a.phase;
    PopNumbers(a, b, n, first, status);
    ElementsConcat(Acknowledged(a.completions), if status.Ok? then Stamp(ops, first) else []);
  }

  lemma PopNumbers(a: Queue, b: Queue, n: nat, first: nat, status: Status)
    requires NumberInv(a) && first == a.lastSequence + 1 && n <= |a.waiting|
    requires b.completions == a.completions + Complete(a.waiting[..n], first, true, status)
    requires b.lastSequence == a.lastSequence + |GroupOps(a.waiting[..n])|
    ensures Acknowledged(b.completions) == Acknowledged(a.completions)
              + if status.Ok? then Stamp(GroupOps(a.waiting[..n]), first) else []
  {
    hide *;
    PopKeepsNumbers(a, b, n, first, true, status);
  }
}

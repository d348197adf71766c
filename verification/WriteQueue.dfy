/** Group commit: how queued writers are put in one batch, step by step. */
module WriteQueue {
  import opened InternalKeys
  import opened Boundary
  import opened DbState

  /** A queued writer.  A null batch asks for a memtable switch; `bytes` is the batch's size. */
  datatype Request = Request(id: nat, batch: Option<seq<Op>>, bytes: nat, sync: bool)

  function OpsOf(w: Request): seq<Op> {
    if w.batch.Some? then w.batch.value else []
  }

  function GroupOps(ws: seq<Request>): seq<Op> {
    if ws == [] then [] else GroupOps(ws[..|ws| - 1]) + OpsOf(ws[|ws| - 1])
  }

  function GroupBytes(ws: seq<Request>): nat {
    if ws == [] then 0
    else GroupBytes(ws[..|ws| - 1]) + if ws[|ws| - 1].batch.Some? then ws[|ws| - 1].bytes else 0
  }

  const SMALL_BATCH: nat := 0x2_0000
  const MAX_GROUP: nat := 0x10_0000

  function MaxSize(first: nat): nat {
    if first <= SMALL_BATCH then first + SMALL_BATCH else MAX_GROUP
  }

  /** The `i`-th queued writer may join a group of those before it. */
  predicate Fits(q: seq<Request>, i: nat)
    requires 0 < i < |q|
  {
    && (q[i].sync ==> q[0].sync)
    && (q[i].batch.Some? ==> GroupBytes(q[..i + 1]) <= MaxSize(q[0].bytes))
  }

  /** The first `n` writers of the queue are the longest group that fits. */
  ghost predicate IsGroup(q: seq<Request>, n: nat) {
    && 1 <= n <= |q|
    && (forall i | 0 < i < n :: Fits(q, i))
    && (n < |q| ==> !Fits(q, n))
  }

  /** BuildBatchGroup: the operations of the group, and how many writers are in it. */
  method BuildBatchGroup(q: seq<Request>) returns (ops: seq<Op>, n: nat)
    requires q != [] && q[0].batch.Some?
    ensures IsGroup(q, n) && ops == GroupOps(q[..n])
  {
    var size := q[0].bytes;
    ops := q[0].batch.value;
    assert q[..1] == [q[0]] && [q[0]][..0] == [];
    n := 1;
    while n < |q|
      invariant 1 <= n <= |q|
      invariant size == GroupBytes(q[..n]) && ops == GroupOps(q[..n])
      invariant forall i | 0 < i < n :: Fits(q, i)
    {
      var w := q[n];
      assert q[..n + 1][..n] == q[..n];
      if w.sync && !q[0].sync {
        return;
      }
      if w.batch.Some? {
        size := size + w.bytes;
        if size > MaxSize(q[0].bytes) {
          return;
        }
        ops := ops + w.batch.value;
      }
      n := n + 1;
    }
  }

  /** Exactly when a queued writer gets into the group at the front: everyone up to it fits.  A null batch that
      does is completed with the group, and nothing forces the memtable switch it asks for. */
  lemma GroupReachesIff(q: seq<Request>, n: nat, i: nat)
    requires IsGroup(q, n) && i < |q|
    ensures i < n <==> forall j | 0 < j <= i :: Fits(q, j)
  {
    if i >= n {
      assert !Fits(q, n);
    }
  }

  datatype Status = Ok | Error

  /** How a writer came out: the first sequence number of its range, if its group was given numbers. */
  datatype Completion = Completion(w: Request, first: nat, numbered: bool, status: Status)

  datatype LogRecord = LogRecord(first: nat, ops: seq<Op>, synced: bool)

  /** What the writer at the front is doing with the group of the first `n`. */
  datatype Phase =
    | Waiting
    | Logging(n: nat, ops: seq<Op>, first: nat)
    | Syncing(n: nat, ops: seq<Op>, first: nat)
    | Applying(n: nat, ops: seq<Op>, first: nat, applied: nat)
    | Finishing(n: nat, ops: seq<Op>, first: nat, status: Status, syncError: bool)

  datatype Queue = Queue(
    waiting: seq<Request>,
    /** Writers blocked on their condition variable. */
    asleep: set<nat>,
    phase: Phase,
    log: seq<LogRecord>,
    /** Entries inserted into the memtables. */
    applied: set<Entry>,
    lastSequence: nat,
    /** A background error was recorded. */
    failed: bool,
    /** Writers with a null batch whose turn forced a memtable switch. */
    switches: set<nat>,
    /** Every writer that came, and every one that was completed, in order; the specification. */
    arrivals: seq<Request>,
    completions: seq<Completion>
  )

  function Ids(ws: seq<Request>): set<nat> {
    set w | w in ws :: w.id
  }

  /** The completions of a group, each writer's numbers following the one's before it. */
  function Complete(ws: seq<Request>, first: nat, numbered: bool, status: Status): seq<Completion> {
    if ws == [] then []
    else Complete(ws[..|ws| - 1], first, numbered, status)
         + [Completion(ws[|ws| - 1], first + if numbered then |GroupOps(ws[..|ws| - 1])| else 0, numbered, status)]
  }

  /** The loop that pops the group: its members and the new front are signalled. */
  function PopGroup(a: Queue, n: nat, first: nat, numbered: bool, status: Status): Queue
    requires n <= |a.waiting|
  {
    var rest := a.waiting[n..];
    a.(waiting := rest,
       asleep := a.asleep - Ids(a.waiting[..n]) - (if rest == [] then {} else {rest[0].id}),
       phase := Waiting,
       completions := a.completions + Complete(a.waiting[..n], first, numbered, status))
  }

  // ---- Steps

  ghost predicate Init(q: Queue) {
    q == Queue([], {}, Waiting, [], {}, 0, false, {}, [], [])
  }

  /** A writer joins the queue, and waits unless it is at the front. */
  ghost predicate Arrives(a: Queue, b: Queue, w: Request) {
    && w.id !in Ids(a.arrivals)
    && b == a.(waiting := a.waiting + [w], arrivals := a.arrivals + [w],
               asleep := if a.waiting == [] then a.asleep else a.asleep + {w.id})
  }

  /** A wakeup nobody sent. */
  ghost predicate Wakes(a: Queue, b: Queue, id: nat) {
    b == a.(asleep := a.asleep - {id})
  }

  /** An awake writer that is neither done nor at the front waits again. */
  ghost predicate Sleeps(a: Queue, b: Queue, id: nat) {
    && id in Ids(a.waiting) && id != a.waiting[0].id
    && b == a.(asleep := a.asleep + {id})
  }

  /** The front writer takes over.  `room` is whether MakeRoomForWrite succeeded; it fails after a background
      error.  Then, or with a null batch, for which it switches memtables, the writer is done alone. */
  ghost predicate Leads(a: Queue, b: Queue, room: bool, n: nat) {
    && a.phase.Waiting? && a.waiting != [] && a.waiting[0].id !in a.asleep
    && (a.failed ==> !room)
    && if room && a.waiting[0].batch.Some?
       then IsGroup(a.waiting, n) && b == a.(phase := Logging(n, GroupOps(a.waiting[..n]), a.lastSequence + 1))
       else b == PopGroup(a, 1, a.lastSequence + 1, false, if room then Ok else Error)
                 .(switches := a.switches + if room then {a.waiting[0].id} else {})
  }

  /** AddRecord, with the mutex released. */
  ghost predicate AppendsLog(a: Queue, b: Queue, ok: bool) {
    && a.phase.Logging? && a.waiting != []
    && var Logging(n, ops, first) := a.phase;
    && b == if !ok then a.(phase := Finishing(n, ops, first, Error, false))
            else a.(log := a.log + [LogRecord(first, ops, false)],
                    phase := if a.waiting[0].sync then Syncing(n, ops, first) else Applying(n, ops, first, 0))
  }

  ghost predicate SyncsLog(a: Queue, b: Queue, ok: bool) {
    && a.phase.Syncing? && a.log != []
    && var Syncing(n, ops, first) := a.phase;
    && b == if !ok then a.(phase := Finishing(n, ops, first, Error, true))
            else a.(log := a.log[|a.log| - 1 := a.log[|a.log| - 1].(synced := true)],
                    phase := Applying(n, ops, first, 0))
  }

  /** InsertInto adds one entry; readers look at the memtable meanwhile. */
  ghost predicate AppliesOne(a: Queue, b: Queue) {
    && a.phase.Applying?
    && var Applying(n, ops, first, k) := a.phase;
    && b == if k < |ops| then a.(applied := a.applied + {Stamp(ops, first)[k]}, phase := Applying(n, ops, first, k + 1))
            else a.(phase := Finishing(n, ops, first, Ok, false))
  }

  /** With the mutex again: SetLastSequence, and completing the group. */
  ghost predicate Publishes(a: Queue, b: Queue) {
    && a.phase.Finishing? && a.phase.n <= |a.waiting|
    && var Finishing(n, ops, first, status, syncError) := a.phase;
    && b == PopGroup(a, n, first, true, status).(lastSequence := a.lastSequence + |ops|, failed := a.failed || syncError)
  }

  datatype Step =
    | ArriveStep(w: Request)
    | WakeStep(id: nat)
    | SleepStep(id: nat)
    | LeadStep(room: bool, n: nat)
    | LogStep(ok: bool)
    | SyncStep(ok: bool)
    | ApplyStep
    | PublishStep

  ghost predicate Next(a: Queue, b: Queue, step: Step) {
    match step
    case ArriveStep(w) => Arrives(a, b, w)
    case WakeStep(id) => Wakes(a, b, id)
    case SleepStep(id) => Sleeps(a, b, id)
    case LeadStep(room, n) => Leads(a, b, room, n)
    case LogStep(ok) => AppendsLog(a, b, ok)
    case SyncStep(ok) => SyncsLog(a, b, ok)
    case ApplyStep => AppliesOne(a, b)
    case PublishStep => Publishes(a, b)
  }
}

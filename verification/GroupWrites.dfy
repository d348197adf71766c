/** Group commit and the store: every run of the write queue is a run of the store's write step. */
module GroupWrites {
  import opened InternalKeys
  import opened Version
  import opened Boundary
  import opened DbState
  import opened DbSteps

  import WriteQueue
  import GroupCommit
  import DbRuns

  /** The store has published what the queue has acknowledged. */
  ghost predicate Agrees(q: WriteQueue.Queue, d: Db) {
    d.lastSequence == q.lastSequence && d.history == Elements(GroupCommit.Acknowledged(q.completions))
  }

  /** No group that was published had failed. */
  ghost predicate AllSucceed(states: seq<WriteQueue.Queue>, steps: seq<WriteQueue.Step>, n: nat)
    requires |states| == |steps| + 1 && n <= |steps|
  {
    forall i | 0 <= i < n && steps[i].PublishStep? && states[i].phase.Finishing? :: states[i].phase.status.Ok?
  }

  /** The entries a group publishes, and the sequence it moves to, are those of the write step of its operations. */
  lemma PublishIsWrite(a: WriteQueue.Queue, b: WriteQueue.Queue, d: Db, e: Db)
    requires GroupCommit.Inv(a) && WriteQueue.Publishes(a, b) && a.phase.status.Ok?
    requires Agrees(a, d) && Write(d, e, a.phase.ops)
    ensures Agrees(b, e)
  {
    hide GroupCommit.Inv, GroupCommit.Acknowledged, WriteQueue.Complete, Write, Stamp;
    InvGivesNumbers(a);
    GroupCommit.PublishedEntries(a, b);
    WriteShape(d, e, a.phase.ops, Stamp(a.phase.ops, d.lastSequence + 1));
  }

  lemma InvGivesNumbers(q: WriteQueue.Queue)
    requires GroupCommit.Inv(q)
    ensures GroupCommit.NumberInv(q) && GroupCommit.PhaseInv(q)
  {
    hide GroupCommit.OrderInv, GroupCommit.SleepInv, GroupCommit.NumberInv, GroupCommit.PhaseInv, GroupCommit.AppliedInv,
         GroupCommit.LoggedInv;
  }

  /** Steps that publish nothing acknowledge nothing. */
  lemma OthersAgree(a: WriteQueue.Queue, b: WriteQueue.Queue, step: WriteQueue.Step, d: Db)
    requires WriteQueue.Next(a, b, step) && !step.PublishStep? && Agrees(a, d)
    ensures Agrees(b, d)
  {
    hide GroupCommit.Acknowledged, WriteQueue.Complete, Stamp, WriteQueue.GroupOps, WriteQueue.IsGroup;
    if step.LeadStep? && b.completions != a.completions {
      var done := WriteQueue.Complete(a.waiting[..1], a.lastSequence + 1, false, if step.room then WriteQueue.Ok else WriteQueue.Error);
      GroupCommit.FailureAcknowledged(a.waiting[..1], a.lastSequence + 1, false, if step.room then WriteQueue.Ok else WriteQueue.Error);
      GroupCommit.AcknowledgedConcat(a.completions, done);
    }
  }

  lemma SequenceGrows(a: WriteQueue.Queue, b: WriteQueue.Queue, step: WriteQueue.Step)
    requires WriteQueue.Next(a, b, step)
    ensures a.lastSequence <= b.lastSequence
    ensures step.PublishStep? ==> a.phase.Finishing? && b.lastSequence == a.lastSequence + |a.phase.ops|
  {
    hide WriteQueue.Complete, WriteQueue.GroupOps, WriteQueue.IsGroup, Stamp;
  }

  lemma EmptyStore(log: nat) returns (d: Db)
    ensures Init(d, log)
  {
    d := Db({}, [], None, seq(NUM_LEVELS, _ => []), 0, [], [], None, {}, log + 1, map[log := []], log, 0, log, 0, log + 1, {});
  }

  /** Main result: the first `n` steps of any run of the queue in which no group fails are a run of the store, one
      write step for each group, that ends with the same sequence number and, as its history, exactly the operations
      acknowledged to their writers. */
  lemma {:induction false} QueueRunIsStoreRun(qs: seq<WriteQueue.Queue>, qsteps: seq<WriteQueue.Step>, n: nat, log: nat)
    returns (states: seq<Db>, steps: seq<Step>)
    requires GroupCommit.IsRun(qs, qsteps) && n < |qs| && AllSucceed(qs, qsteps, n) && qs[n].lastSequence < MAX_SEQUENCE
    ensures DbRuns.IsRun(states, steps, log) && Agrees(qs[n], states[|steps|])
    ensures forall i | 0 <= i < |steps| :: steps[i].WriteStep?
    decreases n
  {
    hide Agrees, WriteQueue.Next, Next, Init, GroupCommit.Inv, WriteQueue.Init;
    if n == 0 {
      var d := EmptyStore(log);
      states, steps := [d], [];
      StartsAgree(qs[0], d, log);
    } else {
      var a, b, step := qs[n - 1], qs[n], qsteps[n - 1];
      assert GroupCommit.LinkedAt(qs, qsteps, n - 1);
      SequenceGrows(a, b, step);
      states, steps := QueueRunIsStoreRun(qs, qsteps, n - 1, log);
      var d := states[|steps|];
      if step.PublishStep? {
        GroupCommit.RunKeepsInv(qs, qsteps, n - 1);
        DbRuns.RunKeepsInv(states, steps, log, |steps|);
        var e := OneMoreWrite(a, b, step, d);
        RunExtends(states, steps, log, e, WriteStep(a.phase.ops));
        states, steps := states + [e], steps + [WriteStep(a.phase.ops)];
      } else {
        OthersAgree(a, b, step, d);
      }
    }
  }

  lemma RunExtends(states: seq<Db>, steps: seq<Step>, log: nat, e: Db, step: Step)
    requires DbRuns.IsRun(states, steps, log) && Next(states[|steps|], e, step)
    ensures DbRuns.IsRun(states + [e], steps + [step], log)
  {
    hide Next, Init;
    forall i | 0 <= i < |steps + [step]|
      ensures DbRuns.LinkedAt(states + [e], steps + [step], i)
    {
      if i < |steps| {
        assert DbRuns.LinkedAt(states, steps, i);
      }
    }
  }

  lemma StartsAgree(q: WriteQueue.Queue, d: Db, log: nat)
    requires WriteQueue.Init(q) && Init(d, log)
    ensures Agrees(q, d)
  {
  }

  lemma OneMoreWrite(a: WriteQueue.Queue, b: WriteQueue.Queue, step: WriteQueue.Step, d: Db) returns (e: Db)
    requires GroupCommit.Inv(a) && WriteQueue.Next(a, b, step) && step.PublishStep? && Inv(d) && Agrees(a, d)
    requires a.phase.Finishing? ==> a.phase.status.Ok?
    requires b.lastSequence < MAX_SEQUENCE
    ensures a.phase.Finishing? && Next(d, e, WriteStep(a.phase.ops)) && Agrees(b, e)
  {
    hide GroupCommit.Inv, Inv, Write, WriteQueue.Publishes;
    SequenceGrows(a, b, step);
    InvParts(d);
    e := WrittenNext(d, a.phase.ops, b.lastSequence);
    PublishIsWrite(a, b, d, e);
  }

  lemma WrittenNext(d: Db, ops: seq<Op>, last: nat) returns (e: Db)
    requires LogInv(d) && last == d.lastSequence + |ops| && last < MAX_SEQUENCE
    ensures Write(d, e, ops)
  {
    e := Written(d, BatchEntries(d, ops), last);
  }
}

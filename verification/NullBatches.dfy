/** Writers with a null batch, which ask for a memtable switch: exactly when they get one. */
module NullBatches {
  import opened Boundary

  import opened WriteQueue
  import opened GroupCommit

  /** In step `k` a leader's group takes in the writer `w`: all up to it fit. */
  ghost predicate Absorbs(a: Queue, step: WriteQueue.Step, w: Request) {
    && step.LeadStep? && step.room && a.waiting != [] && a.waiting[0].batch.Some?
    && exists i :: 0 < i < |a.waiting| && a.waiting[i] == w && AllFit(a.waiting, i)
  }

  ghost predicate AllFit(q: seq<Request>, i: nat)
    requires i < |q|
  {
    forall j | 0 < j <= i :: Fits(q, j)
  }

  ghost predicate Absorbed(states: seq<Queue>, steps: seq<WriteQueue.Step>, n: nat, w: Request)
    requires |states| == |steps| + 1 && n <= |steps|
  {
    exists k :: 0 <= k < n && Absorbs(states[k], steps[k], w)
  }

  // ---- Switches and completions

  ghost predicate SwitchInv(q: Queue) {
    && (forall c | c in q.completions && c.w.batch.None? :: c.w.id in q.switches <==> !c.numbered && c.status.Ok?)
    && (forall id | id in q.switches :: exists c :: c in q.completions && c.w.id == id)
  }

  /** The completions of a group are new. */
  lemma CompletedOnce(q: Queue, c: Completion, d: Completion)
    requires OrderInv(q) && c in q.completions && d in q.completions && c.w.id == d.w.id
    ensures c == d
  {
    var i :| 0 <= i < |q.completions| && q.completions[i] == c;
    var j :| 0 <= j < |q.completions| && q.completions[j] == d;
    assert q.arrivals[i] == c.w && q.arrivals[j] == d.w;
  }

  lemma PoppedAre(a: Queue, n: nat, first: nat, numbered: bool, status: Status, c: Completion)
    requires n <= |a.waiting| && c in Complete(a.waiting[..n], first, numbered, status)
    ensures c.numbered == numbered && c.status == status && c.w in a.waiting[..n]
  {
    hide Complete;
    var ws := a.waiting[..n];
    CompleteLength(ws, first, numbered, status);
    var i :| 0 <= i < |ws| && Complete(ws, first, numbered, status)[i] == c;
    CompleteAt(ws, first, numbered, status, i);
  }

  lemma PublishKeepsSwitches(a: Queue, b: Queue)
    requires GroupCommit.Inv(a) && GroupCommit.Inv(b) && SwitchInv(a) && Publishes(a, b)
    ensures SwitchInv(b)
  {
    hide Complete, NumberInv, PhaseInv, AppliedInv, LoggedInv, SleepInv, OrderInv;
    var Finishing(n, ops, first, status, syncError) := a.phase;
    forall c | c in b.completions && c.w.batch.None?
      ensures c.w.id in b.switches <==> !c.numbered && c.status.Ok?
    {
      if c !in a.completions {
        PoppedAre(a, n, first, true, status, c);
        if c.w.id in a.switches {
          var d :| d in a.completions && d.w.id == c.w.id;
          assert d in b.completions;
          CompletedOnce(b, c, d);
        }
      }
    }
    forall id | id in b.switches
      ensures exists c :: c in b.completions && c.w.id == id
    {
      var c :| c in a.completions && c.w.id == id;
      assert c in b.completions;
    }
  }

  lemma LeadKeepsSwitches(a: Queue, b: Queue, room: bool, n: nat)
    requires GroupCommit.Inv(a) && GroupCommit.Inv(b) && SwitchInv(a) && Leads(a, b, room, n)
    ensures SwitchInv(b)
  {
    hide Complete, NumberInv, PhaseInv, AppliedInv, LoggedInv, SleepInv, OrderInv, IsGroup, GroupOps;
    if !(room && a.waiting[0].batch.Some?) {
      var ws, first, status := a.waiting[..1], a.lastSequence + 1, if room then Ok else Error;
      CompleteLength(ws, first, false, status);
      CompleteAt(ws, first, false, status, 0);
      var mine := Complete(ws, first, false, status)[0];
      assert b.completions == a.completions + [mine];
      forall c | c in b.completions && c.w.batch.None?
        ensures c.w.id in b.switches <==> !c.numbered && c.status.Ok?
      {
        if c in a.completions {
          assert mine in b.completions;
          if c.w.id == mine.w.id {
            CompletedOnce(b, c, mine);
          }
        } else if c.w.id in a.switches {
          var d :| d in a.completions && d.w.id == c.w.id;
          assert d in b.completions;
          CompletedOnce(b, c, d);
        }
      }
      forall id | id in b.switches
        ensures exists c :: c in b.completions && c.w.id == id
      {
        if id in a.switches {
          var c :| c in a.completions && c.w.id == id;
          assert c in b.completions;
        } else {
          assert mine in b.completions;
        }
      }
    }
  }

  lemma {:induction false} RunKeepsSwitches(states: seq<Queue>, steps: seq<WriteQueue.Step>, n: nat)
    requires GroupCommit.IsRun(states, steps) && n < |states|
    ensures SwitchInv(states[n])
  {
    hide GroupCommit.Inv, SwitchInv, WriteQueue.Next;
    if n == 0 {
      NoSwitches(states[0]);
    } else {
      RunKeepsSwitches(states, steps, n - 1);
      GroupCommit.RunKeepsInv(states, steps, n - 1);
      GroupCommit.RunKeepsInv(states, steps, n);
      assert GroupCommit.LinkedAt(states, steps, n - 1);
      StepKeepsSwitches(states[n - 1], states[n], steps[n - 1]);
    }
  }

  lemma NoSwitches(q: Queue)
    requires WriteQueue.Init(q)
    ensures SwitchInv(q)
  {
  }

  lemma StepKeepsSwitches(a: Queue, b: Queue, step: WriteQueue.Step)
    requires GroupCommit.Inv(a) && GroupCommit.Inv(b) && SwitchInv(a) && WriteQueue.Next(a, b, step)
    ensures SwitchInv(b)
  {
    hide GroupCommit.Inv, Leads, Publishes;
    match step
    case LeadStep(room, n) => LeadKeepsSwitches(a, b, room, n);
    case PublishStep => PublishKeepsSwitches(a, b);
    case _ =>
  }

  // ---- Groups from the lead to the end

  /** Step `k` formed the group that is at work in state `n`. */
  ghost predicate FormedAt(a: Queue, step: WriteQueue.Step, b: Queue) {
    && step.LeadStep? && step.room && a.waiting != [] && a.waiting[0].batch.Some?
    && !b.phase.Waiting? && b.phase.n <= |b.waiting| && IsGroup(a.waiting, b.phase.n)
    && a.waiting[..b.phase.n] == b.waiting[..b.phase.n]
  }

  lemma {:induction false} GroupWasFormed(states: seq<Queue>, steps: seq<WriteQueue.Step>, n: nat) returns (k: nat)
    requires GroupCommit.IsRun(states, steps) && n < |states| && !states[n].phase.Waiting?
    ensures k < n && FormedAt(states[k], steps[k], states[n])
  {
    hide GroupCommit.Inv, WriteQueue.Next, FormedAt;
    GroupCommit.RunKeepsInv(states, steps, n);
    InitWaits(states[0]);
    k := 0;
    if n > 0 {
      GroupCommit.RunKeepsInv(states, steps, n - 1);
      assert GroupCommit.LinkedAt(states, steps, n - 1);
      if states[n - 1].phase.Waiting? {
        k := n - 1;
        LeadForms(states[n - 1], states[n], steps[n - 1]);
      } else {
        k := GroupWasFormed(states, steps, n - 1);
        StepKeepsGroup(states[n - 1], states[n], steps[n - 1]);
        StillFormed(states[k], steps[k], states[n - 1], states[n]);
      }
    }
  }

  lemma InitWaits(q: Queue)
    requires WriteQueue.Init(q)
    ensures q.phase.Waiting?
  {
  }

  lemma LeadForms(a: Queue, b: Queue, step: WriteQueue.Step)
    requires GroupCommit.Inv(b) && WriteQueue.Next(a, b, step) && a.phase.Waiting? && !b.phase.Waiting?
    ensures FormedAt(a, step, b)
  {
    hide OrderInv, NumberInv, AppliedInv, LoggedInv, SleepInv, IsGroup, GroupOps, Complete;
  }

  /** A group at work keeps its place at the front of the queue. */
  lemma StepKeepsGroup(a: Queue, b: Queue, step: WriteQueue.Step)
    requires GroupCommit.Inv(a) && WriteQueue.Next(a, b, step) && !a.phase.Waiting? && !b.phase.Waiting?
    ensures b.phase.n == a.phase.n <= |a.waiting| <= |b.waiting| && b.waiting[..b.phase.n] == a.waiting[..a.phase.n]
  {
    hide OrderInv, NumberInv, AppliedInv, LoggedInv, SleepInv, IsGroup, GroupOps, Complete;
  }

  lemma StillFormed(x: Queue, step: WriteQueue.Step, a: Queue, b: Queue)
    requires FormedAt(x, step, a) && !b.phase.Waiting? && b.phase.n == a.phase.n <= |a.waiting| <= |b.waiting|
    requires b.waiting[..b.phase.n] == a.waiting[..a.phase.n]
    ensures FormedAt(x, step, b)
  {
    hide IsGroup;
  }

  /** A null batch that was given a place in a group's numbers had been absorbed by the group. */
  lemma {:induction false} NumberedWasAbsorbed(states: seq<Queue>, steps: seq<WriteQueue.Step>, n: nat, c: Completion)
    requires GroupCommit.IsRun(states, steps) && n < |states|
    requires c in states[n].completions && c.w.batch.None? && c.numbered
    ensures Absorbed(states, steps, n, c.w)
    decreases n
  {
    hide GroupCommit.Inv, WriteQueue.Next, Absorbs;
    NothingCompleted(states[0]);
    if n > 0 {
      GroupCommit.RunKeepsInv(states, steps, n - 1);
      assert GroupCommit.LinkedAt(states, steps, n - 1);
      if c in states[n - 1].completions {
        NumberedWasAbsorbed(states, steps, n - 1, c);
        var k :| 0 <= k < n - 1 && Absorbs(states[k], steps[k], c.w);
        assert 0 <= k < n && Absorbs(states[k], steps[k], c.w);
      } else {
        NumberedIsPublished(states[n - 1], states[n], steps[n - 1], c);
        var k := GroupWasFormed(states, steps, n - 1);
        MemberIsAbsorbed(states[k], steps[k], states[n - 1], c.w);
      }
    }
  }

  lemma NothingCompleted(q: Queue)
    requires WriteQueue.Init(q)
    ensures q.completions == []
  {
  }

  lemma NumberedIsPublished(a: Queue, b: Queue, step: WriteQueue.Step, c: Completion)
    requires GroupCommit.Inv(a) && WriteQueue.Next(a, b, step) && c in b.completions && c !in a.completions && c.numbered
    ensures a.phase.Finishing? && a.phase.n <= |a.waiting| && c.w in a.waiting[..a.phase.n]
  {
    hide GroupCommit.Inv, IsGroup, GroupOps, Complete;
    if step.LeadStep? {
      var status := if step.room then Ok else Error;
      if c in Complete(a.waiting[..1], a.lastSequence + 1, false, status) {
        PoppedAre(a, 1, a.lastSequence + 1, false, status, c);
      }
    } else if step.PublishStep? {
      PoppedAre(a, a.phase.n, a.phase.first, true, a.phase.status, c);
    }
  }

  lemma MemberIsAbsorbed(x: Queue, step: WriteQueue.Step, a: Queue, w: Request)
    requires FormedAt(x, step, a) && w in a.waiting[..a.phase.n] && w.batch.None?
    ensures Absorbs(x, step, w)
  {
    var i :| 0 <= i < a.phase.n && a.waiting[..a.phase.n][i] == w;
    assert x.waiting[..a.phase.n][i] == w;
    GroupReachesIff(x.waiting, a.phase.n, i);
    assert AllFit(x.waiting, i);
  }

  // ---- Absorbed writers

  /** `w` is in the group at work, or was completed with one. */
  ghost predicate InOrAfterGroup(q: Queue, w: Request) {
    || (!q.phase.Waiting? && q.phase.n <= |q.waiting| && w in q.waiting[..q.phase.n])
    || exists c :: c in q.completions && c.w == w && c.numbered
  }

  lemma AbsorbsStarts(a: Queue, b: Queue, step: WriteQueue.Step, w: Request)
    requires WriteQueue.Next(a, b, step) && Absorbs(a, step, w)
    ensures InOrAfterGroup(b, w)
  {
    hide GroupOps, Complete;
    var i :| 0 < i < |a.waiting| && a.waiting[i] == w && AllFit(a.waiting, i);
    GroupReachesIff(a.waiting, step.n, i);
    assert b.waiting[..step.n][i] == w;
  }

  lemma StepKeepsAbsorbed(a: Queue, b: Queue, step: WriteQueue.Step, w: Request)
    requires GroupCommit.Inv(a) && WriteQueue.Next(a, b, step) && InOrAfterGroup(a, w)
    ensures InOrAfterGroup(b, w)
  {
    hide GroupCommit.Inv, IsGroup, GroupOps, Complete;
    StepGrowsCompletions(a, b, step);
    if c :| c in a.completions && c.w == w && c.numbered {
      assert c in b.completions;
    } else if b.phase.Waiting? {
      assert step.PublishStep? by {
        GroupEndsByPublish(a, b, step);
      }
      MemberIsCompleted(a, b, w);
    } else {
      StepKeepsGroup(a, b, step);
    }
  }

  lemma GroupEndsByPublish(a: Queue, b: Queue, step: WriteQueue.Step)
    requires WriteQueue.Next(a, b, step) && !a.phase.Waiting? && b.phase.Waiting?
    ensures step.PublishStep?
  {
    hide IsGroup, GroupOps, Complete;
  }

  lemma MemberIsCompleted(a: Queue, b: Queue, w: Request)
    requires Publishes(a, b) && w in a.waiting[..a.phase.n]
    ensures exists c :: c in b.completions && c.w == w && c.numbered
  {
    hide Complete;
    var ws := a.waiting[..a.phase.n];
    var i :| 0 <= i < |ws| && ws[i] == w;
    CompleteLength(ws, a.phase.first, true, a.phase.status);
    CompleteAt(ws, a.phase.first, true, a.phase.status, i);
    var c := Complete(ws, a.phase.first, true, a.phase.status)[i];
    assert c in b.completions;
  }

  lemma {:induction false} AbsorbedStays(states: seq<Queue>, steps: seq<WriteQueue.Step>, k: nat, n: nat, w: Request)
    requires GroupCommit.IsRun(states, steps) && k < n < |states| && Absorbs(states[k], steps[k], w)
    ensures InOrAfterGroup(states[n], w)
    decreases n
  {
    hide GroupCommit.Inv, WriteQueue.Next, Absorbs, InOrAfterGroup;
    assert GroupCommit.LinkedAt(states, steps, n - 1);
    if n == k + 1 {
      AbsorbsStarts(states[k], states[n], steps[k], w);
    } else {
      AbsorbedStays(states, steps, k, n - 1, w);
      GroupCommit.RunKeepsInv(states, steps, n - 1);
      StepKeepsAbsorbed(states[n - 1], states[n], steps[n - 1], w);
    }
  }

  lemma CompletedIsNotWaiting(q: Queue, c: Completion, w: Request)
    requires OrderInv(q) && c in q.completions && w in q.waiting
    ensures c.w != w
  {
    var i :| 0 <= i < |q.completions| && q.completions[i] == c;
    var j :| 0 <= j < |q.waiting| && q.waiting[j] == w;
    assert q.arrivals[i] == c.w && q.arrivals[|q.completions| + j] == w;
  }

  lemma AbsorbedIsNumbered(q: Queue, c: Completion)
    requires GroupCommit.Inv(q) && c in q.completions && InOrAfterGroup(q, c.w)
    ensures c.numbered
  {
    hide NumberInv, AppliedInv, LoggedInv, SleepInv, PhaseInv, OrderInv;
    if d :| d in q.completions && d.w == c.w && d.numbered {
      CompletedOnce(q, c, d);
    } else {
      CompletedIsNotWaiting(q, c, c.w);
    }
  }

  /** Main result: a writer with a null batch that has been completed forced a memtable switch exactly if it
      succeeded and no earlier leader's group had taken it in, that is, no leader found it at a place in the
      queue up to which everyone fits. */
  lemma NullBatchSwitchesIff(states: seq<Queue>, steps: seq<WriteQueue.Step>, n: nat, c: Completion)
    requires GroupCommit.IsRun(states, steps) && n < |states| && c in states[n].completions && c.w.batch.None?
    ensures c.w.id in states[n].switches <==> c.status.Ok? && !Absorbed(states, steps, n, c.w)
    ensures c.numbered <==> Absorbed(states, steps, n, c.w)
  {
    hide GroupCommit.Inv, WriteQueue.Next, Absorbs, InOrAfterGroup;
    RunKeepsSwitches(states, steps, n);
    if c.numbered {
      NumberedWasAbsorbed(states, steps, n, c);
    }
    if Absorbed(states, steps, n, c.w) {
      var k :| 0 <= k < n && Absorbs(states[k], steps[k], c.w);
      AbsorbedStays(states, steps, k, n, c.w);
      GroupCommit.RunKeepsInv(states, steps, n);
      AbsorbedIsNumbered(states[n], c);
    }
  }
}

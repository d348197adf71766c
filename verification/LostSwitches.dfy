/** A run of the write queue in which a request to switch the memtable is lost. */
module LostSwitches {
  import opened InternalKeys
  import opened Boundary
  import opened DbState

  import opened WriteQueue
  import opened GroupCommit

  const WRITER := Request(1, Some([Op(1.0, Put, "v")]), 1, false)
  const SWITCHER := Request(2, None, 0, false)
  const LOST_STEPS := [ArriveStep(WRITER), ArriveStep(SWITCHER), LeadStep(true, 2), LogStep(true), ApplyStep, ApplyStep, PublishStep]

  /** The queue after each of the steps. */
  function LostState(i: nat): Queue {
    var ops := [Op(1.0, Put, "v")];
    var idle := Queue([], {}, Waiting, [], {}, 0, false, {}, [], []);
    var both := idle.(waiting := [WRITER, SWITCHER], asleep := {2}, arrivals := [WRITER, SWITCHER]);
    var logged := both.(log := [LogRecord(1, ops, false)]);
    var applied := logged.(applied := {Entry(InternalKey(1.0, 1, Put), "v")});
    if i == 0 then idle
    else if i == 1 then idle.(waiting := [WRITER], arrivals := [WRITER])
    else if i == 2 then both
    else if i == 3 then both.(phase := Logging(2, ops, 1))
    else if i == 4 then logged.(phase := Applying(2, ops, 1, 0))
    else if i == 5 then applied.(phase := Applying(2, ops, 1, 1))
    else if i == 6 then applied.(phase := Finishing(2, ops, 1, Ok, false))
    else applied.(waiting := [], asleep := {}, lastSequence := 1,
                  completions := [Completion(WRITER, 1, true, Ok), Completion(SWITCHER, 2, true, Ok)])
  }

  lemma BothAreAGroup()
    ensures IsGroup([WRITER, SWITCHER], 2) && GroupOps([WRITER, SWITCHER]) == [Op(1.0, Put, "v")]
    ensures Complete([WRITER, SWITCHER], 1, true, Ok) == [Completion(WRITER, 1, true, Ok), Completion(SWITCHER, 2, true, Ok)]
  {
    var both := [WRITER, SWITCHER];
    assert both[..1] == [WRITER] && [WRITER][..0] == [] && both[..2] == both;
    assert GroupOps([WRITER]) == [] + [Op(1.0, Put, "v")];
    assert Complete([WRITER], 1, true, Ok) == [] + [Completion(WRITER, 1, true, Ok)];
  }

  lemma TheyArrive()
    ensures WriteQueue.Next(LostState(0), LostState(1), LOST_STEPS[0])
    ensures WriteQueue.Next(LostState(1), LostState(2), LOST_STEPS[1])
  {
    hide IsGroup, GroupOps, Complete, Stamp;
    assert [] + [WRITER] == [WRITER] && [WRITER] + [SWITCHER] == [WRITER, SWITCHER];
  }

  lemma OneLeads()
    ensures WriteQueue.Next(LostState(2), LostState(3), LOST_STEPS[2])
    ensures WriteQueue.Next(LostState(3), LostState(4), LOST_STEPS[3])
  {
    hide IsGroup, GroupOps, Complete, Stamp;
    BothAreAGroup();
    assert [WRITER, SWITCHER][..2] == [WRITER, SWITCHER];
  }

  lemma OneApplies()
    ensures WriteQueue.Next(LostState(4), LostState(5), LOST_STEPS[4])
    ensures WriteQueue.Next(LostState(5), LostState(6), LOST_STEPS[5])
  {
    hide IsGroup, GroupOps, Complete;
    assert Stamp([Op(1.0, Put, "v")], 1)[0] == Entry(InternalKey(1.0, 1, Put), "v");
    assert LostState(5).applied == LostState(4).applied + {Entry(InternalKey(1.0, 1, Put), "v")};
  }

  lemma BothAreDone()
    ensures WriteQueue.Next(LostState(6), LostState(7), LOST_STEPS[6])
  {
    hide IsGroup, GroupOps, Complete, Stamp;
    var both := [WRITER, SWITCHER];
    BothAreAGroup();
    assert both[..2] == both && both[2..] == [];
    assert Ids(both) == {1, 2};
    assert LostState(7).asleep == LostState(6).asleep - Ids(both) - {};
  }

  /** A run in which a writer asks for a memtable switch, is completed with success, and no memtable was switched:
      it joined the group of the writer before it. */
  lemma SwitchIsLost() returns (states: seq<Queue>, steps: seq<WriteQueue.Step>, c: Completion)
    ensures GroupCommit.IsRun(states, steps)
    ensures c in states[|steps|].completions && c.w.batch.None? && c.status.Ok?
    ensures states[|steps|].switches == {} && states[|steps|].waiting == []
  {
    hide WriteQueue.Next;
    states, steps := seq(8, i requires 0 <= i < 8 => LostState(i)), LOST_STEPS;
    c := Completion(SWITCHER, 2, true, Ok);
    assert states[7].completions[1] == c;
    TheyArrive();
    OneLeads();
    OneApplies();
    BothAreDone();
    forall i | 0 <= i < |steps|
      ensures GroupCommit.LinkedAt(states, steps, i)
    {
    }
  }
}

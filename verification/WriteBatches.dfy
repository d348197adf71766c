/** WriteBatch: operations appended to a byte string, and read back in order. */
module WriteBatches {
  import opened Coding

  type Bytes = seq<Byte>

  /** One operation of a batch, its key and value as bytes. */
  datatype ByteOp = Put(key: Bytes, value: Bytes) | Delete(key: Bytes)

  /** Sequence and count come before the records. */
  const HEADER: nat := 12

  const TYPE_DELETION: Byte := 0
  const TYPE_VALUE: Byte := 1

  /** The count is an `int` of 32 bits. */
  const MAX_COUNT: nat := 0x7fff_ffff

  function PutOp(op: ByteOp): (r: Bytes)
    ensures r != []
  {
    match op
    case Put(key, value) => [TYPE_VALUE] + (PutSlice(key) + PutSlice(value))
    case Delete(key) => [TYPE_DELETION] + PutSlice(key)
  }

  function PutOps(ops: seq<ByteOp>): Bytes {
    if ops == [] then [] else PutOp(ops[0]) + PutOps(ops[1..])
  }

  lemma {:induction false} PutOpsConcat(a: seq<ByteOp>, b: seq<ByteOp>)
    ensures PutOps(a + b) == PutOps(a) + PutOps(b)
  {
    if a == [] {
      assert a + b == b;
    } else {
      assert (a + b)[1..] == a[1..] + b;
      PutOpsConcat(a[1..], b);
    }
  }

  ghost predicate Fits(op: ByteOp) {
    |op.key| < TWO_32 && (op.Put? ==> |op.value| < TWO_32)
  }

  /** `rep` is the batch of these operations, starting at sequence number `sn`. */
  ghost predicate Holds(rep: Bytes, sn: nat, ops: seq<ByteOp>) {
    && sn < TWO_64 && |ops| <= MAX_COUNT && (forall op | op in ops :: Fits(op))
    && rep == PutFixed64(sn) + PutFixed32(|ops|) + PutOps(ops)
  }

  // ---- Reading

  datatype Status = Ok | TooSmall | BadPut | BadDelete | UnknownTag | WrongCount

  /** The calls the handler gets, and how the iteration ends. */
  datatype Iteration = Iteration(calls: seq<ByteOp>, status: Status)

  /** One record. */
  datatype Step = Step(op: ByteOp, rest: Bytes) | Stop(status: Status)

  function ReadOp(s: Bytes): (r: Step)
    requires s != []
    ensures r.Step? ==> |r.rest| < |s|
  {
    if s[0] == TYPE_VALUE then
      match GetSlice(s[1..])
      case Failed => Stop(BadPut)
      case Parsed(key, s1) =>
        match GetSlice(s1)
        case Failed => Stop(BadPut)
        case Parsed(value, s2) =>
          SliceShrinks(s[1..]);
          SliceShrinks(s1);
          Step(Put(key, value), s2)
    else if s[0] == TYPE_DELETION then
      match GetSlice(s[1..])
      case Failed => Stop(BadDelete)
      case Parsed(key, s1) =>
        SliceShrinks(s[1..]);
        Step(Delete(key), s1)
    else Stop(UnknownTag)
  }

  lemma SliceShrinks(s: Bytes)
    ensures GetSlice(s).Parsed? ==> |GetSlice(s).rest| < |s|
  {
    BitsConsume(s, 5);
  }

  /** What the records `s` make of the handler that has already seen `calls`. */
  function ReadOps(s: Bytes, calls: seq<ByteOp>): Iteration
    decreases |s|
  {
    if s == [] then Iteration(calls, Ok)
    else
      match ReadOp(s)
      case Stop(status) => Iteration(calls, status)
      case Step(op, rest) => ReadOps(rest, calls + [op])
  }

  function Count(rep: Bytes): nat
    requires |rep| >= HEADER
  {
    GetFixed32(rep, 8)
  }

  function Sequence(rep: Bytes): nat
    requires |rep| >= HEADER
  {
    GetFixed64(rep, 0)
  }

  /** WriteBatch::Iterate. */
  function Iterated(rep: Bytes): Iteration {
    if |rep| < HEADER then Iteration([], TooSmall)
    else
      var it := ReadOps(rep[HEADER..], []);
      if it.status.Ok? && |it.calls| != Count(rep) then it.(status := WrongCount) else it
  }

  lemma ReadPutOp(op: ByteOp, more: Bytes)
    requires Fits(op)
    ensures ReadOp(PutOp(op) + more) == Step(op, more)
  {
    hide PutSlice, GetSlice, PutOp, ReadOp;
    match op
    case Put(key, value) => ReadPut(key, value, more);
    case Delete(key) => ReadDelete(key, more);
  }

  lemma ReadPut(key: Bytes, value: Bytes, more: Bytes)
    requires |key| < TWO_32 && |value| < TWO_32
    ensures ReadOp(PutOp(Put(key, value)) + more) == Step(Put(key, value), more)
  {
    hide PutSlice, GetSlice;
    var s := PutOp(Put(key, value)) + more;
    assert s[1..] == PutSlice(key) + (PutSlice(value) + more);
    SliceRoundTrip(key, PutSlice(value) + more);
    SliceRoundTrip(value, more);
  }

  lemma ReadDelete(key: Bytes, more: Bytes)
    requires |key| < TWO_32
    ensures ReadOp(PutOp(Delete(key)) + more) == Step(Delete(key), more)
  {
    hide PutSlice, GetSlice;
    var s := PutOp(Delete(key)) + more;
    assert s[1..] == PutSlice(key) + more;
    SliceRoundTrip(key, more);
  }

  lemma {:induction false} ReadPutOps(ops: seq<ByteOp>, calls: seq<ByteOp>)
    requires forall op | op in ops :: Fits(op)
    ensures ReadOps(PutOps(ops), calls) == Iteration(calls + ops, Ok)
  {
    hide PutOp, ReadOp;
    if ops == [] {
      assert calls + ops == calls;
    } else {
      ReadPutOp(ops[0], PutOps(ops[1..]));
      ReadPutOps(ops[1..], calls + [ops[0]]);
      assert calls + [ops[0]] + ops[1..] == calls + ops;
    }
  }

  lemma HeaderOf(rep: Bytes, sn: nat, ops: seq<ByteOp>)
    requires Holds(rep, sn, ops)
    ensures |rep| >= HEADER && rep[HEADER..] == PutOps(ops)
    ensures Count(rep) == |ops| && Sequence(rep) == sn
    ensures forall op | op in ops :: Fits(op)
  {
    hide PutFixed32, PutFixed64, GetFixed32, GetFixed64, PutOps, Fits;
    assert rep[0..8] == PutFixed64(sn) && rep[8..12] == PutFixed32(|ops|);
    Fixed64Iff(sn, rep, 0);
    Fixed32RoundTrip(|ops|, rep, 8);
  }

  /** Main result: a batch is read back as exactly the operations put into it. */
  lemma IterateReadsBack(rep: Bytes, sn: nat, ops: seq<ByteOp>)
    requires Holds(rep, sn, ops)
    ensures Iterated(rep) == Iteration(ops, Ok)
  {
    hide PutOps, ReadOps, GetFixed32;
    HeaderOf(rep, sn, ops);
    ReadPutOps(ops, []);
    assert [] + ops == ops;
  }

  // ---- The class

  /** What the memtable is given: MemTable::Add(sequence, type, key, value). */
  datatype Added = Added(sn: nat, op: ByteOp)

  function Numbered(ops: seq<ByteOp>, first: nat): (r: seq<Added>)
    ensures |r| == |ops| && forall i | 0 <= i < |r| :: r[i] == Added(first + i, ops[i])
  {
    seq(|ops|, i requires 0 <= i < |ops| => Added(first + i, ops[i]))
  }

  /** A batch whose sequence was overwritten. */
  lemma Resequenced(before: Bytes, after: Bytes, was: nat, sn: nat, ops: seq<ByteOp>)
    requires Holds(before, was, ops) && sn < TWO_64 && |before| >= HEADER && after == PutFixed64(sn) + before[8..]
    ensures Holds(after, sn, ops)
  {
    hide PutFixed32, PutFixed64, PutOps;
    assert before[8..] == PutFixed32(|ops|) + PutOps(ops);
    assert after == PutFixed64(sn) + PutFixed32(|ops|) + PutOps(ops);
  }

  /** A batch whose count was raised and whose records were extended. */
  lemma Extended(before: Bytes, after: Bytes, sn: nat, ops: seq<ByteOp>, more: seq<ByteOp>, records: Bytes)
    requires Holds(before, sn, ops) && |ops| + |more| <= MAX_COUNT && forall op | op in more :: Fits(op)
    requires |before| >= HEADER && before[HEADER..] == PutOps(ops)
    requires records == PutOps(more) || exists op :: more == [op] && records == PutOp(op)
    requires after == before[..8] + PutFixed32(|ops| + |more|) + before[HEADER..] + records
    ensures Holds(after, sn, ops + more)
  {
    hide PutFixed32, PutFixed64, PutOps, PutOp, Fits;
    PutOpsConcat(ops, more);
    if op :| more == [op] && records == PutOp(op) {
      OneRecord(op);
    }
    assert before[..8] == PutFixed64(sn);
    assert after == PutFixed64(sn) + PutFixed32(|ops + more|) + (PutOps(ops) + PutOps(more));
  }

  lemma OneRecord(op: ByteOp)
    ensures PutOps([op]) == PutOp(op)
  {
    assert PutOps([op]) == PutOp(op) + PutOps([]);
  }

  class WriteBatch {
    var rep: Bytes

    /** An empty batch. */
    constructor ()
      ensures Holds(rep, 0, [])
    {
      rep := PutFixed64(0) + PutFixed32(0);
      new;
      assert rep == PutFixed64(0) + PutFixed32(0) + PutOps([]);
    }

    method Clear()
      modifies this
      ensures Holds(rep, 0, [])
    {
      rep := PutFixed64(0) + PutFixed32(0);
      assert rep == PutFixed64(0) + PutFixed32(0) + PutOps([]);
    }

    /** EncodeFixed32(&rep_[8], n). */
    method SetCount(n: nat)
      requires |rep| >= HEADER
      modifies this
      ensures rep == old(rep)[..8] + PutFixed32(n) + old(rep)[HEADER..]
    {
      rep := rep[..8] + PutFixed32(n) + rep[HEADER..];
    }

    method SetSequence(sn: nat, ghost was: nat, ghost ops: seq<ByteOp>)
      requires Holds(rep, was, ops) && sn < TWO_64
      modifies this
      ensures Holds(rep, sn, ops)
    {
      hide Holds, PutFixed32, PutFixed64, PutOps, GetFixed32, GetFixed64, Fits;
      HeaderOf(rep, was, ops);
      ghost var before := rep;
      rep := PutFixed64(sn) + rep[8..];
      Resequenced(before, rep, was, sn, ops);
    }

    /** Put and Delete: one more in the header, one more record at the end. */
    method Add(op: ByteOp, ghost sn: nat, ghost ops: seq<ByteOp>)
      requires Holds(rep, sn, ops) && |ops| < MAX_COUNT && Fits(op)
      modifies this
      ensures Holds(rep, sn, ops + [op])
    {
      hide Holds, PutFixed32, PutFixed64, PutOps, PutOp, GetFixed32, GetFixed64, Fits;
      HeaderOf(rep, sn, ops);
      ghost var before := rep;
      SetCount(Count(rep) + 1);
      AddRecord(op);
      Extended(before, rep, sn, ops, [op], PutOp(op));
    }

    /** The record of one operation. */
    method AddRecord(op: ByteOp)
      modifies this
      ensures rep == old(rep) + PutOp(op)
    {
      hide PutSlice;
      match op {
        case Put(key, value) =>
          rep := rep + [TYPE_VALUE];
          rep := rep + PutSlice(key);
          rep := rep + PutSlice(value);
        case Delete(key) =>
          rep := rep + [TYPE_DELETION];
          rep := rep + PutSlice(key);
      }
    }

    /** WriteBatchInternal::Append, which builds the groups of the write queue. */
    method Append(source: WriteBatch, ghost sn: nat, ghost ops: seq<ByteOp>, ghost sn': nat, ghost more: seq<ByteOp>)
      requires Holds(rep, sn, ops) && Holds(source.rep, sn', more) && |ops| + |more| <= MAX_COUNT && source != this
      modifies this
      ensures Holds(rep, sn, ops + more)
    {
      hide Holds, PutFixed32, PutFixed64, PutOps, PutOp, GetFixed32, GetFixed64, Fits;
      HeaderOf(rep, sn, ops);
      HeaderOf(source.rep, sn', more);
      ghost var before := rep;
      SetCount(Count(rep) + Count(source.rep));
      rep := rep + source.rep[HEADER..];
      Extended(before, rep, sn, ops, more, PutOps(more));
    }

    /** InsertInto: iterate with a handler that adds each operation to the memtable under the next sequence
        number.  Operations before a malformed record have been added when it is met. */
    method InsertInto() returns (table: seq<Added>, status: Status)
      ensures Iterated(rep).status == status
      ensures if |rep| < HEADER then table == [] else table == Numbered(Iterated(rep).calls, Sequence(rep))
    {
      hide ReadOp, GetFixed32, GetFixed64;
      if |rep| < HEADER {
        return [], TooSmall;
      }
      var sequence := Sequence(rep);
      ghost var calls: seq<ByteOp> := [];
      var input, found := rep[HEADER..], 0;
      table := [];
      while input != []
        invariant ReadOps(input, calls) == ReadOps(rep[HEADER..], [])
        invariant table == Numbered(calls, Sequence(rep)) && found == |calls| && sequence == Sequence(rep) + found
        decreases |input|
      {
        found := found + 1;
        var step := ReadOp(input);
        if step.Stop? {
          assert !step.status.Ok? by {
            StopIsError(input);
          }
          return table, step.status;
        }
        table := table + [Added(sequence, step.op)];
        sequence := sequence + 1;
        calls := calls + [step.op];
        input := step.rest;
      }
      status := if found != Count(rep) then WrongCount else Ok;
    }
  }

  lemma StopIsError(s: Bytes)
    requires s != [] && ReadOp(s).Stop?
    ensures !ReadOp(s).status.Ok?
  {
  }

  /** The whole way of a batch into the memtable: the operations in order, with consecutive sequence numbers. */
  lemma InsertedInOrder(rep: Bytes, sn: nat, ops: seq<ByteOp>)
    requires Holds(rep, sn, ops)
    ensures Numbered(Iterated(rep).calls, Sequence(rep)) == Numbered(ops, sn)
  {
    IterateReadsBack(rep, sn, ops);
    HeaderOf(rep, sn, ops);
  }

  // ---- Groups

  function Concat(batches: seq<seq<ByteOp>>): seq<ByteOp> {
    if batches == [] then [] else Concat(batches[..|batches| - 1]) + batches[|batches| - 1]
  }

  /** BuildBatchGroup's appending: the temporary batch becomes the concatenation of the writers' batches. */
  method AppendAll(batches: seq<WriteBatch>, ghost opss: seq<seq<ByteOp>>) returns (tmp: WriteBatch)
    requires |opss| == |batches| && |Concat(opss)| <= MAX_COUNT
    requires forall i | 0 <= i < |batches| :: Holds(batches[i].rep, 0, opss[i])
    ensures fresh(tmp) && Holds(tmp.rep, 0, Concat(opss))
  {
    tmp := new WriteBatch();
    assert Concat(opss[..0]) == [];
    for i := 0 to |batches|
      invariant fresh(tmp) && Holds(tmp.rep, 0, Concat(opss[..i]))
    {
      ConcatNext(opss, i);
      tmp.Append(batches[i], 0, Concat(opss[..i]), 0, opss[i]);
    }
    assert opss[..|opss|] == opss;
  }

  lemma ConcatNext(opss: seq<seq<ByteOp>>, i: nat)
    requires i < |opss|
    ensures Concat(opss[..i + 1]) == Concat(opss[..i]) + opss[i]
    ensures |Concat(opss[..i + 1])| <= |Concat(opss)|
  {
    assert opss[..i + 1][..i] == opss[..i];
    ConcatGrows(opss, i + 1);
  }

  lemma {:induction false} ConcatGrows(opss: seq<seq<ByteOp>>, i: nat)
    requires i <= |opss|
    ensures |Concat(opss[..i])| <= |Concat(opss)|
    decreases |opss|
  {
    if i == |opss| {
      assert opss[..i] == opss;
    } else {
      ConcatGrows(opss[..|opss| - 1], i);
      assert opss[..|opss| - 1][..i] == opss[..i];
    }
  }
}

/** What is written to a log is read back, up to the point where the file was cut off. */
module LogRoundTrip {
  import opened LogFormat

  /** From position `p` the file goes on as `s`, as far as it reaches. */
  ghost predicate Follows(file: seq<Byte>, p: nat, s: seq<Byte>) {
    p <= |file| && forall i | 0 <= i < |s| && p + i < |file| :: file[p + i] == s[i]
  }

  lemma FollowsPart(file: seq<Byte>, p: nat, s: seq<Byte>, t: seq<Byte>)
    requires Follows(file, p, s + t)
    ensures Follows(file, p, s)
    ensures p + |s| <= |file| ==> Follows(file, p + |s|, t)
  {
    assert forall i | 0 <= i < |s| :: (s + t)[i] == s[i];
    assert forall i | 0 <= i < |t| :: (s + t)[|s| + i] == t[i];
  }

  lemma FollowsWhole(file: seq<Byte>, p: nat, s: seq<Byte>)
    requires Follows(file, p, s) && p + |s| <= |file|
    ensures file[p..p + |s|] == s
  {
  }

  // ---- One physical record

  /** A header that reaches into the block has its seven bytes there. */
  lemma BlockRoom(file: seq<Byte>, s: nat, n: nat)
    requires s <= |file| && s % BLOCK + n <= BLOCK
    ensures s + n <= |file| ==> s + n <= BlockEnd(file, s)
    ensures s + n > |file| ==> BlockEnd(file, s) == |file| && !WholeBlock(file, s)
  {
  }

  lemma PhysicalBytes(t: Byte, payload: seq<Byte>)
    requires |payload| < 0x10000
    ensures var r := Physical(t, payload);
            && r[..4] == StoredCrc(t, payload) && r[4] == Low(|payload|) && r[5] == High(|payload|) && r[6] == t
            && r[7..] == payload
  {
    hide StoredCrc, Low, High;
  }

  /** A whole physical record is parsed as what was written; a cut one is the end of the file. */
  lemma ParsePhysical(file: seq<Byte>, s: nat, t: Byte, payload: seq<Byte>)
    requires |payload| < 0x10000 && IsType(t) && s % BLOCK + HEADER + |payload| <= BLOCK
    requires Follows(file, s, Physical(t, payload))
    ensures s + HEADER + |payload| <= |file| ==> Parse(file, s) == Fragmented(t, payload, s + HEADER + |payload|)
    ensures s + HEADER + |payload| > |file| ==> Parse(file, s) == End
  {
    hide StoredCrc, CrcMatches, Low, High, Length, Physical, WholeBlock, BlockEnd;
    var r := Physical(t, payload);
    PhysicalBytes(t, payload);
    LengthRoundTrip(|payload|);
    BlockRoom(file, s, HEADER);
    BlockRoom(file, s, HEADER + |payload|);
    if s + HEADER <= |file| {
      assert file[s + 4] == r[4] && file[s + 5] == r[5] && file[s + 6] == r[6];
      if s + HEADER + |payload| <= |file| {
        FollowsWhole(file, s, r);
        assert file[s..s + 4] == r[..4];
        assert file[s + HEADER..s + HEADER + |payload|] == r[7..];
        StoredCrcMatches(t, payload);
      }
    }
  }

  /** The reader skips a trailer. */
  lemma ParseTrailer(file: seq<Byte>, p: nat)
    requires p <= |file| && Trailer(p % BLOCK) > 0
    ensures p + Trailer(p % BLOCK) <= |file| ==> Parse(file, p) == Parse(file, p + Trailer(p % BLOCK))
    ensures p + Trailer(p % BLOCK) > |file| ==> Parse(file, p) == End
  {
  }

  /** How much of what is left of a record goes into the fragment written at block offset `off`. */
  function Portion(off: nat, left: seq<Byte>): nat
    requires off <= BLOCK
  {
    if |left| < Available(off) then |left| else Available(off)
  }

  lemma HeaderFits(p: nat, n: nat)
    requires n <= Available(p % BLOCK)
    ensures RecordOffset(p) % BLOCK + HEADER + n <= BLOCK && n < 0x10000
  {
    if Trailer(p % BLOCK) > 0 {
      assert RecordOffset(p) % BLOCK == 0;
    }
  }

  /** One fragment with the trailer before it. */
  lemma ParseFragment(file: seq<Byte>, p: nat, left: seq<Byte>, begin: bool)
    requires p <= |file| && Follows(file, p, Fragment(p % BLOCK, left, begin))
    ensures var n := Portion(p % BLOCK, left);
            var end := RecordOffset(p) + HEADER + n;
            && |Fragment(p % BLOCK, left, begin)| == end - p
            && (end <= |file| ==> Parse(file, p) == Fragmented(FragmentType(begin, |left| == n), left[..n], end))
            && (end > |file| ==> Parse(file, p) == End)
  {
    hide Parse, Physical, FragmentType;
    var n := Portion(p % BLOCK, left);
    var r := Physical(FragmentType(begin, |left| == n), left[..n]);
    HeaderFits(p, n);
    FollowsPart(file, p, Zeros(Trailer(p % BLOCK)), r);
    if Trailer(p % BLOCK) > 0 {
      ParseTrailer(file, p);
    }
    if RecordOffset(p) <= |file| {
      ParsePhysical(file, RecordOffset(p), FragmentType(begin, |left| == n), left[..n]);
    }
  }

  // ---- One record

  /** The end of a block and the start of the next are the same place to the writer. */
  lemma EmitAtBlockEnd(left: seq<Byte>, begin: bool)
    ensures Emit(BLOCK, left, begin) == Emit(0, left, begin)
  {
  }

  /** What follows a fragment that is not the last. */
  lemma EmitSplits(off: nat, left: seq<Byte>, begin: bool)
    requires off <= BLOCK && |left| > Available(off)
    ensures Emit(off, left, begin) == Fragment(off, left, begin) + Emit(0, left[Available(off)..], false)
  {
    EmitAtBlockEnd(left[Available(off)..], false);
  }

  /** Reading from where a record, or the rest of one, was written. */
  lemma {:induction false} ReadEmitted(file: seq<Byte>, p: nat, left: seq<Byte>, begin: bool, scratch: seq<Byte>, offset: nat, reports: nat)
    requires p <= |file| && Follows(file, p, Emit(p % BLOCK, left, begin)) && (begin ==> scratch == [])
    ensures var r, end := Read(file, p, scratch, !begin, offset, reports), p + |Emit(p % BLOCK, left, begin)|;
            && (end <= |file| ==> r == Outcome(true, scratch + left, if begin then RecordOffset(p) else offset, end, reports))
            && (end > |file| ==> !r.ok && r.reports == reports)
    decreases |left|, if Available(p % BLOCK) == 0 then 1 else 0
  {
    hide Parse, Fragment, Follows;
    var off := p % BLOCK;
    var n := Portion(off, left);
    var end := RecordOffset(p) + HEADER + n;
    if |left| <= Available(off) {
      ParseFragment(file, p, left, begin);
      assert left[..n] == left;
    } else {
      var rest := left[n..];
      EmitSplits(off, left, begin);
      FollowsPart(file, p, Fragment(off, left, begin), Emit(0, rest, false));
      ParseFragment(file, p, left, begin);
      FragmentEndsBlock(p);
      if end <= |file| {
        var at := if begin then RecordOffset(p) else offset;
        var got := scratch + left[..n];
        ReadEmitted(file, end, rest, false, got, at, reports);
        assert got + rest == scratch + left;
        assert begin ==> scratch + left[..n] == left[..n];
      }
    }
  }

  lemma FragmentEndsBlock(p: nat)
    ensures (RecordOffset(p) + HEADER + Available(p % BLOCK)) % BLOCK == 0
    ensures Available(0) > 0
  {
    if Trailer(p % BLOCK) > 0 {
      assert RecordOffset(p) % BLOCK == 0;
    }
  }

  // ---- A whole log, perhaps cut off

  lemma {:induction false} WrittenPrefix(rs: seq<seq<Byte>>, i: nat)
    requires i <= |rs|
    ensures Written(rs[..i]) <= Written(rs)
    decreases |rs|
  {
    if i == |rs| {
      assert rs[..i] == rs;
    } else {
      var init := rs[..|rs| - 1];
      WrittenPrefix(init, i);
      assert init[..i] == rs[..i];
    }
  }

  lemma WrittenStep(rs: seq<seq<Byte>>, i: nat)
    requires i < |rs|
    ensures Written(rs[..i + 1]) == Written(rs[..i]) + Emit(|Written(rs[..i])| % BLOCK, rs[i], true)
  {
    assert rs[..i + 1][..i] == rs[..i];
  }

  /** A cut log goes on at each record's place with what was written for it. */
  lemma CutFollows(file: seq<Byte>, rs: seq<seq<Byte>>, i: nat)
    requires file <= Written(rs) && i < |rs| && |Written(rs[..i])| <= |file|
    ensures Follows(file, |Written(rs[..i])|, Emit(|Written(rs[..i])| % BLOCK, rs[i], true))
  {
    hide Emit;
    WrittenPrefix(rs, i + 1);
    WrittenStep(rs, i);
    var p, e := |Written(rs[..i])|, Emit(|Written(rs[..i])| % BLOCK, rs[i], true);
    forall k | 0 <= k < |e| && p + k < |file|
      ensures file[p + k] == e[k]
    {
      assert Written(rs)[p + k] == Written(rs[..i + 1])[p + k];
    }
  }

  /** The records and offsets `from..to` as they were written. */
  function Entries(rs: seq<seq<Byte>>, from: nat, to: nat): seq<Found>
    requires from <= to <= |rs|
  {
    seq(to - from, i requires 0 <= i < to - from => Found(rs[from + i], RecordOffset(|Written(rs[..from + i])|)))
  }

  /** The first `k` records, and no more, lie wholly in the first `n` bytes. */
  ghost predicate WholeRecords(rs: seq<seq<Byte>>, n: nat, k: nat) {
    && k <= |rs|
    && |Written(rs[..k])| <= n
    && (k < |rs| ==> n < |Written(rs[..k + 1])|)
  }

  lemma NothingToRead(file: seq<Byte>)
    ensures ReadAll(file, |file|) == [] && Reports(file, |file|) == 0
  {
    assert Parse(file, |file|) == End;
  }

  lemma {:induction false} ReadFrom(file: seq<Byte>, rs: seq<seq<Byte>>, i: nat) returns (k: nat)
    requires file <= Written(rs) && i <= |rs| && |Written(rs[..i])| <= |file|
    ensures i <= k && WholeRecords(rs, |file|, k)
    ensures ReadAll(file, |Written(rs[..i])|) == Entries(rs, i, k)
    ensures Reports(file, |Written(rs[..i])|) == 0
    decreases |rs| - i
  {
    hide Read, Emit, Follows;
    var p := |Written(rs[..i])|;
    if i == |rs| {
      k := i;
      assert rs[..i] == rs;
      NothingToRead(file);
    } else {
      CutFollows(file, rs, i);
      WrittenStep(rs, i);
      ReadEmitted(file, p, rs[i], true, [], 0, 0);
      assert [] + rs[i] == rs[i];
      if |Written(rs[..i + 1])| <= |file| {
        k := ReadFrom(file, rs, i + 1);
        assert Entries(rs, i, k) == [Found(rs[i], RecordOffset(p))] + Entries(rs, i + 1, k);
      } else {
        k := i;
      }
    }
  }

  /** Main result: whatever byte the file of a log is cut off at, the reader returns exactly the records written
      wholly before the cut, in order and unchanged, each with the offset its first fragment was written at,
      and reports no corruption. */
  lemma TornLogReadsBack(file: seq<Byte>, rs: seq<seq<Byte>>) returns (k: nat)
    requires file <= Written(rs)
    ensures WholeRecords(rs, |file|, k)
    ensures ReadAll(file, 0) == Entries(rs, 0, k)
    ensures Reports(file, 0) == 0
  {
    assert rs[..0] == [];
    k := ReadFrom(file, rs, 0);
  }

  /** The whole file gives back all the records. */
  lemma LogReadsBack(rs: seq<seq<Byte>>)
    ensures ReadAll(Written(rs), 0) == Entries(rs, 0, |rs|)
    ensures Reports(Written(rs), 0) == 0
  {
    var k := TornLogReadsBack(Written(rs), rs);
    assert rs[..|rs|] == rs;
    if k < |rs| {
      WrittenPrefix(rs, k + 1);
    }
  }
}

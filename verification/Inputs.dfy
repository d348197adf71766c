/** Choosing the input files of a compaction. */
module Inputs {
  import opened InternalKeys
  import opened Version

  /** A pointer to a user key that may be null: null is before all keys as a lower end of a range and
      after all keys as an upper end. */
  datatype Bound = Null | At(key: UserKey)

  predicate BelowRange(f: File, begin: Bound) {
    begin.At? && f.largest.user < begin.key
  }

  predicate AboveRange(f: File, end: Bound) {
    end.At? && f.smallest.user > end.key
  }

  predicate Overlaps(f: File, begin: Bound, end: Bound) {
    !BelowRange(f, begin) && !AboveRange(f, end)
  }

  predicate WithinRange(f: File, begin: Bound, end: Bound) {
    && (begin.At? ==> begin.key <= f.smallest.user)
    && (end.At? ==> f.largest.user <= end.key)
  }

  /** Files with non-empty user-key ranges. */
  ghost predicate Proper(fs: seq<File>) {
    forall f | f in fs :: f.smallest.user <= f.largest.user
  }

  lemma GoodFilesAreProper(fs: seq<File>)
    requires GoodFiles(fs)
    ensures Proper(fs)
  {
    forall f | f in fs
      ensures f.smallest.user <= f.largest.user
    {
      FileBounds(f, f.entries[0]);
    }
  }

  /** The files that overlap a user-key range, in list order. */
  function Overlapping(fs: seq<File>, begin: Bound, end: Bound): (r: seq<File>)
    ensures forall f :: f in r <==> f in fs && Overlaps(f, begin, end)
    ensures |r| <= |fs|
  {
    if fs == [] then []
    else
      var init := Overlapping(fs[..|fs| - 1], begin, end);
      var f := fs[|fs| - 1];
      assert fs == fs[..|fs| - 1] + [f];
      if Overlaps(f, begin, end) then init + [f] else init
  }

  /** SomeFileOverlapsRange: linear over overlapping files, one binary search over disjoint ones. */
  method SomeFileOverlapsRange(disjoint: bool, fs: seq<File>, begin: Bound, end: Bound) returns (r: bool)
    requires GoodFiles(fs)
    requires disjoint ==> Disjoint(fs)
    requires begin.At? && end.At? ==> begin.key <= end.key
    requires forall f, e | f in fs && e in f.entries :: e.k.sn <= MAX_SEQUENCE
    ensures r <==> exists f :: f in fs && Overlaps(f, begin, end)
  {
    if !disjoint {
      for i := 0 to |fs|
        invariant forall j | 0 <= j < i :: !Overlaps(fs[j], begin, end)
      {
        if Overlaps(fs[i], begin, end) {
          return true;
        }
      }
      return false;
    }
    var index := 0;
    if begin.At? {
      index := FindFile(fs, SeekKey(begin.key, MAX_SEQUENCE));
    }
    forall i | 0 <= i < |fs|
      ensures i < index <==> BelowRange(fs[i], begin)
    {
      if begin.At? {
        assert fs[i] in fs && GoodFile(fs[i]);
        assert fs[i].entries[|fs[i].entries| - 1].k.sn <= MAX_SEQUENCE;
        SeekKeySkips(begin.key, MAX_SEQUENCE, fs[i].largest);
      }
    }
    if index >= |fs| {
      return false;
    }
    forall i | index <= i < |fs|
      ensures fs[index].smallest.user <= fs[i].smallest.user
    {
      SmallestBeforeLargest(fs, index);
      if index < i {
        assert Before(fs[index].largest, fs[i].smallest);
      }
    }
    r := !AboveRange(fs[index], end);
    assert r ==> Overlaps(fs[index], begin, end);
  }

  /** How far a range can still grow over the ends of `fs`. */
  ghost function Slack(fs: seq<File>, begin: Bound, end: Bound): nat {
    if fs == [] then 0
    else
      (if begin.At? && fs[0].smallest.user < begin.key then 1 else 0)
      + (if end.At? && fs[0].largest.user > end.key then 1 else 0)
      + Slack(fs[1..], begin, end)
  }

  /** A growing range has less slack, strictly less once it takes in the end of a file. */
  lemma {:induction false} SlackShrinks(fs: seq<File>, b: Bound, e: Bound, b': Bound, e': Bound)
    requires b.At? == b'.At? && e.At? == e'.At?
    requires b.At? ==> b'.key <= b.key
    requires e.At? ==> e.key <= e'.key
    ensures Slack(fs, b', e') <= Slack(fs, b, e)
    ensures forall f | f in fs ::
              (b.At? && b'.key <= f.smallest.user < b.key) || (e.At? && e.key < f.largest.user <= e'.key)
              ==> Slack(fs, b', e') < Slack(fs, b, e)
  {
    if fs != [] {
      SlackShrinks(fs[1..], b, e, b', e');
    }
  }

  /** The range [begin, end] grown to take in whole every file it touches. */
  ghost predicate ClosedRange(fs: seq<File>, begin: Bound, end: Bound) {
    forall f | f in fs && Overlaps(f, begin, end) :: WithinRange(f, begin, end)
  }

  ghost predicate RangeIncludes(b: Bound, e: Bound, b': Bound, e': Bound) {
    && (b.At? ==> b'.At? ==> b.key <= b'.key) && (b'.Null? ==> b.Null?)
    && (e.At? ==> e'.At? ==> e'.key <= e.key) && (e'.Null? ==> e.Null?)
  }

  predicate InRange(u: UserKey, b: Bound, e: Bound) {
    (b.At? ==> b.key <= u) && (e.At? ==> u <= e.key)
  }

  ghost predicate CoveredBy(fs: seq<File>, u: UserKey) {
    exists f :: f in fs && f.smallest.user <= u <= f.largest.user
  }

  /** Version::GetOverlappingInputs.  Above level 0 this filters the level by the range.  On level 0
      the range first grows to the least one that is closed under overlap, the search restarting each
      time a file widens it. */
  method GetOverlappingInputs(level: nat, fs: seq<File>, begin: Bound, end: Bound)
    returns (inputs: seq<File>, ghost b: Bound, ghost e: Bound)
    requires Proper(fs)
    ensures level > 0 ==> inputs == Overlapping(fs, begin, end)
    ensures forall f | f in fs && Overlaps(f, begin, end) :: f in inputs
    ensures level == 0 ==> forall f, g | f in inputs && g in fs && UserOverlap(f, g) :: g in inputs
    ensures inputs == Overlapping(fs, b, e)
    ensures level > 0 ==> b == begin && e == end
    ensures b.At? == begin.At? && e.At? == end.At?
    ensures RangeIncludes(b, e, begin, end)
    ensures level == 0 ==> ClosedRange(fs, b, e)
    ensures level == 0 ==> forall b', e' | ClosedRange(fs, b', e') && RangeIncludes(b', e', begin, end) ::
                             RangeIncludes(b', e', b, e)
    ensures level == 0 ==> NoGaps(inputs, begin, end, b, e)
  {
    hide Least, NoGaps, ClosedRange, Overlapping;
    inputs := [];
    b, e := begin, end;
    StartOfRange(fs, begin, end);
    NoFiles(b, e);
    var userBegin, userEnd := begin, end;
    var i := 0;
    while i < |fs|
      invariant 0 <= i <= |fs|
      invariant b == userBegin && e == userEnd
      invariant inputs == Overlapping(fs[..i], b, e)
      invariant level > 0 ==> b == begin && e == end
      invariant b.At? == begin.At? && e.At? == end.At?
      invariant RangeIncludes(b, e, begin, end)
      invariant level == 0 ==> ClosedRange(fs[..i], b, e)
      invariant level == 0 ==> Least(fs, begin, end, b, e)
      invariant level == 0 ==> NoGaps(fs, begin, end, b, e)
      decreases Slack(fs, b, e), |fs| - i
    {
      var f := fs[i];
      i := i + 1;
      TakeNext(fs, i - 1, b, e);
      if BelowRange(f, userBegin) {
      } else if AboveRange(f, userEnd) {
      } else {
        inputs := inputs + [f];
        if level == 0 {
          if userBegin.At? && f.smallest.user < userBegin.key {
            SlackShrinks(fs, b, e, At(f.smallest.user), e);
            GrowKeepsLeast(fs, begin, end, b, e, At(f.smallest.user), e, f);
            GrowKeepsNoGaps(fs, begin, end, b, e, At(f.smallest.user), e, f);
            userBegin := At(f.smallest.user);
            b := userBegin;
            inputs := [];
            i := 0;
            NoFiles(b, e);
          } else if userEnd.At? && f.largest.user > userEnd.key {
            SlackShrinks(fs, b, e, b, At(f.largest.user));
            GrowKeepsLeast(fs, begin, end, b, e, b, At(f.largest.user), f);
            GrowKeepsNoGaps(fs, begin, end, b, e, b, At(f.largest.user), f);
            userEnd := At(f.largest.user);
            e := userEnd;
            inputs := [];
            i := 0;
            NoFiles(b, e);
          }
        }
      }
    }
    assert fs[..|fs|] == fs;
    if level == 0 {
      InputsHaveNoGaps(fs, begin, end, b, e);
      LeastMeaning(fs, begin, end, b, e);
      SelectionIsClosed(fs, b, e);
    }
    SelectionCovers(fs, begin, end, b, e);
  }

  predicate UserOverlap(f: File, g: File) {
    f.smallest.user <= g.largest.user && g.smallest.user <= f.largest.user
  }

  lemma SelectionIsClosed(fs: seq<File>, b: Bound, e: Bound)
    requires Proper(fs) && ClosedRange(fs, b, e)
    ensures forall f, g | f in Overlapping(fs, b, e) && g in fs && UserOverlap(f, g) :: g in Overlapping(fs, b, e)
  {
    forall f, g | f in Overlapping(fs, b, e) && g in fs && UserOverlap(f, g)
      ensures Overlaps(g, b, e)
    {
      assert WithinRange(f, b, e);
    }
  }

  lemma SelectionCovers(fs: seq<File>, begin: Bound, end: Bound, b: Bound, e: Bound)
    requires RangeIncludes(b, e, begin, end) && b.At? == begin.At? && e.At? == end.At?
    ensures forall f | f in fs && Overlaps(f, begin, end) :: f in Overlapping(fs, b, e)
  {
  }

  /** What [b, e] has beyond [begin, end] is covered by files. */
  ghost predicate NoGaps(fs: seq<File>, begin: Bound, end: Bound, b: Bound, e: Bound) {
    forall u | InRange(u, b, e) :: InRange(u, begin, end) || CoveredBy(fs, u)
  }

  /** One more file. */
  lemma TakeNext(fs: seq<File>, i: nat, b: Bound, e: Bound)
    requires i < |fs|
    ensures Overlapping(fs[..i + 1], b, e) == Overlapping(fs[..i], b, e) + if Overlaps(fs[i], b, e) then [fs[i]] else []
    ensures ClosedRange(fs[..i], b, e) && (Overlaps(fs[i], b, e) ==> WithinRange(fs[i], b, e)) ==> ClosedRange(fs[..i + 1], b, e)
  {
    assert fs[..i + 1][..i] == fs[..i];
    assert fs[..i + 1] == fs[..i] + [fs[i]];
  }

  lemma NoFiles(b: Bound, e: Bound)
    ensures Overlapping([], b, e) == [] && ClosedRange([], b, e)
  {
  }

  lemma StartOfRange(fs: seq<File>, begin: Bound, end: Bound)
    ensures Least(fs, begin, end, begin, end) && NoGaps(fs, begin, end, begin, end)
  {
  }

  lemma LeastMeaning(fs: seq<File>, begin: Bound, end: Bound, b: Bound, e: Bound)
    requires Least(fs, begin, end, b, e)
    ensures forall b', e' | ClosedRange(fs, b', e') && RangeIncludes(b', e', begin, end) :: RangeIncludes(b', e', b, e)
  {
    hide ClosedRange, RangeIncludes;
  }

  lemma GrowKeepsNoGaps(fs: seq<File>, begin: Bound, end: Bound, b: Bound, e: Bound, b1: Bound, e1: Bound, f: File)
    requires NoGaps(fs, begin, end, b, e)
    requires f in fs && Overlaps(f, b, e) && f.smallest.user <= f.largest.user
    requires (b1 == b || (b.At? && b1 == At(f.smallest.user))) && (e1 == e || (e.At? && e1 == At(f.largest.user)))
    ensures NoGaps(fs, begin, end, b1, e1)
  {
    forall u | InRange(u, b1, e1)
      ensures InRange(u, begin, end) || CoveredBy(fs, u)
    {
      if !InRange(u, b, e) {
        assert f.smallest.user <= u <= f.largest.user;
      }
    }
  }

  lemma InputsHaveNoGaps(fs: seq<File>, begin: Bound, end: Bound, b: Bound, e: Bound)
    requires NoGaps(fs, begin, end, b, e)
    ensures NoGaps(Overlapping(fs, b, e), begin, end, b, e)
  {
    forall u | InRange(u, b, e) && !InRange(u, begin, end)
      ensures CoveredBy(Overlapping(fs, b, e), u)
    {
      var f :| f in fs && f.smallest.user <= u <= f.largest.user;
      assert Overlaps(f, b, e);
    }
  }

  /** [b, e] lies in every closed range around [begin, end]. */
  ghost predicate Least(fs: seq<File>, begin: Bound, end: Bound, b: Bound, e: Bound) {
    forall b', e' | ClosedRange(fs, b', e') && RangeIncludes(b', e', begin, end) :: RangeIncludes(b', e', b, e)
  }

  lemma GrowKeepsLeast(fs: seq<File>, begin: Bound, end: Bound, b: Bound, e: Bound, b1: Bound, e1: Bound, f: File)
    requires Least(fs, begin, end, b, e)
    requires f in fs && Overlaps(f, b, e) && f.smallest.user <= f.largest.user
    requires (b1 == b || (b.At? && b1 == At(f.smallest.user))) && (e1 == e || (e.At? && e1 == At(f.largest.user)))
    ensures Least(fs, begin, end, b1, e1)
  {
    forall b', e' | ClosedRange(fs, b', e') && RangeIncludes(b', e', begin, end)
      ensures RangeIncludes(b', e', b1, e1)
    {
      assert RangeIncludes(b', e', b, e);
      assert Overlaps(f, b', e');
    }
  }
}

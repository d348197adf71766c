/** SetupOtherInputs and PickCompaction: from one picked file to both input levels. */
module SetupInputs {
  import opened InternalKeys
  import opened Version
  import opened Inputs
  import opened Boundary
  import opened Picking

  /** The two levels a compaction picks from. */
  ghost predicate GoodPair(level: nat, files: seq<File>, parents: seq<File>) {
    && GoodFiles(files) && GoodFiles(parents)
    && (if level > 0 then Disjoint(files) else Distinct(files)) && Disjoint(parents)
    && UniqueSeqs(FileEntries(files))
  }

  /** No file is listed twice. */
  ghost predicate Distinct(fs: seq<File>) {
    forall i, j | 0 <= i < j < |fs| :: fs[i] != fs[j]
  }

  lemma {:induction false} OverlappingDistinct(fs: seq<File>, b: Bound, e: Bound)
    requires Distinct(fs)
    ensures Distinct(Overlapping(fs, b, e))
  {
    if fs != [] {
      var init := fs[..|fs| - 1];
      OverlappingDistinct(init, b, e);
      assert fs[|fs| - 1] !in init;
    }
  }

  /** A selection at `level` that boundary files may still be missing from. */
  ghost predicate Seeded(level: nat, files: seq<File>, inputs: seq<File>) {
    && inputs != [] && IsSubset(inputs, files)
    && ClosedSelection(level, files, inputs)
    && if level > 0 then Disjoint(inputs) else Distinct(inputs)
  }

  lemma RangeGivesHull(fs: seq<File>, smallest: InternalKey, largest: InternalKey)
    requires exists f :: f in fs && f.smallest == smallest
    requires exists f :: f in fs && f.largest == largest
    requires forall f | f in fs :: AtOrBefore(smallest, f.smallest) && AtOrBefore(f.largest, largest)
    ensures HullEnds(fs, smallest.user, largest.user)
  {
  }

  /** AddBoundaryInputs on a seeded selection. */
  method WithBoundaries(level: nat, files: seq<File>, inputs: seq<File>) returns (r: seq<File>)
    requires GoodFiles(files) && (level > 0 ==> Disjoint(files)) && UniqueSeqs(FileEntries(files))
    requires Seeded(level, files, inputs)
    ensures inputs <= r && Seeded(level, files, r)
    ensures LeftNewer(files, r) && NoBoundary(files, r)
    ensures Spans(inputs, r)
  {
    GoodFilesAreProper(files);
    forall f | f in files
      ensures AtOrBefore(f.smallest, f.largest)
    {
      FileBounds(f, f.entries[0]);
    }
    r := AddBoundaryInputs(files, inputs);
    if level == 0 {
      ClosedLevel0NeedsNoBoundary(files, inputs, r);
    } else {
      assert r[..|inputs|] == inputs;
      ChainDisjoint(|inputs|, r);
    }
    ClosedGivesLeftNewer(level, files, r);
  }

  /** Parent files overlapping a range with the given ends are those that overlap its hull. */
  lemma ParentsOfHull(parents: seq<File>, fs: seq<File>, lo: UserKey, hi: UserKey)
    requires HullEnds(fs, lo, hi) && Disjoint(parents)
    ensures forall f | f in parents :: f in Overlapping(parents, At(lo), At(hi)) <==> OverlapsHull(f, fs)
    ensures Disjoint(Overlapping(parents, At(lo), At(hi)))
  {
    HullEndsOverlap(fs, lo, hi);
    OverlappingDisjoint(parents, At(lo), At(hi));
  }

  lemma ParentsKeepUnbroken(parents: seq<File>, fs: seq<File>, in1: seq<File>)
    requires Proper(fs) && Proper(parents) && Unbroken(fs)
    requires IsSubset(in1, parents) && forall f | f in parents :: f in in1 <==> OverlapsHull(f, fs)
    ensures Unbroken(fs + in1)
  {
    OverlappingKeepsUnbroken(fs, in1);
  }

  /** The selection takes in every file of its level that overlaps the range of `ins`, and no boundary file is left. */
  ghost predicate CoversRange(files: seq<File>, ins: seq<File>, r: seq<File>) {
    (forall f | f in files && OverlapsHull(f, ins) :: f in r) && NoBoundary(files, r)
  }

  /** The files of `level` over the whole compaction range, closed again with boundary files. */
  method Expanded(level: nat, files: seq<File>, in0: seq<File>, in1: seq<File>, lo: UserKey, hi: UserKey)
    returns (r: seq<File>)
    requires GoodFiles(files) && (if level > 0 then Disjoint(files) else Distinct(files)) && UniqueSeqs(FileEntries(files))
    requires Seeded(level, files, in0) && Proper(in1)
    requires HullEnds(in0 + in1, lo, hi)
    ensures Seeded(level, files, r) && LeftNewer(files, r)
    ensures IsSubset(in0, r) && CoversRange(files, in0 + in1, r)
    ensures Unbroken(in0 + in1) ==> Unbroken(r + in1)
  {
    GoodFilesAreProper(files);
    var first, b, e := GetOverlappingInputs(level, files, At(lo), At(hi));
    HullEndsOverlap(in0 + in1, lo, hi);
    forall f | f in in0
      ensures f in first
    {
      assert f in in0 + in1 && f in files;
      assert f.smallest.user <= f.largest.user;
      assert Overlaps(f, b, e);
    }
    ExpansionSeeded(level, files, first, b, e);
    assert in0[0] in first;
    assert first != [];
    r := WithBoundaries(level, files, first);
    if Unbroken(in0 + in1) {
      ExpansionUnbroken(level, files, in0, in1, first, lo, hi, b, e);
      SpansUnbroken(first, in1, r);
    }
  }

  lemma ExpansionSeeded(level: nat, files: seq<File>, first: seq<File>, b: Bound, e: Bound)
    requires Proper(files) && if level > 0 then Disjoint(files) else Distinct(files)
    requires first == Overlapping(files, b, e)
    requires level == 0 ==> ClosedRange(files, b, e)
    ensures ClosedSelection(level, files, first) && IsSubset(first, files)
    ensures if level > 0 then Disjoint(first) else Distinct(first)
  {
    if level > 0 {
      OverlappingContiguous(files, b, e);
      OverlappingDisjoint(files, b, e);
    } else {
      OverlappingDistinct(files, b, e);
    }
  }

  lemma ExpansionUnbroken(level: nat, files: seq<File>, in0: seq<File>, in1: seq<File>, first: seq<File>,
                          lo: UserKey, hi: UserKey, b: Bound, e: Bound)
    requires Proper(files) && Proper(in1) && IsSubset(in0, files) && IsSubset(in0, first)
    requires HullEnds(in0 + in1, lo, hi) && Unbroken(in0 + in1)
    requires first == Overlapping(files, b, e) && b.At? && e.At? && RangeIncludes(b, e, At(lo), At(hi))
    requires level > 0 ==> b == At(lo) && e == At(hi)
    requires level == 0 ==> ClosedRange(files, b, e)
    requires level == 0 ==> forall u | InRange(u, b, e) :: InRange(u, At(lo), At(hi)) || CoveredBy(first, u)
    ensures Unbroken(first + in1)
  {
    forall u | InHull(first + in1, u)
      ensures CoveredBy(first + in1, u)
    {
      if lo <= u <= hi {
        InsideHullCovers(in0, in1, first, lo, hi, u);
      } else if level == 0 {
        ClosedRangeCovers(files, in0, in1, first, lo, hi, b, e, u);
      } else {
        OverlapOutsideHullCovers(first, in0, in1, lo, hi, u);
      }
    }
  }

  lemma InsideHullCovers(in0: seq<File>, in1: seq<File>, first: seq<File>, lo: UserKey, hi: UserKey, u: UserKey)
    requires IsSubset(in0, first) && HullEnds(in0 + in1, lo, hi) && Unbroken(in0 + in1)
    requires lo <= u <= hi
    ensures CoveredBy(first + in1, u)
  {
    HullEndsOverlap(in0 + in1, lo, hi);
    assert InHull(in0 + in1, u);
    assert CoveredBy(in0 + in1, u);
    var h :| h in in0 + in1 && h.smallest.user <= u <= h.largest.user;
    assert h in first + in1;
  }

  lemma ClosedRangeCovers(files: seq<File>, in0: seq<File>, in1: seq<File>, first: seq<File>,
                          lo: UserKey, hi: UserKey, b: Bound, e: Bound, u: UserKey)
    requires HullEnds(in0 + in1, lo, hi)
    requires first == Overlapping(files, b, e) && b.At? && e.At? && RangeIncludes(b, e, At(lo), At(hi))
    requires ClosedRange(files, b, e)
    requires forall w | InRange(w, b, e) :: InRange(w, At(lo), At(hi)) || CoveredBy(first, w)
    requires InHull(first + in1, u) && !(lo <= u <= hi)
    ensures CoveredBy(first + in1, u)
  {
    forall f | f in first + in1
      ensures WithinRange(f, b, e)
    {
      if f in in1 {
        assert f in in0 + in1;
      }
    }
    assert InRange(u, b, e);
    var h :| h in first && h.smallest.user <= u <= h.largest.user;
    assert h in first + in1;
  }

  lemma OverlapOutsideHullCovers(first: seq<File>, in0: seq<File>, in1: seq<File>, lo: UserKey, hi: UserKey, u: UserKey)
    requires forall f | f in first :: Overlaps(f, At(lo), At(hi))
    requires HullEnds(in0 + in1, lo, hi)
    requires InHull(first + in1, u) && !(lo <= u <= hi)
    ensures CoveredBy(first + in1, u)
  {
    var x, y :| x in first + in1 && y in first + in1 && x.smallest.user <= u <= y.largest.user;
    if u < lo {
      assert x in in1 ==> x in in0 + in1;
      assert x in first;
    } else {
      assert y in in1 ==> y in in0 + in1;
      assert y in first;
    }
  }

  /** The parents of `fs`: the files of the next level that overlap its user-key range. */
  method OverlappingParents(level: nat, parents: seq<File>, fs: seq<File>)
    returns (smallest: InternalKey, largest: InternalKey, r: seq<File>)
    requires GoodFiles(parents) && Disjoint(parents) && fs != [] && level > 0
    ensures HullEnds(fs, smallest.user, largest.user)
    ensures exists g :: IsLargest(fs, g) && g.largest == largest
    ensures r == Overlapping(parents, At(smallest.user), At(largest.user))
    ensures IsSubset(r, parents) && Disjoint(r)
    ensures forall f | f in parents :: f in r <==> OverlapsHull(f, fs)
  {
    GoodFilesAreProper(parents);
    smallest, largest := GetRange(fs);
    RangeGivesHull(fs, smallest, largest);
    var g :| g in fs && g.largest == largest;
    assert IsLargest(fs, g);
    ghost var b, e;
    r, b, e := GetOverlappingInputs(level, parents, At(smallest.user), At(largest.user));
    ParentsOfHull(parents, fs, smallest.user, largest.user);
  }

  /** The optional growth: more inputs at `level` are taken if they touch no further parents. */
  method GrowInputs(level: nat, files: seq<File>, parents: seq<File>, in0: seq<File>, in1: seq<File>,
                    smallest: InternalKey, largest: InternalKey, expandedLimit: nat)
    returns (r0: seq<File>, r1: seq<File>, newLargest: InternalKey, ghost wide: seq<File>)
    requires GoodPair(level, files, parents)
    requires Seeded(level, files, in0) && Selected(files, parents, in0, in1) && in1 != []
    requires HullEnds(in0, smallest.user, largest.user)
    requires exists g :: IsLargest(in0, g) && g.largest == largest
    requires in1 == Overlapping(parents, At(smallest.user), At(largest.user)) && Disjoint(in1)
    ensures Seeded(level, files, r0) && Selected(files, parents, r0, r1)
    ensures Unbroken(in0 + in1) ==> Unbroken(r0 + r1)
    ensures IsSubset(in0, r0) && r1 == in1
    ensures IsSubset(in0, wide) && IsSubset(wide, files) && CoversRange(files, in0 + in1, wide)
    ensures r0 == if |wide| > |in0| && TotalFileSize(in1) + TotalFileSize(wide) < expandedLimit && NoMoreParents(parents, in1, wide)
                  then wide else in0
    ensures exists g :: IsLargest(r0, g) && g.largest == newLargest
  {
    hide *;
    r0, r1, newLargest := in0, in1, largest;
    PairFacts(level, files, parents, in0, in1);
    var allStart, allLimit := GetRange(in0 + in1);
    RangeGivesHull(in0 + in1, allStart, allLimit);
    var expanded0 := Expanded(level, files, in0, in1, allStart.user, allLimit.user);
    wide := expanded0;
    SeededNotEmpty(level, files, expanded0);
    if |expanded0| > |in0| && TotalFileSize(in1) + TotalFileSize(expanded0) < expandedLimit {
      var newStart, newLimit, expanded1 := OverlappingParents(level + 1, parents, expanded0);
      SameCountIff(parents, in0, in1, expanded0, expanded1, smallest.user, largest.user, newStart.user, newLimit.user);
      if |expanded1| == |in1| {
        r0, r1, newLargest := expanded0, expanded1, newLimit;
        AreSelected(level, files, parents, r0, r1);
      }
    }
    assert IsSubset(in0, in0) by {
      SubsetOfItself(in0);
    }
  }

  /** The wider selection overlaps no parent that was not an input already. */
  ghost predicate NoMoreParents(parents: seq<File>, in1: seq<File>, wide: seq<File>) {
    forall f | f in parents && OverlapsHull(f, wide) :: f in in1
  }

  /** Comparing the numbers of parents tells whether there are more of them. */
  lemma SameCountIff(parents: seq<File>, in0: seq<File>, in1: seq<File>, expanded0: seq<File>, expanded1: seq<File>,
                     lo: UserKey, hi: UserKey, lo': UserKey, hi': UserKey)
    requires HullEnds(in0, lo, hi) && HullEnds(expanded0, lo', hi') && IsSubset(in0, expanded0)
    requires in1 == Overlapping(parents, At(lo), At(hi)) && expanded1 == Overlapping(parents, At(lo'), At(hi'))
    requires forall f | f in parents :: f in expanded1 <==> OverlapsHull(f, expanded0)
    ensures |expanded1| == |in1| <==> NoMoreParents(parents, in1, expanded0)
    ensures |expanded1| == |in1| ==> expanded1 == in1
  {
    hide OverlapsHull;
    if |expanded1| == |in1| {
      ExpansionKeepsParents(parents, in0, expanded0, lo, hi, lo', hi');
    } else if NoMoreParents(parents, in1, expanded0) {
      WiderRange(in0, expanded0, lo, hi, lo', hi');
      SameOverlapping(parents, At(lo), At(hi), At(lo'), At(hi'));
    }
  }

  lemma WiderRange(in0: seq<File>, expanded0: seq<File>, lo: UserKey, hi: UserKey, lo': UserKey, hi': UserKey)
    requires HullEnds(in0, lo, hi) && HullEnds(expanded0, lo', hi') && IsSubset(in0, expanded0)
    ensures lo' <= lo && hi <= hi'
  {
  }

  lemma {:induction false} SameOverlapping(fs: seq<File>, b: Bound, e: Bound, b': Bound, e': Bound)
    requires forall f | f in fs :: Overlaps(f, b, e) <==> Overlaps(f, b', e')
    ensures Overlapping(fs, b, e) == Overlapping(fs, b', e')
  {
    if fs != [] {
      SameOverlapping(fs[..|fs| - 1], b, e, b', e');
    }
  }

  lemma SubsetOfItself(fs: seq<File>)
    ensures IsSubset(fs, fs)
  {
  }

  lemma PairFacts(level: nat, files: seq<File>, parents: seq<File>, in0: seq<File>, in1: seq<File>)
    requires GoodPair(level, files, parents) && Selected(files, parents, in0, in1)
    ensures GoodFiles(files) && (if level > 0 then Disjoint(files) else Distinct(files)) && UniqueSeqs(FileEntries(files))
    ensures GoodFiles(parents) && Disjoint(parents)
    ensures Proper(in1) && in0 + in1 != []
  {
    hide Disjoint, LeftNewer, UniqueSeqs, Distinct, Unbroken, OverlapsHull, GoodFiles;
    GoodFilesAreProper(parents);
  }

  lemma SeededNotEmpty(level: nat, files: seq<File>, inputs: seq<File>)
    requires Seeded(level, files, inputs)
    ensures inputs != [] && IsSubset(inputs, files)
  {
  }

  lemma AreSelected(level: nat, files: seq<File>, parents: seq<File>, in0: seq<File>, in1: seq<File>)
    requires Seeded(level, files, in0) && LeftNewer(files, in0) && IsSubset(in1, parents)
    requires forall f | f in parents :: f in in1 <==> OverlapsHull(f, in0)
    ensures Selected(files, parents, in0, in1)
  {
    hide LeftNewer, OverlapsHull, ClosedSelection;
  }

  lemma LevelFiles(level: nat, files: seq<File>, parents: seq<File>)
    requires GoodPair(level, files, parents)
    ensures GoodFiles(files) && (level > 0 ==> Disjoint(files)) && UniqueSeqs(FileEntries(files)) && Proper(files)
    ensures GoodFiles(parents) && Disjoint(parents) && Proper(parents)
  {
    GoodFilesAreProper(files);
    GoodFilesAreProper(parents);
  }

  lemma BoundariesKeepUnbroken(files: seq<File>, inputs: seq<File>, r: seq<File>)
    requires Proper(files) && IsSubset(inputs, files) && IsSubset(r, files) && inputs != []
    requires inputs <= r && Unbroken(inputs) && Spans(inputs, r)
    ensures Unbroken(r) && IsSubset(inputs, r)
  {
    assert r + [] == r && inputs + [] == inputs;
    SpansUnbroken(inputs, [], r);
  }

  lemma PrefixIsSubset(a: seq<File>, b: seq<File>)
    requires a <= b
    ensures IsSubset(a, b)
  {
  }

  lemma SubsetProper(files: seq<File>, fs: seq<File>)
    requires Proper(files) && IsSubset(fs, files)
    ensures Proper(fs)
  {
  }

  lemma SubsetTrans(a: seq<File>, b: seq<File>, c: seq<File>)
    requires IsSubset(a, b) && IsSubset(b, c)
    ensures IsSubset(a, c)
  {
  }

  /** SetupOtherInputs: boundary files at `level`, the overlapping parents, and the optional growth of the
      inputs at `level` that leaves the parents as they are.  The parents get no boundary files. */
  method SetupOtherInputs(level: nat, files: seq<File>, parents: seq<File>, grandparentFiles: seq<File>,
                          inputs: seq<File>, expandedLimit: nat)
    returns (in0: seq<File>, in1: seq<File>, grandparents: seq<File>, compactPointer: InternalKey)
    requires GoodPair(level, files, parents)
    requires GoodFiles(grandparentFiles) && Disjoint(grandparentFiles)
    requires Seeded(level, files, inputs)
    ensures Selected(files, parents, in0, in1) && IsSubset(inputs, in0)
    ensures Unbroken(inputs) ==> GoodInputs(files, parents, in0, in1)
    ensures Seeded(level, files, in0) && Disjoint(in1)
    ensures forall f | f in grandparentFiles :: f in grandparents <==> OverlapsHull(f, in0 + in1)
    ensures exists g :: IsLargest(in0, g) && g.largest == compactPointer
  {
    hide *;
    LevelFiles(level, files, parents);
    SeededNotEmpty(level, files, inputs);
    in0 := WithBoundaries(level, files, inputs);
    SeededNotEmpty(level, files, in0);
    var smallest, largest;
    smallest, largest, in1 := OverlappingParents(level + 1, parents, in0);
    SubsetProper(files, in0);
    PrefixIsSubset(inputs, in0);
    if Unbroken(inputs) {
      BoundariesKeepUnbroken(files, inputs, in0);
      ParentsKeepUnbroken(parents, in0, in1);
    }
    AreSelected(level, files, parents, in0, in1);
    if in1 != [] {
      ghost var small := in0;
      ghost var wide;
      in0, in1, largest, wide := GrowInputs(level, files, parents, in0, in1, smallest, largest, expandedLimit);
      SubsetTrans(inputs, small, in0);
      SeededNotEmpty(level, files, in0);
    }
    GoodIffUnbroken(files, parents, in0, in1);
    var s, l;
    s, l, grandparents := OverlappingParents(level + 2, grandparentFiles, in0 + in1);
    compactPointer := largest;
  }

  /** If growing the inputs keeps the number of parents, it keeps the parents. */
  lemma ExpansionKeepsParents(parents: seq<File>, in0: seq<File>, expanded0: seq<File>,
                              lo: UserKey, hi: UserKey, lo': UserKey, hi': UserKey)
    requires HullEnds(in0, lo, hi) && HullEnds(expanded0, lo', hi') && IsSubset(in0, expanded0)
    requires |Overlapping(parents, At(lo), At(hi))| == |Overlapping(parents, At(lo'), At(hi'))|
    ensures Overlapping(parents, At(lo), At(hi)) == Overlapping(parents, At(lo'), At(hi'))
  {
    OverlappingMonotone(parents, At(lo), At(hi), At(lo'), At(hi'));
  }

  predicate IsAfterPointer(pointer: Option<InternalKey>, f: File) {
    pointer.None? || Before(pointer.value, f.largest)
  }

  /** The file that a compaction by size starts from: the first after the pointer, or else the first of the level. */
  ghost predicate StartsAt(files: seq<File>, pointer: Option<InternalKey>, f: File) {
    if forall g | g in files :: !IsAfterPointer(pointer, g) then files != [] && f == files[0]
    else exists i :: 0 <= i < |files| && f == files[i] && IsAfterPointer(pointer, f)
                     && forall j | 0 <= j < i :: !IsAfterPointer(pointer, files[j])
  }

  /** The inputs at the level include the file to start from: the one sought too often, or else the one after the pointer. */
  ghost predicate StartsFrom(files: seq<File>, pointer: Option<InternalKey>, seekFile: Option<File>, in0: seq<File>) {
    if seekFile.Some? then seekFile.value in in0 else exists f :: f in in0 && StartsAt(files, pointer, f)
  }

  /** The part of PickCompaction that finds the first file after the level's compaction pointer. */
  method FirstAfterPointer(files: seq<File>, pointer: Option<InternalKey>) returns (f: File)
    requires files != []
    ensures f in files && StartsAt(files, pointer, f)
  {
    for i := 0 to |files|
      invariant forall j | 0 <= j < i :: !IsAfterPointer(pointer, files[j])
    {
      if pointer.None? || Compare(files[i].largest, pointer.value) > 0 {
        return files[i];
      }
    }
    return files[0];
  }

  /** PickCompaction from the file that starts the compaction, chosen by size or by seeks. */
  method PickCompaction(level: nat, files: seq<File>, parents: seq<File>, grandparentFiles: seq<File>,
                        seed: File, expandedLimit: nat)
    returns (in0: seq<File>, in1: seq<File>, grandparents: seq<File>, compactPointer: InternalKey)
    requires GoodPair(level, files, parents)
    requires GoodFiles(grandparentFiles) && Disjoint(grandparentFiles)
    requires seed in files
    ensures GoodInputs(files, parents, in0, in1) && seed in in0
    ensures Seeded(level, files, in0) && Disjoint(in1)
    ensures forall f | f in grandparentFiles :: f in grandparents <==> OverlapsHull(f, in0 + in1)
    ensures exists g :: IsLargest(in0, g) && g.largest == compactPointer
  {
    GoodFilesAreProper(files);
    var inputs := [seed];
    if level == 0 {
      var smallest, largest := GetRange(inputs);
      ghost var b, e;
      inputs, b, e := GetOverlappingInputs(0, files, At(smallest.user), At(largest.user));
      assert Overlaps(seed, b, e);
      ExpansionSeeded(0, files, inputs, b, e);
      forall u | InHull(inputs, u)
        ensures CoveredBy(inputs, u)
      {
        assert InRange(u, b, e);
        if InRange(u, At(smallest.user), At(largest.user)) {
          assert seed in inputs;
        }
      }
    } else {
      FileBounds(seed, seed.entries[0]);
    }
    in0, in1, grandparents, compactPointer :=
      SetupOtherInputs(level, files, parents, grandparentFiles, inputs, expandedLimit);
  }
}

/** Manual compactions (VersionSet::CompactRange): inputs that may leave gaps, and when that is safe. */
module ManualCompaction {
  import opened InternalKeys
  import opened Version
  import opened Inputs
  import opened Boundary
  import opened Picking
  import opened SetupInputs
  import opened CompactionLoop
  import opened Install

  /** The first `n` overlapping files are as many as fit under the limit, with the one that reaches it. */
  ghost predicate FitsLimit(fs: seq<File>, n: nat, limit: nat) {
    && 1 <= n <= |fs| && TotalFileSize(fs[..n - 1]) < limit
    && (n < |fs| ==> TotalFileSize(fs[..n]) >= limit)
  }

  /** The loop that keeps a manual compaction from taking too much in one shot. */
  method Truncated(fs: seq<File>, limit: nat) returns (n: nat)
    requires fs != [] && limit > 0
    ensures FitsLimit(fs, n, limit)
  {
    var total := 0;
    assert fs[..0] == [];
    for i := 0 to |fs|
      invariant total == TotalFileSize(fs[..i]) && total < limit
    {
      OneMoreFileSize(fs, 0, i);
      assert fs[0..i + 1] == fs[..i + 1] && fs[0..i] == fs[..i];
      total := total + fs[i].size;
      if total >= limit {
        return i + 1;
      }
    }
    n := |fs|;
    OneMoreFileSize(fs, 0, n - 1);
    assert fs[0..n] == fs[..n] && fs[0..n - 1] == fs[..n - 1];
  }

  /** CompactRange: the files of the level that overlap the range, above level 0 no more than the limit allows, and
      then the other inputs as for any compaction; without gaps they are good inputs.  `picked` is whether there is
      anything to do. */
  method CompactRange(level: nat, files: seq<File>, parents: seq<File>, grandparentFiles: seq<File>, begin: Bound, end: Bound,
                      limit: nat, expandedLimit: nat)
    returns (picked: bool, in0: seq<File>, in1: seq<File>, grandparents: seq<File>, compactPointer: Option<InternalKey>)
    requires GoodPair(level, files, parents) && limit > 0
    requires GoodFiles(grandparentFiles) && Disjoint(grandparentFiles)
    ensures picked <==> exists f :: f in files && Overlaps(f, begin, end)
    ensures picked ==> Selected(files, parents, in0, in1) && Seeded(level, files, in0) && Disjoint(in1)
    ensures picked && Unbroken(in0 + in1) ==> GoodInputs(files, parents, in0, in1)
    ensures picked && level == 0 ==> forall f | f in files && Overlaps(f, begin, end) :: f in in0
    ensures picked && level > 0 ==>
              exists n: nat | n <= |Overlapping(files, begin, end)| :: FitsLimit(Overlapping(files, begin, end), n, limit)
                          && IsSubset(Overlapping(files, begin, end)[..n], in0)
    ensures picked ==> forall f | f in grandparentFiles :: f in grandparents <==> OverlapsHull(f, in0 + in1)
    ensures picked ==> exists g :: IsLargest(in0, g) && compactPointer == Some(g.largest)
  {
    hide Selected, GoodFile, Disjoint, Distinct, Seeded, ClosedSelection, OverlapsHull, IsLargest, UniqueSeqs, FitsLimit, IsSubset, GoodInputs, Unbroken;
    LevelFiles(level, files, parents);
    var inputs, b, e := GetOverlappingInputs(level, files, begin, end);
    NothingToDo(level, files, inputs, begin, end, b, e);
    if inputs == [] {
      return false, [], [], [], None;
    }
    RangeIsSeeded(level, files, inputs, b, e);
    ghost var n := |inputs|;
    if level > 0 {
      var k := Truncated(inputs, limit);
      FirstAreSeeded(level, files, inputs, k);
      inputs, n := inputs[..k], k;
    }
    var pointer;
    in0, in1, grandparents, pointer := SetupOtherInputs(level, files, parents, grandparentFiles, inputs, expandedLimit);
    picked, compactPointer := true, Some(pointer);
    assert inputs[0] in files;
    PartsOfSubset(inputs, in0);
    GoodIffUnbroken(files, parents, in0, in1);
  }

  lemma {:induction false} NoneOverlaps(fs: seq<File>, b: Bound, e: Bound)
    requires forall f | f in fs :: !Overlaps(f, b, e)
    ensures Overlapping(fs, b, e) == []
  {
    if fs != [] {
      NoneOverlaps(fs[..|fs| - 1], b, e);
    }
  }

  lemma NothingToDo(level: nat, files: seq<File>, inputs: seq<File>, begin: Bound, end: Bound, b: Bound, e: Bound)
    requires inputs == Overlapping(files, b, e) && RangeIncludes(b, e, begin, end)
    requires b.At? == begin.At? && e.At? == end.At?
    requires level > 0 ==> b == begin && e == end
    requires level == 0 ==> forall b', e' | ClosedRange(files, b', e') && RangeIncludes(b', e', begin, end) ::
                              RangeIncludes(b', e', b, e)
    ensures inputs == [] <==> forall f | f in files :: !Overlaps(f, begin, end)
  {
    if forall f | f in files :: !Overlaps(f, begin, end) {
      assert ClosedRange(files, begin, end) && RangeIncludes(begin, end, begin, end);
      assert b == begin && e == end;
      NoneOverlaps(files, b, e);
    } else {
      var f :| f in files && Overlaps(f, begin, end);
      assert f in inputs;
    }
  }

  lemma PartsOfSubset(a: seq<File>, b: seq<File>)
    requires IsSubset(a, b)
    ensures forall f | f in a :: f in b
  {
  }

  lemma RangeIsSeeded(level: nat, files: seq<File>, inputs: seq<File>, b: Bound, e: Bound)
    requires GoodFiles(files) && Proper(files) && (if level > 0 then Disjoint(files) else Distinct(files))
    requires inputs != [] && inputs == Overlapping(files, b, e) && (level == 0 ==> ClosedRange(files, b, e))
    ensures Seeded(level, files, inputs)
  {
    ExpansionSeeded(level, files, inputs, b, e);
  }

  lemma FirstAreSeeded(level: nat, files: seq<File>, inputs: seq<File>, k: nat)
    requires level > 0 && Seeded(level, files, inputs) && GoodFiles(files) && Disjoint(files) && 1 <= k <= |inputs|
    ensures Seeded(level, files, inputs[..k])
  {
    forall f, g, h | f in files && g in inputs[..k] && h in inputs[..k] && Before(g.largest, f.smallest) && Before(f.largest, h.smallest)
      ensures f in inputs[..k]
    {
      assert f in inputs;
      PrefixIsClosed(inputs, k, f, h);
    }
  }

  lemma PrefixIsClosed(inputs: seq<File>, k: nat, f: File, h: File)
    requires Disjoint(inputs) && k <= |inputs| && f in inputs && h in inputs[..k]
    requires GoodFile(f) && GoodFile(h) && Before(f.largest, h.smallest)
    ensures f in inputs[..k]
  {
    OneOrder(f, h);
    var i :| 0 <= i < k && inputs[..k][i] == h;
    var j :| 0 <= j < |inputs| && inputs[j] == f;
    assert j < k by {
      assert i < j ==> Before(inputs[i].largest, inputs[j].smallest);
    }
    assert inputs[..k][j] == f;
  }

  lemma OneOrder(f: File, h: File)
    requires GoodFile(f) && GoodFile(h) && Before(f.largest, h.smallest)
    ensures !Before(h.largest, f.smallest)
  {
    FileBounds(f, f.entries[0]);
    FileBounds(h, h.entries[0]);
  }

  /** What still holds of the inputs when the outputs are installed, gaps or not. */
  ghost predicate StillSelected(v: Levels, level: nat, in0: seq<File>, in1: seq<File>, outs: seq<File>) {
    && level + 1 < |v|
    && IsSubset(in0, v[level]) && IsSubset(in1, v[level + 1]) && LeftNewer(v[level], in0)
    && GoodFiles(outs) && Disjoint(outs) && FileEntries(outs) <= FileEntries(in0 + in1)
  }

  /** No file of the output level overlaps an output. */
  ghost predicate OutputsFit(v: Levels, level: nat, in1: seq<File>, outs: seq<File>)
    requires level + 1 < |v|
  {
    forall f, g | f in v[level + 1] && f !in in1 && g in outs && f != g :: Separate(f, g)
  }

  /** Exactly when installing keeps the version in order: if no file that is at the output level by then overlaps an
      output.  The code does not check that; inputs without gaps ensure it. */
  lemma InstallIff(v: Levels, w: Levels, level: nat, in0: seq<File>, in1: seq<File>, outs: seq<File>)
    requires GoodVersion(v) && Replaced(v, w, level, in0, in1, outs) && StillSelected(v, level, in0, in1, outs)
    ensures GoodVersion(w) <==> OutputsFit(v, level, in1, outs)
  {
    hide LevelsNewer, FileEntries, NewerThan;
    if OutputsFit(v, level, in1, outs) {
      FittingKeepsVersion(v, w, level, in0, in1, outs);
    }
    if GoodVersion(w) {
      forall f, g | f in v[level + 1] && f !in in1 && g in outs && f != g
        ensures Separate(f, g)
      {
        assert f in w[level + 1] && g in w[level + 1];
        DisjointPair(w[level + 1], f, g);
      }
    }
  }

  lemma FittingKeepsVersion(v: Levels, w: Levels, level: nat, in0: seq<File>, in1: seq<File>, outs: seq<File>)
    requires GoodVersion(v) && Replaced(v, w, level, in0, in1, outs) && StillSelected(v, level, in0, in1, outs)
    requires OutputsFit(v, level, in1, outs)
    ensures GoodVersion(w)
  {
    forall l | 0 <= l < |w|
      ensures GoodFiles(w[l]) && SortedFiles(w[l])
      ensures l > 0 ==> Disjoint(w[l])
    {
      if l == level && level > 0 {
        ReplacedUpperDisjoint(v, w, level, in0, in1, outs);
      } else if l == level + 1 {
        FittingLowerDisjoint(v, w, level, in0, in1, outs);
      }
    }
    ReplacedLevelsNewer(v, w, level, in0, in1, outs);
    assert NewestByNumber(w[0]);
  }

  lemma FittingLowerDisjoint(v: Levels, w: Levels, level: nat, in0: seq<File>, in1: seq<File>, outs: seq<File>)
    requires GoodVersion(v) && Replaced(v, w, level, in0, in1, outs) && StillSelected(v, level, in0, in1, outs)
    requires OutputsFit(v, level, in1, outs)
    ensures Disjoint(w[level + 1])
  {
    hide LevelsNewer, FileEntries, LeftNewer, NewestByNumber;
    forall f, g | f in w[level + 1] && g in w[level + 1] && f != g
      ensures Separate(f, g)
    {
      if f in outs && g in outs {
        DisjointPair(outs, f, g);
      } else if f !in outs && g !in outs {
        DisjointPair(v[level + 1], f, g);
      }
    }
    DisjointFromPairs(w[level + 1]);
  }
}

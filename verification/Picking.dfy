/** Setting up both input levels of a compaction. */
module Picking {
  import opened InternalKeys
  import opened Version
  import opened Inputs
  import opened Boundary

  /** GetRange: the least and the greatest internal key of the files. */
  method GetRange(fs: seq<File>) returns (smallest: InternalKey, largest: InternalKey)
    requires fs != []
    ensures exists f :: f in fs && f.smallest == smallest
    ensures exists f :: f in fs && f.largest == largest
    ensures forall f | f in fs :: AtOrBefore(smallest, f.smallest) && AtOrBefore(f.largest, largest)
  {
    smallest, largest := fs[0].smallest, fs[0].largest;
    for i := 0 to |fs|
      invariant exists f :: f in fs && f.smallest == smallest
      invariant exists f :: f in fs && f.largest == largest
      invariant forall j | 0 <= j < i :: AtOrBefore(smallest, fs[j].smallest) && AtOrBefore(fs[j].largest, largest)
    {
      if Compare(fs[i].smallest, smallest) < 0 {
        smallest := fs[i].smallest;
      }
      if Compare(fs[i].largest, largest) > 0 {
        largest := fs[i].largest;
      }
    }
  }

  function TotalFileSize(fs: seq<File>): nat {
    if fs == [] then 0 else fs[0].size + TotalFileSize(fs[1..])
  }

  /** `f` overlaps, by user key, the range from the first to the last key of `fs`. */
  ghost predicate OverlapsHull(f: File, fs: seq<File>) {
    exists a, b :: a in fs && b in fs && a.smallest.user <= f.largest.user && f.smallest.user <= b.largest.user
  }

  /** `lo` and `hi` are the user-key ends of `fs`. */
  ghost predicate HullEnds(fs: seq<File>, lo: UserKey, hi: UserKey) {
    && (exists a :: a in fs && a.smallest.user == lo)
    && (exists b :: b in fs && b.largest.user == hi)
    && (forall f | f in fs :: lo <= f.smallest.user && f.largest.user <= hi)
  }

  lemma HullEndsOverlap(fs: seq<File>, lo: UserKey, hi: UserKey)
    requires HullEnds(fs, lo, hi)
    ensures forall f :: Overlaps(f, At(lo), At(hi)) <==> OverlapsHull(f, fs)
    ensures forall u :: lo <= u <= hi <==> InHull(fs, u)
  {
  }

  /** Files of the level left behind share user keys with the inputs only as newer entries. */
  ghost predicate LeftNewer(files: seq<File>, inputs: seq<File>) {
    forall f, g | f in files && f !in inputs && g in inputs :: NewerThan(f.entries, g.entries)
  }

  /** On level 0, everything that overlaps the inputs is an input; above, nothing lies between them. */
  ghost predicate ClosedSelection(level: nat, files: seq<File>, inputs: seq<File>) {
    if level == 0 then forall f | f in files && OverlapsHull(f, inputs) :: f in inputs
    else Contiguous(files, inputs)
  }

  ghost predicate IsSubset(a: seq<File>, b: seq<File>) {
    forall f | f in a :: f in b
  }

  /** What the chosen inputs guarantee.  `files` and `parents` are the two levels picked from. */
  ghost predicate GoodInputs(files: seq<File>, parents: seq<File>, in0: seq<File>, in1: seq<File>) {
    && in0 != []
    && IsSubset(in0, files)
    && IsSubset(in1, parents)
    && LeftNewer(files, in0)
    && Unbroken(in0 + in1)
    && (forall f | f in parents :: f in in1 <==> OverlapsHull(f, in0))
  }

  /** What the chosen inputs guarantee when the range they come from may have gaps. */
  ghost predicate Selected(files: seq<File>, parents: seq<File>, in0: seq<File>, in1: seq<File>) {
    && in0 != []
    && IsSubset(in0, files)
    && IsSubset(in1, parents)
    && LeftNewer(files, in0)
    && (forall f | f in parents :: f in in1 <==> OverlapsHull(f, in0))
  }

  lemma GoodIffUnbroken(files: seq<File>, parents: seq<File>, in0: seq<File>, in1: seq<File>)
    ensures GoodInputs(files, parents, in0, in1) <==> Selected(files, parents, in0, in1) && Unbroken(in0 + in1)
  {
  }

  lemma DisjointFilesNewer(f: File, g: File)
    requires GoodFile(f) && GoodFile(g) && Before(f.largest, g.smallest)
    requires UniqueSeqs(Elements(f.entries) + Elements(g.entries))
    ensures NewerThan(f.entries, g.entries)
  {
    forall x, y | x in f.entries && y in g.entries && x.k.user == y.k.user
      ensures x.k.sn > y.k.sn
    {
      FileBounds(f, x);
      FileBounds(g, y);
      assert Before(x.k, y.k);
      assert x.k.sn != y.k.sn by {
        assert x in Elements(f.entries) + Elements(g.entries);
      }
    }
  }

  lemma {:induction false} LargestExists(fs: seq<File>) returns (p: File)
    requires fs != []
    ensures IsLargest(fs, p)
  {
    var last := fs[|fs| - 1];
    if |fs| == 1 {
      p := last;
    } else {
      var q := LargestExists(fs[..|fs| - 1]);
      assert fs == fs[..|fs| - 1] + [last];
      p := if Before(q.largest, last.largest) then last else q;
    }
  }

  /** A closed selection without boundary files leaves only newer entries behind. */
  lemma ClosedGivesLeftNewer(level: nat, files: seq<File>, inputs: seq<File>)
    requires GoodFiles(files) && (level > 0 ==> Disjoint(files)) && UniqueSeqs(FileEntries(files))
    requires inputs != [] && IsSubset(inputs, files)
    requires ClosedSelection(level, files, inputs) && NoBoundary(files, inputs)
    ensures LeftNewer(files, inputs)
  {
    forall f, g | f in files && f !in inputs && g in inputs
      ensures NewerThan(f.entries, g.entries)
    {
      if level == 0 {
        forall x, y | x in f.entries && y in g.entries
          ensures x.k.user != y.k.user
        {
          FileBounds(f, x);
          FileBounds(g, y);
        }
      } else {
        DisjointPair(files, f, g);
        if Before(f.largest, g.smallest) {
          assert Elements(f.entries) + Elements(g.entries) <= FileEntries(files);
          DisjointFilesNewer(f, g);
        } else {
          LeftFileSharesNothing(files, inputs, f, g);
        }
      }
    }
  }

  lemma LeftFileSharesNothing(files: seq<File>, inputs: seq<File>, f: File, g: File)
    requires GoodFiles(files) && Disjoint(files)
    requires IsSubset(inputs, files) && Contiguous(files, inputs) && NoBoundary(files, inputs)
    requires f in files && f !in inputs && g in inputs && Before(g.largest, f.smallest)
    ensures forall x, y | x in f.entries && y in g.entries :: x.k.user != y.k.user
  {
    forall x, y | x in f.entries && y in g.entries
      ensures x.k.user != y.k.user
    {
      FileBounds(f, x);
      FileBounds(g, y);
      var p := LargestExists(inputs);
      DisjointPair(files, f, p);
      assert !IsBoundary(f, p.largest);
    }
  }

  /** On level 0 there is never a boundary file to add. */
  lemma ClosedLevel0NeedsNoBoundary(files: seq<File>, inputs: seq<File>, r: seq<File>)
    requires GoodFiles(files) && IsSubset(inputs, files) && ClosedSelection(0, files, inputs)
    requires inputs <= r && IsSubset(r, files) && BoundaryChain(|inputs|, r)
    ensures r == inputs
  {
    if |r| > |inputs| {
      var b := r[|inputs|];
      assert r[..|inputs|] == inputs;
      var p :| IsLargest(inputs, p) && IsBoundary(b, p.largest);
      Level0HasNoBoundary(files, inputs, p, b);
    }
  }

  lemma Level0HasNoBoundary(files: seq<File>, inputs: seq<File>, p: File, b: File)
    requires GoodFiles(files) && IsSubset(inputs, files) && ClosedSelection(0, files, inputs)
    requires IsLargest(inputs, p) && b in files
    ensures !IsBoundary(b, p.largest)
  {
    FileBounds(b, b.entries[0]);
    FileBounds(p, p.entries[0]);
    if b.smallest.user == p.largest.user {
      assert OverlapsHull(b, inputs);
    }
  }

  lemma {:induction false} OverlappingDisjoint(fs: seq<File>, b: Bound, e: Bound)
    requires Disjoint(fs)
    ensures Disjoint(Overlapping(fs, b, e))
  {
    if fs != [] {
      var init := fs[..|fs| - 1];
      OverlappingDisjoint(init, b, e);
      var f := fs[|fs| - 1];
      forall i | 0 <= i < |Overlapping(init, b, e)|
        ensures Before(Overlapping(init, b, e)[i].largest, f.smallest)
      {
        var g := Overlapping(init, b, e)[i];
        assert g in init;
        var j :| 0 <= j < |init| && init[j] == g;
        assert fs[j] == g;
      }
    }
  }

  lemma ChainDisjoint(n: nat, r: seq<File>)
    requires n <= |r| && Disjoint(r[..n]) && BoundaryChain(n, r)
    ensures Disjoint(r)
  {
    forall i, j | 0 <= i < j < |r|
      ensures Before(r[i].largest, r[j].smallest)
    {
      if j < n {
        assert r[..n][i] == r[i] && r[..n][j] == r[j];
      } else {
        var p :| IsLargest(r[..j], p) && IsBoundary(r[j], p.largest);
        assert r[..j][i] == r[i];
      }
    }
  }

  /** Widening the range never loses a file, and gains none if the count stays. */
  lemma {:induction false} OverlappingMonotone(fs: seq<File>, b: Bound, e: Bound, b': Bound, e': Bound)
    requires RangeIncludes(b', e', b, e)
    ensures |Overlapping(fs, b, e)| <= |Overlapping(fs, b', e')|
    ensures |Overlapping(fs, b, e)| == |Overlapping(fs, b', e')| ==> Overlapping(fs, b, e) == Overlapping(fs, b', e')
  {
    if fs != [] {
      OverlappingMonotone(fs[..|fs| - 1], b, e, b', e');
    }
  }

  lemma OverlappingContiguous(fs: seq<File>, b: Bound, e: Bound)
    requires Proper(fs)
    ensures Contiguous(fs, Overlapping(fs, b, e))
  {
    var r := Overlapping(fs, b, e);
    forall f, g, h | f in fs && g in r && h in r && Before(g.largest, f.smallest) && Before(f.largest, h.smallest)
      ensures f in r
    {
      assert Overlaps(g, b, e) && Overlaps(h, b, e);
    }
  }

  /** Files that overlap an unbroken selection keep it unbroken. */
  lemma OverlappingKeepsUnbroken(a: seq<File>, b: seq<File>)
    requires Proper(a) && Proper(b) && Unbroken(a)
    requires forall f | f in b :: OverlapsHull(f, a)
    ensures Unbroken(a + b)
  {
    forall u | InHull(a + b, u)
      ensures CoveredBy(a + b, u)
    {
      var x, y :| x in a + b && y in a + b && x.smallest.user <= u <= y.largest.user;
      if InHull(a, u) {
        var h :| h in a && h.smallest.user <= u <= h.largest.user;
        assert h in a + b;
      } else if x in b && OverlapsHull(x, a) && u <= x.largest.user {
      } else {
        assert y in b && OverlapsHull(y, a);
        assert y.smallest.user <= u;
      }
    }
  }

  lemma SpansUnbroken(a: seq<File>, b: seq<File>, r: seq<File>)
    requires Proper(a) && Proper(r) && a != [] && a <= r
    requires Unbroken(a + b) && Spans(a, r)
    ensures Unbroken(r + b)
  {
    forall u | InHull(r + b, u)
      ensures CoveredBy(r + b, u)
    {
      var x, y :| x in r + b && y in r + b && x.smallest.user <= u <= y.largest.user;
      assert a[0] in a && a[0] in r;
      if InHull(a + b, u) {
        var h :| h in a + b && h.smallest.user <= u <= h.largest.user;
        assert h in r + b;
      } else {
        assert InHull(r, u) by {
          if x !in r {
            assert x in a + b && a[0] in a + b;
            assert y in r && a[0].smallest.user <= u;
          } else if y !in r {
            assert y in a + b && a[0] in a + b;
            assert u <= a[0].largest.user;
          }
        }
        assert forall f | f in a :: f in a + b;
        var h :| h in r && h.smallest.user <= u <= h.largest.user;
        assert h in r + b;
      }
    }
  }
}

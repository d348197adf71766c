/** Boundary files: keeping the entries of one user key together when a level is compacted. */
module Boundary {
  import opened InternalKeys
  import opened Version
  import opened Inputs

  datatype Option<T> = None | Some(value: T)

  ghost predicate IsLargest(fs: seq<File>, g: File) {
    g in fs && forall h | h in fs :: AtOrBefore(h.largest, g.largest)
  }

  /** FindLargestKey. */
  method FindLargestKey(fs: seq<File>) returns (largest: Option<InternalKey>, ghost owner: Option<File>)
    ensures largest.None? <==> fs == []
    ensures fs != [] ==> owner.Some? && IsLargest(fs, owner.value) && largest == Some(owner.value.largest)
  {
    largest, owner := None, None;
    for i := 0 to |fs|
      invariant largest.None? <==> i == 0
      invariant i > 0 ==> owner.Some? && IsLargest(fs[..i], owner.value) && largest == Some(owner.value.largest)
    {
      assert fs[..i + 1] == fs[..i] + [fs[i]];
      if largest.None? || Compare(fs[i].largest, largest.value) > 0 {
        largest, owner := Some(fs[i].largest), Some(fs[i]);
      }
    }
    assert fs[..|fs|] == fs;
  }

  /** `f` starts after `largest` and at the same user key. */
  predicate IsBoundary(f: File, largest: InternalKey) {
    Before(largest, f.smallest) && f.smallest.user == largest.user
  }

  /** FindSmallestBoundaryFile. */
  method FindSmallestBoundaryFile(fs: seq<File>, largest: InternalKey) returns (r: Option<File>)
    ensures r.None? <==> forall f | f in fs :: !IsBoundary(f, largest)
    ensures r.Some? ==> r.value in fs && IsBoundary(r.value, largest)
    ensures r.Some? ==> forall f | f in fs && IsBoundary(f, largest) :: AtOrBefore(r.value.smallest, f.smallest)
  {
    r := None;
    for i := 0 to |fs|
      invariant r.None? <==> forall j | 0 <= j < i :: !IsBoundary(fs[j], largest)
      invariant r.Some? ==> r.value in fs && IsBoundary(r.value, largest)
      invariant r.Some? ==> forall j | 0 <= j < i && IsBoundary(fs[j], largest) ::
                              AtOrBefore(r.value.smallest, fs[j].smallest)
    {
      if IsBoundary(fs[i], largest) {
        if r.None? || Compare(fs[i].smallest, r.value.smallest) < 0 {
          r := Some(fs[i]);
        }
      }
    }
  }

  /** No file of the level continues the last user key of `r`. */
  ghost predicate NoBoundary(levelFiles: seq<File>, r: seq<File>) {
    forall f, g | f in levelFiles && IsLargest(r, g) :: !IsBoundary(f, g.largest)
  }

  /** No file of the level lies between two files of `r`. */
  ghost predicate Contiguous(levelFiles: seq<File>, r: seq<File>) {
    forall f, g, h | f in levelFiles && g in r && h in r && Before(g.largest, f.smallest) && Before(f.largest, h.smallest) ::
      f in r
  }

  ghost predicate InHull(fs: seq<File>, u: UserKey) {
    exists f, g :: f in fs && g in fs && f.smallest.user <= u <= g.largest.user
  }

  /** The user keys between the ends of `fs` all belong to some file of `fs`. */
  ghost predicate Unbroken(fs: seq<File>) {
    forall u | InHull(fs, u) :: CoveredBy(fs, u)
  }

  /** `r` widens the hull of `a` only over keys that `r` covers. */
  ghost predicate Spans(a: seq<File>, r: seq<File>) {
    forall u | InHull(r, u) :: InHull(a, u) || CoveredBy(r, u)
  }

  lemma DisjointPair(fs: seq<File>, f: File, g: File)
    requires Disjoint(fs)
    requires f in fs && g in fs && f != g
    ensures Before(f.largest, g.smallest) || Before(g.largest, f.smallest)
  {
    var i :| 0 <= i < |fs| && fs[i] == f;
    var j :| 0 <= j < |fs| && fs[j] == g;
  }

  lemma AddedFileSpans(a: seq<File>, r: seq<File>, p: File, b: File)
    requires Spans(a, r) && p in r
    requires p.smallest.user <= p.largest.user && b.smallest.user <= b.largest.user
    requires p.largest.user == b.smallest.user
    ensures Spans(a, r + [b])
  {
    var s := r + [b];
    forall u | InHull(s, u)
      ensures InHull(a, u) || CoveredBy(s, u)
    {
      var f, g :| f in s && g in s && f.smallest.user <= u <= g.largest.user;
      if InHull(r, u) {
        if !InHull(a, u) {
          var h :| h in r && h.smallest.user <= u <= h.largest.user;
          assert h in s;
        }
      } else {
        assert b in s;
        assert f in r ==> u > p.largest.user;
        assert g in r ==> u < p.smallest.user;
      }
    }
  }

  lemma AddedFileContiguous(levelFiles: seq<File>, r: seq<File>, p: File, b: File)
    requires Disjoint(levelFiles) && Proper(levelFiles) && Contiguous(levelFiles, r)
    requires forall f | f in r :: f in levelFiles
    requires IsLargest(r, p) && b in levelFiles && IsBoundary(b, p.largest)
    requires forall f | f in levelFiles && IsBoundary(f, p.largest) :: AtOrBefore(b.smallest, f.smallest)
    requires forall f | f in levelFiles :: AtOrBefore(f.smallest, f.largest)
    ensures Contiguous(levelFiles, r + [b])
  {
    forall f, g, h | f in levelFiles && g in r + [b] && h in r + [b] && Before(g.largest, f.smallest) && Before(f.largest, h.smallest)
      ensures f in r + [b]
    {
      assert Before(b.smallest, b.largest) || b.smallest == b.largest || !Before(b.largest, b.smallest);
      if h in r && g in r {
        assert f in r;
      } else if h == b && g in r && f != p {
        DisjointPair(levelFiles, f, p);
        if Before(f.largest, p.smallest) {
          assert f in r;
        } else {
          assert IsBoundary(f, p.largest);
        }
      }
    }
  }

  ghost function StartingAfter(fs: seq<File>, key: InternalKey): set<File> {
    set f | f in fs && Before(key, f.smallest)
  }

  lemma StartingAfterShrinks(fs: seq<File>, key: InternalKey, b: File)
    requires b in fs && Before(key, b.smallest) && AtOrBefore(b.smallest, b.largest)
    ensures StartingAfter(fs, b.largest) < StartingAfter(fs, key)
  {
    assert b in StartingAfter(fs, key);
    assert b !in StartingAfter(fs, b.largest);
    forall f | f in StartingAfter(fs, b.largest)
      ensures f in StartingAfter(fs, key)
    {
    }
  }

  /** From index `n` on, each file of `r` is a boundary file of those before it. */
  ghost predicate BoundaryChain(n: nat, r: seq<File>) {
    forall i | n <= i < |r| :: exists p :: IsLargest(r[..i], p) && IsBoundary(r[i], p.largest)
  }

  lemma ChainExtends(n: nat, r: seq<File>, p: File, b: File)
    requires BoundaryChain(n, r) && IsLargest(r, p) && IsBoundary(b, p.largest)
    requires AtOrBefore(b.smallest, b.largest)
    ensures BoundaryChain(n, r + [b])
    ensures IsLargest(r + [b], b)
  {
    var s := r + [b];
    forall i | n <= i < |s|
      ensures exists q :: IsLargest(s[..i], q) && IsBoundary(s[i], q.largest)
    {
      if i < |r| {
        var q :| IsLargest(r[..i], q) && IsBoundary(r[i], q.largest);
        assert s[..i] == r[..i];
      } else {
        assert s[..i] == r;
      }
    }
    forall h | h in s
      ensures AtOrBefore(h.largest, b.largest)
    {
      assert h in r ==> AtOrBefore(h.largest, p.largest);
    }
  }

  /** AddBoundaryInputs. */
  method AddBoundaryInputs(levelFiles: seq<File>, compactionFiles: seq<File>) returns (r: seq<File>)
    requires Proper(levelFiles) && Proper(compactionFiles)
    requires forall f | f in levelFiles :: AtOrBefore(f.smallest, f.largest)
    ensures compactionFiles <= r
    ensures forall f | f in r :: f in compactionFiles || f in levelFiles
    ensures r == [] <==> compactionFiles == []
    ensures NoBoundary(levelFiles, r)
    ensures BoundaryChain(|compactionFiles|, r)
    ensures Spans(compactionFiles, r)
    ensures Disjoint(levelFiles) && (forall f | f in compactionFiles :: f in levelFiles) && Contiguous(levelFiles, compactionFiles)
            ==> Contiguous(levelFiles, r)
  {
    var largest, owner := FindLargestKey(compactionFiles);
    r := compactionFiles;
    if largest.None? {
      return;
    }
    var largestKey := largest.value;
    ghost var p := owner.value;
    var continueSearching := true;
    while continueSearching
      invariant compactionFiles <= r && Proper(r)
      invariant forall f | f in r :: f in compactionFiles || f in levelFiles
      invariant IsLargest(r, p) && largestKey == p.largest
      invariant !continueSearching ==> forall f | f in levelFiles :: !IsBoundary(f, largestKey)
      invariant Spans(compactionFiles, r)
      invariant BoundaryChain(|compactionFiles|, r)
      invariant Disjoint(levelFiles) && (forall f | f in compactionFiles :: f in levelFiles) && Contiguous(levelFiles, compactionFiles)
                ==> Contiguous(levelFiles, r)
      decreases StartingAfter(levelFiles, largestKey), continueSearching
    {
      var b := FindSmallestBoundaryFile(levelFiles, largestKey);
      if b.Some? {
        AddedFileSpans(compactionFiles, r, p, b.value);
        if Disjoint(levelFiles) && (forall f | f in compactionFiles :: f in levelFiles) && Contiguous(levelFiles, compactionFiles) {
          AddedFileContiguous(levelFiles, r, p, b.value);
        }
        StartingAfterShrinks(levelFiles, largestKey, b.value);
        ChainExtends(|compactionFiles|, r, p, b.value);
        r := r + [b.value];
        largestKey := b.value.largest;
        p := b.value;
      } else {
        continueSearching := false;
      }
    }
  }
}

/** Installing an edit keeps the version invariant: memtable flushes and compaction results. */
module Install {
  import opened InternalKeys
  import opened Version
  import opened Inputs
  import opened Boundary
  import opened Picking
  import opened VersionBuilder

  /** `f` and `g` share no internal-key range. */
  ghost predicate Separate(f: File, g: File) {
    Before(f.largest, g.smallest) || Before(g.largest, f.smallest)
  }

  /** `f` lies wholly on one side of all of `ins`. */
  ghost predicate KeepsApart(f: File, ins: seq<File>) {
    (forall g | g in ins :: Before(f.largest, g.smallest)) || (forall g | g in ins :: Before(g.largest, f.smallest))
  }

  lemma DisjointFromPairs(fs: seq<File>)
    requires SortedFiles(fs) && GoodFiles(fs)
    requires forall f, g | f in fs && g in fs && f != g :: Separate(f, g)
    ensures Disjoint(fs)
  {
    forall i, j | 0 <= i < j < |fs|
      ensures Before(fs[i].largest, fs[j].smallest)
    {
      var f, g := fs[i], fs[j];
      assert BySmallest(f, g);
      assert f in fs && g in fs;
      assert f != g;
      FileBounds(g, g.entries[0]);
    }
  }

  /** One level after one edit whose added files carry fresh numbers. */
  lemma EditLevel(base: seq<File>, edit: LevelEdit)
    requires SortedFiles(base)
    requires forall i, j | 0 <= i < j < |edit.added| :: edit.added[i].number != edit.added[j].number
    requires Numbers(edit.added) !! Numbers(base) && Numbers(edit.added) !! edit.deleted
    ensures SortedFiles(SaveLevel(base, Apply(EMPTY_STATE, edit)))
    ensures forall f :: f in SaveLevel(base, Apply(EMPTY_STATE, edit))
                        <==> (f in base && f.number !in edit.deleted) || f in edit.added
  {
    var st := Apply(EMPTY_STATE, edit);
    assert SameByNumber([], edit.added);
    ApplyAddedMeaning(LevelState(edit.deleted, []), edit.added);
    assert LevelState(EMPTY_STATE.deleted + edit.deleted, EMPTY_STATE.added) == LevelState(edit.deleted, []);
    assert st.deleted == edit.deleted - Numbers(edit.added) == edit.deleted;
    forall f, g | f in base && g in st.added
      ensures BySmallest(f, g) || BySmallest(g, f)
    {
      NumberIn(base, f);
      NumberIn(edit.added, g);
      CompareIsTotalOrder(f.smallest, g.smallest, g.smallest);
    }
    SaveLevelMeaning(base, st);
    forall f | f in edit.added
      ensures f.number !in edit.deleted
    {
      NumberIn(edit.added, f);
    }
  }

  /** `w` is `v` with the table `n` added at level `p`. */
  ghost predicate Flushed(v: Levels, w: Levels, p: nat, n: File) {
    && |w| == |v| && p < |v|
    && (forall l | 0 <= l < |v| && l != p :: w[l] == v[l])
    && SortedFiles(w[p])
    && (forall f :: f in w[p] <==> f in v[p] || f == n)
  }

  /** By user key, `f` and `g` do not overlap. */
  ghost predicate UserApart(f: File, g: File) {
    f.largest.user < g.smallest.user || g.largest.user < f.smallest.user
  }

  /** What level placement and the write order guarantee about a flushed table. */
  ghost predicate FlushOk(v: Levels, p: nat, n: File) {
    && p < |v| && GoodFile(n)
    && (p > 0 ==> forall l, f | 0 <= l <= p && f in v[l] :: UserApart(f, n))
    && (forall l, f | 0 <= l < |v| && f in v[l] :: AllNewer(n, f))
    && (forall f | f in v[0] :: f.number < n.number)
  }

  /** Every entry of `n` is newer than every entry of `f`, whatever their keys. */
  ghost predicate AllNewer(n: File, f: File) {
    forall x, y | x in n.entries && y in f.entries :: x.k.sn > y.k.sn
  }

  lemma ApartSharesNothing(f: File, g: File)
    requires GoodFile(f) && GoodFile(g) && UserApart(f, g)
    ensures NewerThan(f.entries, g.entries) && Separate(f, g)
  {
    forall x, y | x in f.entries && y in g.entries
      ensures x.k.user != y.k.user
    {
      FileBounds(f, x);
      FileBounds(g, y);
    }
    FileBounds(f, f.entries[0]);
    FileBounds(g, g.entries[0]);
  }

  /** A memtable flush keeps the version invariant, at whichever level it is placed. */
  lemma FlushKeepsInvariant(v: Levels, w: Levels, p: nat, n: File)
    requires GoodVersion(v) && Flushed(v, w, p, n) && FlushOk(v, p, n)
    ensures GoodVersion(w)
  {
    forall l | 0 <= l < |w|
      ensures GoodFiles(w[l]) && SortedFiles(w[l])
      ensures l > 0 ==> Disjoint(w[l])
    {
      if l == p && p > 0 {
        FlushedLevelDisjoint(v, w, p, n);
      }
    }
    FlushLevelsNewer(v, w, p, n);
    if p == 0 {
      FlushNewestByNumber(v[0], w[0], n);
    }
  }

  lemma FlushedLevelDisjoint(v: Levels, w: Levels, p: nat, n: File)
    requires GoodVersion(v) && Flushed(v, w, p, n) && FlushOk(v, p, n) && p > 0
    ensures Disjoint(w[p])
  {
    forall f, g | f in w[p] && g in w[p] && f != g
      ensures Separate(f, g)
    {
      if f == n {
        ApartSharesNothing(g, n);
      } else if g == n {
        ApartSharesNothing(f, n);
      } else {
        DisjointPair(v[p], f, g);
      }
    }
    DisjointFromPairs(w[p]);
  }

  lemma AllNewerIsNewer(f: File, g: File)
    requires AllNewer(f, g)
    ensures NewerThan(f.entries, g.entries)
  {
  }

  lemma FlushLevelsNewer(v: Levels, w: Levels, p: nat, n: File)
    requires (forall l | 0 <= l < |v| :: GoodFiles(v[l])) && LevelsNewer(v)
    requires Flushed(v, w, p, n) && FlushOk(v, p, n)
    ensures LevelsNewer(w)
  {
    hide SortedFiles, NewerThan, AllNewer;
    forall l, m, f, g | 0 <= l < m < |w| && f in w[l] && g in w[m]
      ensures NewerThan(f.entries, g.entries)
    {
      if m == p && g == n {
        assert f in v[l];
        ApartSharesNothing(f, n);
      } else if l == p && f == n {
        assert g in v[m];
        AllNewerIsNewer(n, g);
      } else {
        assert f in v[l] && g in v[m];
      }
    }
  }

  lemma FlushNewestByNumber(fs: seq<File>, gs: seq<File>, n: File)
    requires NewestByNumber(fs)
    requires forall f :: f in gs <==> f in fs || f == n
    requires forall f | f in fs :: f.number < n.number && AllNewer(n, f)
    ensures NewestByNumber(gs)
  {
    forall f, g | f in gs && g in gs && f.number > g.number
      ensures NewerThan(f.entries, g.entries)
    {
      if f == n {
        assert AllNewer(n, g);
      }
    }
  }

  /** `w` is `v` with the inputs of a compaction replaced by its outputs. */
  ghost predicate Replaced(v: Levels, w: Levels, level: nat, in0: seq<File>, in1: seq<File>, outs: seq<File>) {
    && |w| == |v| && level + 1 < |v|
    && (forall l | 0 <= l < |v| && l != level && l != level + 1 :: w[l] == v[l])
    && SortedFiles(w[level]) && SortedFiles(w[level + 1])
    && (forall f :: f in w[level] <==> f in v[level] && f !in in0)
    && (forall f :: f in w[level + 1] <==> (f in v[level + 1] && f !in in1) || f in outs)
  }

  /** What makes outputs fit in where the inputs were. */
  ghost predicate ReplaceOk(v: Levels, level: nat, in0: seq<File>, in1: seq<File>, outs: seq<File>) {
    && level + 1 < |v|
    && IsSubset(in0, v[level]) && IsSubset(in1, v[level + 1])
    && LeftNewer(v[level], in0)
    && (forall f | f in v[level + 1] && f !in in1 :: KeepsApart(f, in0 + in1))
    && GoodFiles(outs) && Disjoint(outs)
    && FileEntries(outs) <= FileEntries(in0 + in1)
  }

  /** Replacing inputs by outputs keeps the version invariant. */
  lemma ReplaceKeepsInvariant(v: Levels, w: Levels, level: nat, in0: seq<File>, in1: seq<File>, outs: seq<File>)
    requires GoodVersion(v) && Replaced(v, w, level, in0, in1, outs) && ReplaceOk(v, level, in0, in1, outs)
    ensures GoodVersion(w)
  {
    forall l | 0 <= l < |w|
      ensures GoodFiles(w[l]) && SortedFiles(w[l])
      ensures l > 0 ==> Disjoint(w[l])
    {
      if l == level && level > 0 {
        ReplacedUpperDisjoint(v, w, level, in0, in1, outs);
      } else if l == level + 1 {
        ReplacedLowerDisjoint(v, w, level, in0, in1, outs);
      }
    }
    ReplacedLevelsNewer(v, w, level, in0, in1, outs);
    assert NewestByNumber(w[0]);
  }

  lemma ReplacedUpperDisjoint(v: Levels, w: Levels, level: nat, in0: seq<File>, in1: seq<File>, outs: seq<File>)
    requires GoodVersion(v) && Replaced(v, w, level, in0, in1, outs) && level > 0
    ensures Disjoint(w[level])
  {
    forall f, g | f in w[level] && g in w[level] && f != g
      ensures Separate(f, g)
    {
      DisjointPair(v[level], f, g);
    }
    DisjointFromPairs(w[level]);
  }

  /** A file that keeps apart from the inputs keeps apart from the outputs. */
  lemma ApartFromOutput(f: File, ins: seq<File>, g: File)
    requires KeepsApart(f, ins) && GoodFiles(ins) && GoodFile(g)
    requires forall e | e in g.entries :: e in FileEntries(ins)
    ensures Separate(f, g)
  {
    var x, y := g.entries[0], g.entries[|g.entries| - 1];
    assert x in g.entries && y in g.entries;
    var a :| a in ins && x in a.entries;
    var b :| b in ins && y in b.entries;
    FileBounds(a, x);
    FileBounds(b, y);
  }

  lemma ReplacedLowerDisjoint(v: Levels, w: Levels, level: nat, in0: seq<File>, in1: seq<File>, outs: seq<File>)
    requires GoodVersion(v) && Replaced(v, w, level, in0, in1, outs) && ReplaceOk(v, level, in0, in1, outs)
    ensures Disjoint(w[level + 1])
  {
    var lower := w[level + 1];
    assert GoodFiles(in0 + in1);
    forall f, g | f in lower && g in lower && f != g
      ensures Separate(f, g)
    {
      if f in outs && g in outs {
        DisjointPair(outs, f, g);
      } else if f in outs {
        OutputEntries(in0 + in1, outs, f);
        ApartFromOutput(g, in0 + in1, f);
      } else if g in outs {
        OutputEntries(in0 + in1, outs, g);
        ApartFromOutput(f, in0 + in1, g);
      } else {
        DisjointPair(v[level + 1], f, g);
      }
    }
    DisjointFromPairs(lower);
  }

  lemma OutputEntries(ins: seq<File>, outs: seq<File>, g: File)
    requires FileEntries(outs) <= FileEntries(ins) && g in outs
    ensures forall e | e in g.entries :: e in FileEntries(ins)
  {
    forall e | e in g.entries
      ensures e in FileEntries(ins)
    {
      assert e in FileEntries(outs);
    }
  }

  lemma ReplacedLevelsNewer(v: Levels, w: Levels, level: nat, in0: seq<File>, in1: seq<File>, outs: seq<File>)
    requires LevelsNewer(v) && Replaced(v, w, level, in0, in1, outs)
    requires IsSubset(in0, v[level]) && IsSubset(in1, v[level + 1]) && LeftNewer(v[level], in0)
    requires FileEntries(outs) <= FileEntries(in0 + in1)
    ensures LevelsNewer(w)
  {
    forall l, m, f, g | 0 <= l < m < |w| && f in w[l] && g in w[m]
      ensures NewerThan(f.entries, g.entries)
    {
      if m == level + 1 && g in outs {
        OutputEntries(in0 + in1, outs, g);
        NewerThanOutput(v, level, in0, in1, l, f, g);
      } else if l == level + 1 && f in outs {
        OutputEntries(in0 + in1, outs, f);
        OutputNewerThan(v, level, in0, in1, f, m, g);
      } else {
        assert f in v[l] && g in v[m];
      }
    }
  }

  lemma NewerThanOutput(v: Levels, level: nat, in0: seq<File>, in1: seq<File>, l: nat, f: File, g: File)
    requires LevelsNewer(v) && l <= level && level + 1 < |v| && f in v[l] && (l == level ==> f !in in0)
    requires IsSubset(in0, v[level]) && IsSubset(in1, v[level + 1]) && LeftNewer(v[level], in0)
    requires forall e | e in g.entries :: e in FileEntries(in0 + in1)
    ensures NewerThan(f.entries, g.entries)
  {
    forall x, y | x in f.entries && y in g.entries && x.k.user == y.k.user
      ensures x.k.sn > y.k.sn
    {
      var h :| h in in0 + in1 && y in h.entries;
      assert NewerThan(f.entries, h.entries) by {
        if h in in1 {
          assert h in v[level + 1];
        } else {
          assert h in v[level];
        }
      }
    }
  }

  lemma OutputNewerThan(v: Levels, level: nat, in0: seq<File>, in1: seq<File>, f: File, m: nat, g: File)
    requires LevelsNewer(v) && level + 1 < m < |v| && g in v[m]
    requires IsSubset(in0, v[level]) && IsSubset(in1, v[level + 1])
    requires forall e | e in f.entries :: e in FileEntries(in0 + in1)
    ensures NewerThan(f.entries, g.entries)
  {
    forall x, y | x in f.entries && y in g.entries && x.k.user == y.k.user
      ensures x.k.sn > y.k.sn
    {
      var h :| h in in0 + in1 && x in h.entries;
      assert NewerThan(h.entries, g.entries) by {
        if h in in1 {
          assert h in v[level + 1];
        } else {
          assert h in v[level];
        }
      }
    }
  }
}

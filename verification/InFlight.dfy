/** A compaction while it runs: the mutex is released, and memtable flushes install versions meanwhile. */
module InFlight {
  import opened InternalKeys
  import opened Mvcc
  import opened Version
  import opened Inputs
  import opened Boundary
  import opened Picking
  import opened DropRules
  import opened CompactionLoop
  import opened Install

  /** A running compaction: its inputs, the version it pinned, and the oldest snapshot it must serve. */
  datatype Pending = Pending(level: nat, in0: seq<File>, in1: seq<File>, base: Levels, smallest: nat) {
    function Ins(): seq<File> {
      in0 + in1
    }
  }

  /** How the inputs stand in the current version `v`. */
  ghost predicate PendingOk(v: Levels, p: Pending) {
    && p.level + 1 < |v| && |p.base| == |v|
    && p.in0 != []
    && IsSubset(p.in0, v[p.level]) && IsSubset(p.in1, v[p.level + 1])
    && Unbroken(p.Ins())
    && LeftNewer(v[p.level], p.in0)
    && ParentsApart(v, p)
    && DeeperApart(v, p)
  }

  /** Unselected parents keep clear of the inputs. */
  ghost predicate ParentsApart(v: Levels, p: Pending)
    requires p.level + 1 < |v|
  {
    forall f | f in v[p.level + 1] && f !in p.in1 :: ParentApart(f, p)
  }

  /** Deeper files that arrived since the compaction started stay clear of its inputs. */
  ghost predicate DeeperApart(v: Levels, p: Pending)
    requires |p.base| == |v|
  {
    forall l, f | p.level + 2 <= l < |v| && f in v[l] :: f in p.base[l] || !OverlapsHull(f, p.Ins())
  }

  ghost predicate ParentApart(f: File, p: Pending) {
    KeepsApart(f, p.Ins()) && !OverlapsHull(f, p.in0)
  }

  /** No user key continues from the inputs into an unselected file of the next level. */
  ghost predicate ParentsClosed(v: Levels, p: Pending)
    requires p.level + 1 < |v|
  {
    LeftNewer(v[p.level + 1], p.in1)
  }

  /** An unselected parent lies on one side of every input. */
  lemma UnselectedParentApart(files: seq<File>, parents: seq<File>, in0: seq<File>, in1: seq<File>, f: File)
    requires GoodFiles(files) && GoodFiles(parents) && Disjoint(parents)
    requires GoodInputs(files, parents, in0, in1)
    requires f in parents && f !in in1
    ensures KeepsApart(f, in0 + in1) && !OverlapsHull(f, in0)
  {
    FileBounds(f, f.entries[0]);
    var a := in0[0];
    assert a in in0 && GoodFile(a);
    if f.largest.user < a.smallest.user {
      forall g | g in in0 + in1
        ensures Before(f.largest, g.smallest)
      {
        if g in in0 {
          BeforeOneBeforeAll(in0, f, a, g);
        } else {
          ParentBefore(parents, in0, in1, f, a, g);
        }
      }
    } else {
      forall g | g in in0 + in1
        ensures Before(g.largest, f.smallest)
      {
        if g in in0 {
          AfterOneAfterAll(in0, f, a, g);
        } else {
          ParentAfter(parents, in0, in1, f, a, g);
        }
      }
    }
  }

  lemma BeforeOneBeforeAll(in0: seq<File>, f: File, a: File, g: File)
    requires !OverlapsHull(f, in0) && a in in0 && g in in0 && GoodFile(a) && GoodFile(f)
    requires f.largest.user < a.smallest.user
    ensures f.largest.user < g.smallest.user
  {
    FileBounds(f, f.entries[0]);
    FileBounds(a, a.entries[0]);
    assert f.smallest.user <= a.largest.user;
  }

  lemma AfterOneAfterAll(in0: seq<File>, f: File, a: File, g: File)
    requires !OverlapsHull(f, in0) && a in in0 && g in in0 && GoodFile(a) && GoodFile(f)
    requires f.largest.user >= a.smallest.user
    ensures g.largest.user < f.smallest.user
  {
  }

  lemma ParentBefore(parents: seq<File>, in0: seq<File>, in1: seq<File>, f: File, a: File, g: File)
    requires GoodFiles(parents) && Disjoint(parents) && IsSubset(in1, parents)
    requires forall h | h in parents :: h in in1 <==> OverlapsHull(h, in0)
    requires f in parents && f !in in1 && g in in1 && a in in0 && GoodFile(a)
    requires f.largest.user < a.smallest.user
    ensures Before(f.largest, g.smallest)
  {
    DisjointPair(parents, f, g);
    FileBounds(f, f.entries[0]);
    FileBounds(g, g.entries[0]);
    var x, y :| x in in0 && y in in0 && x.smallest.user <= g.largest.user && g.smallest.user <= y.largest.user;
    BeforeOneBeforeAll(in0, f, a, x);
  }

  lemma ParentAfter(parents: seq<File>, in0: seq<File>, in1: seq<File>, f: File, a: File, g: File)
    requires GoodFiles(parents) && Disjoint(parents) && IsSubset(in1, parents)
    requires forall h | h in parents :: h in in1 <==> OverlapsHull(h, in0)
    requires f in parents && f !in in1 && g in in1 && a in in0 && GoodFile(a)
    requires f.largest.user >= a.smallest.user
    ensures Before(g.largest, f.smallest)
  {
    DisjointPair(parents, f, g);
    FileBounds(f, f.entries[0]);
    FileBounds(g, g.entries[0]);
    var x, y :| x in in0 && y in in0 && x.smallest.user <= g.largest.user && g.smallest.user <= y.largest.user;
    AfterOneAfterAll(in0, f, a, y);
  }

  /** Freshly picked inputs stand in the version they were picked from as a compaction needs. */
  lemma PickedIsPending(v: Levels, p: Pending)
    requires GoodVersion(v) && p.base == v && p.level + 1 < |v|
    requires GoodInputs(v[p.level], v[p.level + 1], p.in0, p.in1)
    ensures PendingOk(v, p)
  {
    forall f | f in v[p.level + 1] && f !in p.in1
      ensures ParentApart(f, p)
    {
      UnselectedParentApart(v[p.level], v[p.level + 1], p.in0, p.in1, f);
    }
  }

  /** With no boundary file left at the next level, no user key of the parents is split. */
  lemma NoBoundaryClosesParents(v: Levels, p: Pending)
    requires GoodVersion(v) && p.base == v && p.level + 1 < |v|
    requires UniqueSeqs(FileEntries(v[p.level + 1]))
    requires GoodInputs(v[p.level], v[p.level + 1], p.in0, p.in1)
    requires NoBoundary(v[p.level + 1], p.in1)
    ensures ParentsClosed(v, p)
  {
    var parents := v[p.level + 1];
    if p.in1 != [] {
      forall f, g, h | f in parents && g in p.in1 && h in p.in1 && Before(g.largest, f.smallest) && Before(f.largest, h.smallest)
        ensures f in p.in1
      {
        BetweenParents(parents, p.in0, f, g, h);
      }
      ClosedGivesLeftNewer(p.level + 1, parents, p.in1);
    }
  }

  lemma BetweenParents(parents: seq<File>, in0: seq<File>, f: File, g: File, h: File)
    requires GoodFiles(parents) && f in parents && g in parents && h in parents
    requires OverlapsHull(g, in0) && OverlapsHull(h, in0)
    requires Before(g.largest, f.smallest) && Before(f.largest, h.smallest)
    ensures OverlapsHull(f, in0)
  {
    FileBounds(f, f.entries[0]);
    var a, b :| a in in0 && b in in0 && a.smallest.user <= g.largest.user && g.smallest.user <= b.largest.user;
    var c, d :| c in in0 && d in in0 && c.smallest.user <= h.largest.user && h.smallest.user <= d.largest.user;
    assert a.smallest.user <= f.largest.user && f.smallest.user <= d.largest.user;
  }

  lemma NotInsideHull(ins: seq<File>, n: File, a: File, b: File)
    requires Unbroken(ins) && a in ins && b in ins && n.smallest.user <= n.largest.user
    requires forall g | g in ins :: UserApart(g, n)
    requires a.smallest.user <= a.largest.user && a.smallest.user <= n.largest.user
    ensures b.largest.user < n.smallest.user
  {
    assert UserApart(a, n) && UserApart(b, n);
    if a.smallest.user <= n.smallest.user <= b.largest.user {
      hide UserApart;
      var h := CoveringFile(ins, n.smallest.user, a, b);
      ApartDoesNotCover(h, n);
    }
  }

  lemma CoveringFile(ins: seq<File>, u: UserKey, a: File, b: File) returns (h: File)
    requires Unbroken(ins) && a in ins && b in ins && a.smallest.user <= u <= b.largest.user
    ensures h in ins && h.smallest.user <= u <= h.largest.user
  {
    assert InHull(ins, u);
    h :| h in ins && h.smallest.user <= u <= h.largest.user;
  }

  lemma ApartDoesNotCover(h: File, n: File)
    requires UserApart(h, n) && n.smallest.user <= n.largest.user
    ensures !(h.smallest.user <= n.smallest.user <= h.largest.user)
  {
  }

  /** A table that overlaps no file of the inputs lies outside their unbroken hull. */
  lemma OutsideHull(ins: seq<File>, n: File)
    requires Unbroken(ins) && GoodFiles(ins) && GoodFile(n)
    requires forall g | g in ins :: UserApart(g, n)
    ensures !OverlapsHull(n, ins)
    ensures KeepsApart(n, ins)
  {
    FileBounds(n, n.entries[0]);
    forall a, b | a in ins && b in ins && a.smallest.user <= n.largest.user
      ensures b.largest.user < n.smallest.user
    {
      FileBounds(a, a.entries[0]);
      NotInsideHull(ins, n, a, b);
    }
  }

  /** A flush in the middle of a compaction, wherever its table goes, leaves the inputs in order. */
  lemma FlushKeepsPending(v: Levels, w: Levels, q: nat, n: File, p: Pending)
    requires GoodVersion(v) && Flushed(v, w, q, n) && FlushOk(v, q, n) && PendingOk(v, p)
    ensures PendingOk(w, p)
    ensures ParentsClosed(v, p) ==> ParentsClosed(w, p)
  {
    hide LeftNewer, Unbroken, GoodVersion, FlushOk, DeeperApart, ParentApart;
    FlushKeepsLeftNewer(v, w, q, n, p.level, p.in0);
    if ParentsClosed(v, p) {
      FlushKeepsLeftNewer(v, w, q, n, p.level + 1, p.in1);
    }
    if q > p.level {
      FlushBelowOutsideHull(v, q, n, p);
    }
    FlushKeepsParentsApart(v, w, q, n, p);
    FlushKeepsDeeperApart(v, w, q, n, p);
  }

  lemma FlushKeepsLeftNewer(v: Levels, w: Levels, q: nat, n: File, l: nat, ins: seq<File>)
    requires Flushed(v, w, q, n) && FlushOk(v, q, n) && l < |v|
    requires IsSubset(ins, v[l]) && LeftNewer(v[l], ins)
    ensures IsSubset(ins, w[l]) && LeftNewer(w[l], ins)
  {
    forall f, g | f in w[l] && f !in ins && g in ins
      ensures NewerThan(f.entries, g.entries)
    {
      assert g in v[l];
      if f !in v[l] {
        assert AllNewer(n, g);
      }
    }
  }

  lemma FlushKeepsParentsApart(v: Levels, w: Levels, q: nat, n: File, p: Pending)
    requires Flushed(v, w, q, n) && p.level + 1 < |v| && ParentsApart(v, p)
    requires q > p.level ==> ParentApart(n, p)
    ensures ParentsApart(w, p)
  {
    forall f | f in w[p.level + 1] && f !in p.in1
      ensures ParentApart(f, p)
    {
      assert f !in v[p.level + 1] ==> f == n && q == p.level + 1;
    }
  }

  lemma FlushKeepsDeeperApart(v: Levels, w: Levels, q: nat, n: File, p: Pending)
    requires Flushed(v, w, q, n) && |p.base| == |v| && DeeperApart(v, p)
    requires q > p.level ==> !OverlapsHull(n, p.Ins())
    ensures DeeperApart(w, p)
  {
    forall l, f | p.level + 2 <= l < |w| && f in w[l]
      ensures f in p.base[l] || !OverlapsHull(f, p.Ins())
    {
      assert f !in v[l] ==> f == n && q == l;
    }
  }

  lemma FlushBelowOutsideHull(v: Levels, q: nat, n: File, p: Pending)
    requires GoodVersion(v) && FlushOk(v, q, n) && PendingOk(v, p) && q > p.level
    ensures !OverlapsHull(n, p.Ins()) && ParentApart(n, p)
  {
    assert GoodFiles(p.Ins());
    forall g | g in p.in0
      ensures UserApart(g, n)
    {
      assert g in v[p.level];
    }
    forall g | g in p.in1
      ensures UserApart(g, n)
    {
      assert g in v[p.level + 1];
    }
    OutsideHull(p.Ins(), n);
    assert forall a | a in p.in0 :: a in p.Ins();
  }
}

/** What readers see before and after a compaction is installed. */
module CompactionReads {
  import opened InternalKeys
  import opened Mvcc
  import opened Version
  import opened Inputs
  import opened Boundary
  import opened Picking
  import opened DropRules
  import opened CompactionLoop
  import opened Install
  import opened Lookup
  import opened InFlight

  /** What a reader relies on: good version, recency of the memtables, one entry per sequence. */
  ghost predicate Readable(mem: seq<Entry>, imm: seq<Entry>, v: Levels) {
    && GoodVersion(v)
    && Sorted(mem) && Sorted(imm)
    && MemtablesNewer(mem, imm, v)
    && UniqueSeqs(AllEntries(mem, imm, v))
  }

  ghost function InsEntries(p: Pending): set<Entry> {
    FileEntries(p.Ins())
  }

  /** No entry is in two files of a version. */
  lemma EntryInOneFile(v: Levels, e: Entry, l: nat, f: File, m: nat, g: File)
    requires GoodVersion(v) && l < |v| && m < |v|
    requires f in v[l] && g in v[m] && e in f.entries && e in g.entries
    ensures l == m && f == g
  {
    hide GoodVersion, NewerThan;
    if l == m {
      SameLevelOnce(v, l, e, f, g);
    } else if l < m {
      LevelNewer(v, l, f, m, g);
      NewerSharesNothing(f, g, e);
    } else {
      LevelNewer(v, m, g, l, f);
      NewerSharesNothing(g, f, e);
    }
  }

  lemma NewerSharesNothing(f: File, g: File, e: Entry)
    requires e in f.entries && e in g.entries
    ensures !NewerThan(f.entries, g.entries)
  {
  }

  lemma LevelNewer(v: Levels, l: nat, f: File, m: nat, g: File)
    requires GoodVersion(v) && l < m < |v| && f in v[l] && g in v[m]
    ensures NewerThan(f.entries, g.entries)
  {
  }

  lemma SameLevelOnce(v: Levels, l: nat, e: Entry, f: File, g: File)
    requires GoodVersion(v) && l < |v| && f in v[l] && g in v[l]
    requires e in f.entries && e in g.entries
    ensures f == g
  {
    hide NewerThan;
    if f == g {
    } else if l > 0 {
      FileBounds(f, e);
      FileBounds(g, e);
      DisjointPair(v[l], f, g);
    } else if f.number > g.number {
      NewerSharesNothing(f, g, e);
    } else {
      DistinctNumbers(v[0], f, g);
      NewerSharesNothing(g, f, e);
    }
  }

  lemma DistinctNumbers(fs: seq<File>, f: File, g: File)
    requires NewestByNumber(fs) && f in fs && g in fs && f != g
    ensures f.number != g.number
  {
    hide NewerThan;
  }

  /** An entry of a file that is no input is not among the input entries. */
  lemma OtherFileOtherEntry(v: Levels, p: Pending, l: nat, f: File, e: Entry)
    requires GoodVersion(v) && PendingOk(v, p) && l < |v| && f in v[l] && e in f.entries
    requires l == p.level ==> f !in p.in0
    requires l == p.level + 1 ==> f !in p.in1
    ensures e !in InsEntries(p)
  {
    hide GoodVersion, LeftNewer, Unbroken, ParentsApart, DeeperApart, IsSubset;
    if e in InsEntries(p) {
      var g := InputFile(p, e);
      InputLevel(v, p, g);
      if g in p.in0 {
        EntryInOneFile(v, e, l, f, p.level, g);
      } else {
        EntryInOneFile(v, e, l, f, p.level + 1, g);
      }
    }
  }

  lemma InputLevel(v: Levels, p: Pending, g: File)
    requires PendingOk(v, p) && g in p.Ins()
    ensures if g in p.in0 then g in v[p.level] else g in p.in1 && g in v[p.level + 1]
  {
    hide LeftNewer, Unbroken, ParentsApart, DeeperApart;
  }

  lemma InsEntriesInVersion(v: Levels, p: Pending)
    requires PendingOk(v, p)
    ensures InsEntries(p) <= VersionEntries(v)
  {
    forall e | e in InsEntries(p)
      ensures e in VersionEntries(v)
    {
      var g :| g in p.Ins() && e in g.entries;
      if g in p.in0 {
        assert e in FileEntries(v[p.level]);
      } else {
        assert e in FileEntries(v[p.level + 1]);
      }
    }
  }

  lemma VersionEntryFile(v: Levels, e: Entry) returns (l: nat, f: File)
    requires e in VersionEntries(v)
    ensures l < |v| && f in v[l] && e in f.entries
  {
    l :| 0 <= l < |v| && e in FileEntries(v[l]);
    f :| f in v[l] && e in f.entries;
  }

  lemma FileEntryInVersion(v: Levels, l: nat, f: File, e: Entry)
    requires l < |v| && f in v[l] && e in f.entries
    ensures e in VersionEntries(v)
  {
    assert e in FileEntries(v[l]);
  }

  /** After the install the version holds the other entries and the outputs. */
  lemma InstalledEntries(v: Levels, w: Levels, p: Pending, outs: seq<File>)
    requires GoodVersion(v) && PendingOk(v, p)
    requires Replaced(v, w, p.level, p.in0, p.in1, outs)
    ensures VersionEntries(w) == (VersionEntries(v) - InsEntries(p)) + FileEntries(outs)
  {
    hide GoodVersion, LeftNewer, Unbroken, ParentsApart, DeeperApart, IsSubset, InsEntries, VersionEntries;
    forall e | e in VersionEntries(w)
      ensures e in (VersionEntries(v) - InsEntries(p)) + FileEntries(outs)
    {
      var l, f := VersionEntryFile(w, e);
      if e !in FileEntries(outs) {
        assert f !in outs;
        assert f in v[l];
        OtherFileOtherEntry(v, p, l, f, e);
        FileEntryInVersion(v, l, f, e);
      }
    }
    forall e | e in VersionEntries(v) - InsEntries(p)
      ensures e in VersionEntries(w)
    {
      UntouchedEntryStays(v, w, p, outs, e);
    }
    forall e | e in FileEntries(outs)
      ensures e in VersionEntries(w)
    {
      var f :| f in outs && e in f.entries;
      FileEntryInVersion(w, p.level + 1, f, e);
    }
  }

  lemma UntouchedEntryStays(v: Levels, w: Levels, p: Pending, outs: seq<File>, e: Entry)
    requires Replaced(v, w, p.level, p.in0, p.in1, outs)
    requires e in VersionEntries(v) - InsEntries(p)
    ensures e in VersionEntries(w)
  {
    var l, f := VersionEntryFile(v, e);
    assert f !in p.Ins();
    assert f in w[l];
    FileEntryInVersion(w, l, f, e);
  }

  lemma MemtablesApart(mem: seq<Entry>, imm: seq<Entry>, v: Levels)
    requires MemtablesNewer(mem, imm, v)
    ensures Elements(mem) !! VersionEntries(v) && Elements(imm) !! VersionEntries(v)
  {
    hide VersionEntries;
  }

  lemma InstalledAll(mem: seq<Entry>, imm: seq<Entry>, v: Levels, w: Levels, p: Pending, outs: seq<File>, base: iset<UserKey>)
    requires Readable(mem, imm, v) && PendingOk(v, p)
    requires Replaced(v, w, p.level, p.in0, p.in1, outs)
    requires FileEntries(outs) == Kept(InsEntries(p), p.smallest, base)
    ensures AllEntries(mem, imm, w) == After(AllEntries(mem, imm, v), InsEntries(p), p.smallest, base)
    ensures InsEntries(p) <= AllEntries(mem, imm, v)
  {
    hide PendingOk, InsEntries, VersionEntries, GoodVersion, Kept, Replaced, Elements, MemtablesNewer;
    InstalledEntries(v, w, p, outs);
    InsEntriesInVersion(v, p);
    MemtablesApart(mem, imm, v);
  }

  /** A parent left behind shares no user key with the inputs of the upper level. */
  lemma LeftParentAvoidsUpper(p: Pending, f: File, g: File, x: Entry, t: Entry)
    requires GoodFile(f) && GoodFile(g) && !OverlapsHull(f, p.in0)
    requires g in p.in0 && x in f.entries && t in g.entries
    ensures x.k.user != t.k.user
  {
    FileBounds(f, x);
    FileBounds(g, t);
  }

  /** Keys of the inputs that the pinned version calls base keys are base keys still. */
  lemma BaseKeyHasNoDeeperEntry(v: Levels, p: Pending, t: Entry, g: File, l: nat, f: File, x: Entry)
    requires |p.base| == |v| && DeeperApart(v, p)
    requires g in p.Ins() && t in g.entries && GoodFile(g)
    requires t.k.user in BaseKeys(p.base, p.level)
    requires p.level + 2 <= l < |v| && f in v[l] && x in f.entries && GoodFile(f)
    ensures x.k.user != t.k.user
  {
    hide BaseKeys, DeeperApart;
    FileBounds(f, x);
    FileBounds(g, t);
    if x.k.user == t.k.user {
      assert OverlapsHull(f, p.Ins());
      OverlappingIsOld(v, p, l, f);
      BaseKeyIsOutside(p.base, p.level, t.k.user, l, f);
    }
  }

  lemma OverlappingIsOld(v: Levels, p: Pending, l: nat, f: File)
    requires |p.base| == |v| && DeeperApart(v, p) && p.level + 2 <= l < |v| && f in v[l] && OverlapsHull(f, p.Ins())
    ensures f in p.base[l]
  {
    hide OverlapsHull;
  }

  lemma BaseKeyIsOutside(base: Levels, level: nat, u: UserKey, l: nat, f: File)
    requires u in BaseKeys(base, level) && level + 2 <= l < |base| && f in base[l]
    ensures !(f.smallest.user <= u <= f.largest.user)
  {
  }

  lemma OlderIsInVersion(mem: seq<Entry>, imm: seq<Entry>, v: Levels, t: Entry, x: Entry)
    requires MemtablesNewer(mem, imm, v)
    requires t in VersionEntries(v) && x in AllEntries(mem, imm, v) && x.k.sn < t.k.sn
    ensures x in VersionEntries(v)
  {
  }

  lemma LeftIsNewer(files: seq<File>, ins: seq<File>, f: File, g: File)
    requires LeftNewer(files, ins) && f in files && f !in ins && g in ins
    ensures NewerThan(f.entries, g.entries)
  {
  }

  lemma OlderFileIsParent(v: Levels, p: Pending, g: File, t: Entry, l: nat, f: File, x: Entry)
    requires GoodVersion(v) && PendingOk(v, p)
    requires g in p.Ins() && t in g.entries && t.k.user in BaseKeys(p.base, p.level)
    requires l < |v| && f in v[l] && f !in p.Ins() && x in f.entries
    requires x.k.user == t.k.user && x.k.sn < t.k.sn
    ensures l == p.level + 1 && g in p.in1
  {
    hide GoodVersion, GoodFile, LeftNewer, Unbroken, IsSubset;
    GoodFileOf(v, l, f);
    InputLevel(v, p, g);
    if g in p.in0 {
      GoodFileOf(v, p.level, g);
    } else {
      GoodFileOf(v, p.level + 1, g);
    }
    if g in p.in0 {
      if l == p.level + 1 {
        assert ParentApart(f, p);
        LeftParentAvoidsUpper(p, f, g, x, t);
      } else if l > p.level + 1 {
        BaseKeyHasNoDeeperEntry(v, p, t, g, l, f, x);
      } else if l == p.level {
        LeftIsNewer(v[l], p.in0, f, g);
      } else {
        LevelNewer(v, l, f, p.level, g);
      }
    } else if l > p.level + 1 {
      BaseKeyHasNoDeeperEntry(v, p, t, g, l, f, x);
    } else if l < p.level + 1 {
      LevelNewer(v, l, f, p.level + 1, g);
    }
  }

  /** An older entry of a droppable deletion's key, outside the inputs, can only be in an unselected parent
      that follows the parent with the deletion. */
  lemma OlderOutsideIsInParent(mem: seq<Entry>, imm: seq<Entry>, v: Levels, p: Pending, t: Entry, x: Entry)
    returns (f: File, g: File)
    requires Readable(mem, imm, v) && PendingOk(v, p)
    requires t in InsEntries(p) && t.k.user in BaseKeys(p.base, p.level)
    requires x in AllEntries(mem, imm, v) - InsEntries(p) && x.k.user == t.k.user && x.k.sn < t.k.sn
    ensures f in v[p.level + 1] && f !in p.in1 && x in f.entries
    ensures g in p.in1 && t in g.entries
  {
    InsEntriesInVersion(v, p);
    OlderIsInVersion(mem, imm, v, t, x);
    var l, f' := VersionEntryFile(v, x);
    f := f';
    g :| g in p.Ins() && t in g.entries;
    assert f !in p.Ins();
    OlderFileIsParent(v, p, g, t, l, f, x);
  }

  lemma ClosedParentsAreNewer(v: Levels, p: Pending, f: File, g: File, t: Entry, x: Entry)
    requires p.level + 1 < |v| && ParentsClosed(v, p)
    requires f in v[p.level + 1] && f !in p.in1 && x in f.entries
    requires g in p.in1 && t in g.entries && t.k.user == x.k.user
    ensures x.k.sn > t.k.sn
  {
    assert NewerThan(f.entries, g.entries);
  }

  /** With the parents closed, no dropped deletion uncovers an older value. */
  lemma NothingRevived(mem: seq<Entry>, imm: seq<Entry>, v: Levels, p: Pending, floor: nat, t: Entry, x: Entry)
    requires Readable(mem, imm, v) && PendingOk(v, p) && ParentsClosed(v, p)
    ensures !Revives(AllEntries(mem, imm, v), InsEntries(p), p.smallest, BaseKeys(p.base, p.level), floor, t, x)
  {
    hide PendingOk, Readable, AllEntries, InsEntries, BaseKeys, ParentsClosed;
    var all, ins, base := AllEntries(mem, imm, v), InsEntries(p), BaseKeys(p.base, p.level);
    if Revives(all, ins, p.smallest, base, floor, t, x) {
      RevivedIsOlder(mem, imm, v, p, floor, t, x);
      var f, g := OlderOutsideIsInParent(mem, imm, v, p, t, x);
      ParentLevelExists(v, p);
      ClosedParentsAreNewer(v, p, f, g, t, x);
    }
  }

  lemma ParentLevelExists(v: Levels, p: Pending)
    requires PendingOk(v, p)
    ensures p.level + 1 < |v| && |p.base| == |v|
  {
  }

  /** A revived entry is an older one from outside the inputs. */
  lemma RevivedIsOlder(mem: seq<Entry>, imm: seq<Entry>, v: Levels, p: Pending, floor: nat, t: Entry, x: Entry)
    requires Readable(mem, imm, v) && PendingOk(v, p)
    requires Revives(AllEntries(mem, imm, v), InsEntries(p), p.smallest, BaseKeys(p.base, p.level), floor, t, x)
    ensures t in InsEntries(p) && t.k.user in BaseKeys(p.base, p.level)
    ensures x in AllEntries(mem, imm, v) - InsEntries(p) && x.k.user == t.k.user && x.k.sn < t.k.sn
  {
    hide PendingOk, InsEntries, BaseKeys, AllEntries, GoodVersion, MemtablesNewer;
    var all, ins := AllEntries(mem, imm, v), InsEntries(p);
    assert Candidate(all - ins, t.k.user, t.k.sn, x);
    InputsAmongAll(mem, imm, v, p);
    DistinctSequences(all, ins, t, x);
  }

  lemma InputsAmongAll(mem: seq<Entry>, imm: seq<Entry>, v: Levels, p: Pending)
    requires PendingOk(v, p)
    ensures InsEntries(p) <= AllEntries(mem, imm, v)
  {
    hide PendingOk, InsEntries;
    InsEntriesInVersion(v, p);
  }

  /** The situation the code does not rule out.  `f` is the first unselected file at the next level to
      continue the last user key of the selected ones, and starts with a value; what snapshot `floor` sees of
      that key is a deletion among the inputs that no deeper level needs. */
  ghost predicate Hazard(all: set<Entry>, v: Levels, p: Pending, floor: nat, g: File, f: File, t: Entry)
    requires p.level + 1 < |v|
  {
    && IsLargest(p.in1, g)
    && f in v[p.level + 1] && IsBoundary(f, g.largest)
    && (forall h | h in v[p.level + 1] && IsBoundary(h, g.largest) :: AtOrBefore(f.smallest, h.smallest))
    && f.entries != [] && f.entries[0].k.kind.Put?
    && t in InsEntries(p) && Obsolete(t, p.smallest, g.largest.user in BaseKeys(p.base, p.level))
    && IsNewest(all, g.largest.user, floor, t)
  }

  /** A boundary file was not selected, and its entries of the shared user key are older. */
  lemma BoundaryIsOlder(mem: seq<Entry>, imm: seq<Entry>, v: Levels, p: Pending, g: File, f: File, t: Entry, x: Entry)
    requires Readable(mem, imm, v) && PendingOk(v, p)
    requires IsLargest(p.in1, g) && f in v[p.level + 1] && IsBoundary(f, g.largest)
    requires t in InsEntries(p) && x in f.entries && t.k.user == x.k.user
    ensures f !in p.in1 && x.k.sn < t.k.sn
    ensures x in AllEntries(mem, imm, v) - InsEntries(p)
  {
    hide InsEntries, GoodVersion, GoodFile, MemtablesNewer, Sorted, LeftNewer, Unbroken, ParentsApart, DeeperApart, IsSubset;
    GoodFileOf(v, p.level + 1, f);
    BoundaryUnselected(p.in1, g, f);
    FileEntryInVersion(v, p.level + 1, f, x);
    OtherFileOtherEntry(v, p, p.level + 1, f, x);
    InputsAmongAll(mem, imm, v, p);
    DistinctSequences(AllEntries(mem, imm, v), InsEntries(p), t, x);
    var h := InputFile(p, t);
    BoundaryIsOlderThanInput(v, p, g, f, h, t, x);
  }

  lemma GoodFileOf(v: Levels, l: nat, f: File)
    requires GoodVersion(v) && l < |v| && f in v[l]
    ensures GoodFile(f)
  {
  }

  lemma InputFile(p: Pending, t: Entry) returns (h: File)
    requires t in InsEntries(p)
    ensures h in p.Ins() && t in h.entries
  {
    h :| h in p.Ins() && t in h.entries;
  }

  lemma BoundaryUnselected(in1: seq<File>, g: File, f: File)
    requires GoodFile(f) && IsLargest(in1, g) && IsBoundary(f, g.largest)
    ensures f !in in1
  {
    FileBounds(f, f.entries[0]);
  }

  lemma DistinctSequences(all: set<Entry>, ins: set<Entry>, t: Entry, x: Entry)
    requires UniqueSeqs(all) && ins <= all && t in ins && x in all - ins
    ensures t.k.sn != x.k.sn
  {
  }

  lemma BoundaryIsOlderThanInput(v: Levels, p: Pending, g: File, f: File, h: File, t: Entry, x: Entry)
    requires GoodVersion(v) && PendingOk(v, p)
    requires IsLargest(p.in1, g) && f in v[p.level + 1] && IsBoundary(f, g.largest)
    requires h in p.Ins() && t in h.entries && x in f.entries && t.k.user == x.k.user && t.k.sn != x.k.sn
    ensures x.k.sn < t.k.sn
  {
    if h in p.in0 {
      assert h in v[p.level];
      assert NewerThan(h.entries, f.entries);
    } else {
      assert h in v[p.level + 1];
      assert AtOrBefore(h.largest, g.largest);
      EarlierIsNewer(h, f, t, x);
    }
  }

  lemma EarlierIsNewer(h: File, f: File, t: Entry, x: Entry)
    requires GoodFile(h) && GoodFile(f) && Before(h.largest, f.smallest)
    requires t in h.entries && x in f.entries && t.k.user == x.k.user && t.k.sn != x.k.sn
    ensures x.k.sn < t.k.sn
  {
    FileBounds(h, t);
    FileBounds(f, x);
    TagOrder(t.k);
    TagOrder(x.k);
  }

  lemma HazardRevives(mem: seq<Entry>, imm: seq<Entry>, v: Levels, p: Pending, floor: nat, g: File, f: File, t: Entry)
    requires Readable(mem, imm, v) && PendingOk(v, p)
    requires Hazard(AllEntries(mem, imm, v), v, p, floor, g, f, t)
    ensures Revives(AllEntries(mem, imm, v), InsEntries(p), p.smallest, BaseKeys(p.base, p.level), floor, t, f.entries[0])
  {
    HazardEntryIsNewest(mem, imm, v, p, floor, g, f, t);
  }

  /** With the hazard, a key that was deleted for the snapshot reads its old value afterwards. */
  lemma HazardIsRead(mem: seq<Entry>, imm: seq<Entry>, v: Levels, p: Pending, floor: nat, g: File, f: File, t: Entry)
    requires Readable(mem, imm, v) && PendingOk(v, p) && p.smallest <= floor
    requires Hazard(AllEntries(mem, imm, v), v, p, floor, g, f, t)
    ensures Read(AllEntries(mem, imm, v), t.k.user, floor) == NotFound
    ensures Read(After(AllEntries(mem, imm, v), InsEntries(p), p.smallest, BaseKeys(p.base, p.level)), t.k.user, floor)
            == Found(f.entries[0].v)
  {
    HazardRevives(mem, imm, v, p, floor, g, f, t);
    InsEntriesInVersion(v, p);
    RevivedIsRead(AllEntries(mem, imm, v), InsEntries(p), p.smallest, BaseKeys(p.base, p.level), floor, t, f.entries[0]);
  }

  lemma HazardEntryIsNewest(mem: seq<Entry>, imm: seq<Entry>, v: Levels, p: Pending, floor: nat, g: File, f: File, t: Entry)
    requires Readable(mem, imm, v) && PendingOk(v, p)
    requires Hazard(AllEntries(mem, imm, v), v, p, floor, g, f, t)
    ensures IsNewest(AllEntries(mem, imm, v) - InsEntries(p), t.k.user, t.k.sn, f.entries[0])
  {
    var rest, x := AllEntries(mem, imm, v) - InsEntries(p), f.entries[0];
    assert GoodFile(f);
    BoundaryIsOlder(mem, imm, v, p, g, f, t, x);
    forall y | Candidate(rest, t.k.user, t.k.sn, y)
      ensures y.k.sn <= x.k.sn
    {
      FirstBoundaryIsNewest(mem, imm, v, p, floor, g, f, t, y);
    }
  }

  lemma FirstBoundaryIsNewest(mem: seq<Entry>, imm: seq<Entry>, v: Levels, p: Pending, floor: nat, g: File, f: File, t: Entry, y: Entry)
    requires Readable(mem, imm, v) && PendingOk(v, p)
    requires Hazard(AllEntries(mem, imm, v), v, p, floor, g, f, t)
    requires Candidate(AllEntries(mem, imm, v) - InsEntries(p), t.k.user, t.k.sn, y)
    ensures y.k.sn <= f.entries[0].k.sn
  {
    InsEntriesInVersion(v, p);
    assert y.k.sn != t.k.sn;
    var f', g' := OlderOutsideIsInParent(mem, imm, v, p, t, y);
    FollowsAll(v, p, g, f', g', t, y);
    assert AtOrBefore(f.smallest, f'.smallest);
    FileBounds(f', y);
    TagOrder(f.entries[0].k);
    TagOrder(y.k);
  }

  lemma OlderIsNotLeft(h: File, f: File, t: Entry, x: Entry)
    requires GoodFile(h) && GoodFile(f) && t in h.entries && x in f.entries
    requires t.k.user == x.k.user && x.k.sn < t.k.sn
    ensures !Before(f.largest, h.smallest)
  {
    TagOrder(t.k);
    TagOrder(x.k);
    FileBounds(h, t);
    FileBounds(f, x);
    assert Before(t.k, x.k);
  }

  /** An unselected parent with older entries of an input's key is a boundary file of the last input. */
  lemma FollowsAll(v: Levels, p: Pending, g: File, f: File, h: File, t: Entry, x: Entry)
    requires GoodVersion(v) && PendingOk(v, p)
    requires IsLargest(p.in1, g) && f in v[p.level + 1] && f !in p.in1 && h in p.in1
    requires t in h.entries && x in f.entries && t.k.user == x.k.user && x.k.sn < t.k.sn
    ensures IsBoundary(f, g.largest) && g.largest.user == t.k.user
  {
    assert h in v[p.level + 1] && g in v[p.level + 1];
    assert ParentApart(f, p);
    assert h in p.Ins() && g in p.Ins();
    FileBounds(h, t);
    FileBounds(f, x);
    FileBounds(g, g.entries[0]);
    FileBounds(h, h.entries[0]);
    FileBounds(f, f.entries[0]);
    OlderIsNotLeft(h, f, t, x);
    assert Before(g.largest, f.smallest);
    assert AtOrBefore(h.largest, g.largest);
  }

  lemma RevivesIsHazard(mem: seq<Entry>, imm: seq<Entry>, v: Levels, p: Pending, floor: nat, t: Entry, x: Entry) returns (g: File, f: File)
    requires Readable(mem, imm, v) && PendingOk(v, p)
    requires Revives(AllEntries(mem, imm, v), InsEntries(p), p.smallest, BaseKeys(p.base, p.level), floor, t, x)
    ensures Hazard(AllEntries(mem, imm, v), v, p, floor, g, f, t)
  {
    hide GoodVersion, GoodFile, MemtablesNewer, Sorted, LeftNewer, Unbroken, ParentsApart, DeeperApart, IsSubset, InsEntries, AllEntries, BaseKeys;
    var all, ins := AllEntries(mem, imm, v), InsEntries(p);
    RevivedIsOlder(mem, imm, v, p, floor, t, x);
    InputsAmongAll(mem, imm, v, p);
    var f0, h := OlderOutsideIsInParent(mem, imm, v, p, t, x);
    g := LargestExists(p.in1);
    FollowsAll(v, p, g, f0, h, t, x);
    f := SmallestBoundaryExists(v[p.level + 1], g.largest, f0);
    GoodFileOf(v, p.level + 1, f);
    GoodFileOf(v, p.level + 1, f0);
    var y := FirstEntry(f);
    BoundaryIsOlder(mem, imm, v, p, g, f, t, y);
    assert Candidate(all - ins, t.k.user, t.k.sn, y);
    FileBounds(f0, x);
    TagOrder(x.k);
    TagOrder(y.k);
    assert x.k.sn == y.k.sn;
    SameSequenceSame(all, x, y);
  }

  lemma FirstEntry(f: File) returns (e: Entry)
    requires GoodFile(f)
    ensures f.entries != [] && e == f.entries[0] && e.k == f.smallest
  {
    e := f.entries[0];
  }

  lemma SameSequenceSame(all: set<Entry>, x: Entry, y: Entry)
    requires UniqueSeqs(all) && x in all && y in all && x.k.sn == y.k.sn
    ensures x == y
  {
  }

  lemma {:induction false} SmallestBoundaryExists(fs: seq<File>, largest: InternalKey, f0: File) returns (f: File)
    requires f0 in fs && IsBoundary(f0, largest)
    ensures f in fs && IsBoundary(f, largest)
    ensures forall h | h in fs && IsBoundary(h, largest) :: AtOrBefore(f.smallest, h.smallest)
  {
    var last := fs[|fs| - 1];
    var init := fs[..|fs| - 1];
    assert fs == init + [last];
    if f1 :| f1 in init && IsBoundary(f1, largest) {
      f := SmallestBoundaryExists(init, largest, f1);
      if IsBoundary(last, largest) && Before(last.smallest, f.smallest) {
        f := last;
      }
    } else {
      f := last;
    }
  }

  /** Main result: installing the outputs, whatever flushes were installed while the compaction ran, preserves
      every read from snapshot `floor` on exactly if the hazard is absent. */
  lemma CompactionPreservesReadsIff(mem: seq<Entry>, imm: seq<Entry>, v: Levels, w: Levels, p: Pending, outs: seq<File>, floor: nat)
    requires Readable(mem, imm, v) && PendingOk(v, p) && p.smallest <= floor
    requires Replaced(v, w, p.level, p.in0, p.in1, outs)
    requires FileEntries(outs) == Kept(InsEntries(p), p.smallest, BaseKeys(p.base, p.level))
    ensures ReadEquivalent(AllEntries(mem, imm, v), AllEntries(mem, imm, w), floor)
            <==> !exists g, f, t :: Hazard(AllEntries(mem, imm, v), v, p, floor, g, f, t)
  {
    hide PendingOk, Readable, AllEntries, InsEntries, BaseKeys, Revives, ReadEquivalent, Replaced, Kept, After,
         IsLargest, IsBoundary, IsNewest;
    var all, ins, base := AllEntries(mem, imm, v), InsEntries(p), BaseKeys(p.base, p.level);
    InstalledAll(mem, imm, v, w, p, outs, base);
    UniqueAll(mem, imm, v);
    PreservesReadsIff(all, ins, p.smallest, base, floor);
    ParentLevelExists(v, p);
    if t, x :| Revives(all, ins, p.smallest, base, floor, t, x) {
      var g, f := RevivesIsHazard(mem, imm, v, p, floor, t, x);
    }
    if g, f, t :| Hazard(all, v, p, floor, g, f, t) {
      HazardRevives(mem, imm, v, p, floor, g, f, t);
      var x := f.entries[0];
      assert Revives(all, ins, p.smallest, base, floor, t, x);
    }
  }

  lemma UniqueAll(mem: seq<Entry>, imm: seq<Entry>, v: Levels)
    requires Readable(mem, imm, v)
    ensures UniqueSeqs(AllEntries(mem, imm, v))
  {
  }

  /** No hazard arises if no user key continues from the selected files into an unselected one. */
  lemma ClosedParentsAvoidHazard(mem: seq<Entry>, imm: seq<Entry>, v: Levels, p: Pending, floor: nat, g: File, f: File, t: Entry)
    requires Readable(mem, imm, v) && PendingOk(v, p) && ParentsClosed(v, p)
    ensures !Hazard(AllEntries(mem, imm, v), v, p, floor, g, f, t)
  {
    hide PendingOk, Readable, AllEntries, InsEntries, BaseKeys, Revives, IsLargest, IsBoundary, IsNewest;
    ParentLevelExists(v, p);
    if Hazard(AllEntries(mem, imm, v), v, p, floor, g, f, t) {
      HazardRevives(mem, imm, v, p, floor, g, f, t);
      NothingRevived(mem, imm, v, p, floor, t, f.entries[0]);
    }
  }
}

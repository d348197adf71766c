/** NewInternalIterator: the sorted runs a full iteration merges. */
module Sources {
  import opened InternalKeys
  import opened Mvcc
  import opened Version
  import opened Boundary
  import opened Lookup
  import opened CompactionReads
  import opened Merging
  import opened LiveMap

  /** The entries of a level above 0, file after file (the concatenating iterator). */
  function LevelRun(fs: seq<File>): seq<Entry> {
    if fs == [] then [] else LevelRun(fs[..|fs| - 1]) + fs[|fs| - 1].entries
  }

  /** One child per level-0 file. */
  function FileRuns(fs: seq<File>): (r: seq<seq<Entry>>)
    ensures |r| == |fs| && forall i | 0 <= i < |fs| :: r[i] == fs[i].entries
  {
    seq(|fs|, i requires 0 <= i < |fs| => fs[i].entries)
  }

  /** One child per level above 0. */
  function LevelRuns(v: Levels): (r: seq<seq<Entry>>)
    requires |v| == NUM_LEVELS
    ensures |r| == NUM_LEVELS - 1 && forall l | 0 <= l < |r| :: r[l] == LevelRun(v[l + 1])
  {
    seq(NUM_LEVELS - 1, l requires 0 <= l < NUM_LEVELS - 1 => LevelRun(v[l + 1]))
  }

  function Children(mem: seq<Entry>, imm: seq<Entry>, v: Levels): seq<seq<Entry>>
    requires |v| == NUM_LEVELS
  {
    [mem, imm] + FileRuns(v[0]) + LevelRuns(v)
  }

  lemma {:induction false} LevelRunMeaning(fs: seq<File>)
    ensures forall e :: e in LevelRun(fs) <==> e in FileEntries(fs)
  {
    if fs != [] {
      var init := fs[..|fs| - 1];
      LevelRunMeaning(init);
      forall e
        ensures e in LevelRun(fs) <==> e in FileEntries(fs)
      {
        if e in LevelRun(init) {
          var f :| f in init && e in f.entries;
          assert f in fs;
        }
      }
    }
  }

  lemma {:induction false} LevelRunSorted(fs: seq<File>)
    requires GoodFiles(fs) && Disjoint(fs)
    ensures Sorted(LevelRun(fs))
  {
    if fs != [] {
      var init, f := fs[..|fs| - 1], fs[|fs| - 1];
      LevelRunSorted(init);
      LevelRunMeaning(init);
      assert f in fs;
      forall x, y | x in LevelRun(init) && y in f.entries
        ensures Before(x.k, y.k)
      {
        var g :| g in init && x in g.entries;
        var i :| 0 <= i < |init| && init[i] == g;
        assert Before(fs[i].largest, f.smallest) && fs[i] in fs;
        FileBounds(g, x);
        FileBounds(f, y);
      }
      SortedAppend(LevelRun(init), f.entries);
    }
  }

  lemma SortedAppend(a: seq<Entry>, b: seq<Entry>)
    requires Sorted(a) && Sorted(b)
    requires forall x, y | x in a && y in b :: Before(x.k, y.k)
    ensures Sorted(a + b)
  {
    forall i, j | 0 <= i < j < |a + b|
      ensures Before((a + b)[i].k, (a + b)[j].k)
    {
      if i < |a| <= j {
        assert (a + b)[i] in a && (a + b)[j] in b;
      }
    }
  }

  /** Which source child `j` is: a memtable, or the files `fs` of level `l`. */
  ghost predicate FromFiles(v: Levels, child: seq<Entry>, l: nat, fs: seq<File>) {
    && l < |v| && (forall f | f in fs :: f in v[l])
    && forall e :: e in child <==> e in FileEntries(fs)
  }

  /** The level and the files of the version child number `c`. */
  function ChildLevel(v: Levels, c: nat): nat
    requires |v| == NUM_LEVELS
  {
    if c < |v[0]| then 0 else c - |v[0]| + 1
  }

  function ChildFiles(v: Levels, c: nat): seq<File>
    requires |v| == NUM_LEVELS && c < |v[0]| + NUM_LEVELS - 1
  {
    if c < |v[0]| then [v[0][c]] else v[c - |v[0]| + 1]
  }

  lemma VersionChild(mem: seq<Entry>, imm: seq<Entry>, v: Levels, c: nat)
    requires GoodVersion(v) && c < |v[0]| + NUM_LEVELS - 1
    ensures c + 2 < |Children(mem, imm, v)|
    ensures Sorted(Children(mem, imm, v)[c + 2])
    ensures FromFiles(v, Children(mem, imm, v)[c + 2], ChildLevel(v, c), ChildFiles(v, c))
  {
    var child := Children(mem, imm, v)[c + 2];
    if c < |v[0]| {
      assert child == v[0][c].entries;
      assert v[0][c] in v[0];
      assert v[0][c] in [v[0][c]];
    } else {
      var l := c - |v[0]| + 1;
      assert child == LevelRun(v[l]);
      LevelRunMeaning(v[l]);
      LevelRunSorted(v[l]);
    }
  }

  /** Different version children are made of different files. */
  lemma VersionChildrenDiffer(mem: seq<Entry>, imm: seq<Entry>, v: Levels, c: nat, d: nat, e: Entry)
    requires GoodVersion(v) && c < |v[0]| + NUM_LEVELS - 1 && d < |v[0]| + NUM_LEVELS - 1
    requires e in FileEntries(ChildFiles(v, c)) && e in FileEntries(ChildFiles(v, d))
    ensures c == d
  {
    hide SortedFiles, Disjoint, GoodFiles, LevelsNewer, NewestByNumber;
    var f :| f in ChildFiles(v, c) && e in f.entries;
    var g :| g in ChildFiles(v, d) && e in g.entries;
    assert f in v[ChildLevel(v, c)] && g in v[ChildLevel(v, d)];
    EntryInOneFile(v, e, ChildLevel(v, c), f, ChildLevel(v, d), g);
    if c != d {
      assert c < |v[0]| && d < |v[0]|;
      SameFileTwice(v[0], c, d);
    }
  }

  lemma SameFileTwice(fs: seq<File>, c: nat, d: nat)
    requires SortedFiles(fs) && c < |fs| && d < |fs| && c != d
    ensures fs[c] != fs[d]
  {
    assert c < d ==> BySmallest(fs[c], fs[d]);
    assert d < c ==> BySmallest(fs[d], fs[c]);
  }

  lemma MemtableChildren(mem: seq<Entry>, imm: seq<Entry>, v: Levels)
    requires |v| == NUM_LEVELS
    ensures |Children(mem, imm, v)| == |v[0]| + NUM_LEVELS + 1
    ensures Children(mem, imm, v)[0] == mem && Children(mem, imm, v)[1] == imm
  {
  }

  lemma FileHasChild(v: Levels, l: nat, f: File) returns (c: nat)
    requires |v| == NUM_LEVELS && l < |v| && f in v[l]
    ensures c < |v[0]| + NUM_LEVELS - 1 && f in ChildFiles(v, c)
  {
    if l == 0 {
      c :| 0 <= c < |v[0]| && v[0][c] == f;
    } else {
      c := |v[0]| + l - 1;
    }
  }

  lemma EntryHasChild(mem: seq<Entry>, imm: seq<Entry>, v: Levels, e: Entry) returns (j: nat)
    requires GoodVersion(v) && e in VersionEntries(v)
    ensures j < |Children(mem, imm, v)| && e in Children(mem, imm, v)[j]
  {
    hide Children, ChildFiles;
    var l, f := VersionEntryFile(v, e);
    var c := FileHasChild(v, l, f);
    VersionChild(mem, imm, v, c);
    j := c + 2;
    assert e in FileEntries(ChildFiles(v, c));
  }

  /** The children hold every entry a reader can reach, and no other. */
  lemma ChildrenHoldAll(mem: seq<Entry>, imm: seq<Entry>, v: Levels, e: Entry)
    requires GoodVersion(v)
    ensures e in AllEntries(mem, imm, v) <==> exists j :: 0 <= j < |Children(mem, imm, v)| && e in Children(mem, imm, v)[j]
  {
    hide Children;
    var cs := Children(mem, imm, v);
    MemtableChildren(mem, imm, v);
    if e in VersionEntries(v) {
      var j := EntryHasChild(mem, imm, v, e);
    }
    if j :| 0 <= j < |cs| && e in cs[j] {
      if j >= 2 {
        ChildInVersion(mem, imm, v, j - 2, e);
      }
    }
  }

  lemma ChildrenDistinct(mem: seq<Entry>, imm: seq<Entry>, v: Levels)
    requires Readable(mem, imm, v)
    ensures KeysDistinct(Children(mem, imm, v))
  {
    hide Children;
    var cs := Children(mem, imm, v);
    forall i, j, x: Entry, y: Entry | 0 <= i < |cs| && 0 <= j < |cs| && x in cs[i] && y in cs[j] && x.k == y.k
      ensures i == j
    {
      ChildrenHoldAll(mem, imm, v, x);
      ChildrenHoldAll(mem, imm, v, y);
      assert x == y;
      OneChild(mem, imm, v, i, j, x);
    }
  }

  lemma MemtablesApart(mem: seq<Entry>, imm: seq<Entry>, v: Levels, x: Entry)
    requires MemtablesNewer(mem, imm, v)
    ensures !(x in mem && x in imm) && !((x in mem || x in imm) && x in VersionEntries(v))
  {
  }

  lemma OneChild(mem: seq<Entry>, imm: seq<Entry>, v: Levels, i: nat, j: nat, x: Entry)
    requires GoodVersion(v) && MemtablesNewer(mem, imm, v)
    requires i < |Children(mem, imm, v)| && j < |Children(mem, imm, v)|
    requires x in Children(mem, imm, v)[i] && x in Children(mem, imm, v)[j]
    ensures i == j
  {
    hide SortedFiles, Disjoint, GoodFiles, LevelsNewer, NewestByNumber, MemtablesNewer;
    hide Children;
    MemtableChildren(mem, imm, v);
    MemtablesApart(mem, imm, v, x);
    if i >= 2 {
      ChildInVersion(mem, imm, v, i - 2, x);
    }
    if j >= 2 {
      ChildInVersion(mem, imm, v, j - 2, x);
    }
    if i >= 2 && j >= 2 {
      VersionChildrenDiffer(mem, imm, v, i - 2, j - 2, x);
    }
  }

  lemma ChildInVersion(mem: seq<Entry>, imm: seq<Entry>, v: Levels, c: nat, x: Entry)
    requires GoodVersion(v) && c < |v[0]| + NUM_LEVELS - 1 && x in Children(mem, imm, v)[c + 2]
    ensures x in VersionEntries(v) && x in FileEntries(ChildFiles(v, c))
  {
    VersionChild(mem, imm, v, c);
    var f :| f in ChildFiles(v, c) && x in f.entries;
    FileEntryInVersion(v, ChildLevel(v, c), f, x);
  }

  /** The sources merge, into everything a reader can reach. */
  lemma ChildrenMerge(mem: seq<Entry>, imm: seq<Entry>, v: Levels)
    requires Readable(mem, imm, v)
    ensures IsMerge(MergeAll(Children(mem, imm, v)), Children(mem, imm, v))
    ensures Elements(MergeAll(Children(mem, imm, v))) == AllEntries(mem, imm, v)
  {
    hide MergeAll, MemtablesNewer, SortedFiles, Disjoint, GoodFiles, LevelsNewer, NewestByNumber;
    hide Children;
    var cs := Children(mem, imm, v);
    MemtableChildren(mem, imm, v);
    forall j | 0 <= j < |cs|
      ensures Sorted(cs[j])
    {
      if j >= 2 {
        VersionChild(mem, imm, v, j - 2);
      }
    }
    ChildrenDistinct(mem, imm, v);
    MergeAllIsMerge(cs);
    forall e
      ensures e in Elements(MergeAll(cs)) <==> e in AllEntries(mem, imm, v)
    {
      ChildrenHoldAll(mem, imm, v, e);
    }
  }

  /** What a user-level iterator over those sources lists at snapshot `s` is what lookups find there. */
  lemma IterationAgreesWithReads(mem: seq<Entry>, imm: seq<Entry>, v: Levels, s: nat, u: UserKey, x: Value)
    requires Readable(mem, imm, v)
    ensures Pair(u, x) in Live(MergeAll(Children(mem, imm, v)), s) <==> Read(AllEntries(mem, imm, v), u, s) == Found(x)
    ensures IncreasingKeys(Live(MergeAll(Children(mem, imm, v)), s))
  {
    ChildrenMerge(mem, imm, v);
    LiveIsReadMap(MergeAll(Children(mem, imm, v)), s, u, x);
  }
}

/** VersionSet::Builder: edits accumulated per level, merged into the files of a base version. */
module VersionBuilder {
  import opened InternalKeys
  import opened Version

  /** Files deleted from and added to one level by one edit. */
  datatype LevelEdit = LevelEdit(deleted: set<nat>, added: seq<File>)

  /** Builder::LevelState. */
  datatype LevelState = LevelState(deleted: set<nat>, added: seq<File>)

  const EMPTY_STATE := LevelState({}, [])

  /** Insertion into the ordered set of added files, which ignores equivalent elements. */
  function InsertFile(fs: seq<File>, f: File): (r: seq<File>)
    requires SortedFiles(fs)
    ensures SortedFiles(r)
    ensures forall g :: g in r ==> g == f || g in fs
    ensures forall g | g in fs :: g in r
    ensures (forall g | g in fs :: g.number != f.number) ==> f in r
  {
    if fs == [] || BySmallest(f, fs[0]) then [f] + fs
    else if BySmallest(fs[0], f) then
      var rest := InsertFile(fs[1..], f);
      assert forall g | g in fs[1..] :: BySmallest(fs[0], g);
      [fs[0]] + rest
    else fs
  }

  /** The additions of Builder::Apply. */
  function ApplyAdded(st: LevelState, added: seq<File>): (r: LevelState)
    requires SortedFiles(st.added)
    ensures SortedFiles(r.added)
    decreases |added|
  {
    if added == [] then st
    else ApplyAdded(LevelState(st.deleted - {added[0].number}, InsertFile(st.added, added[0])), added[1..])
  }

  /** Builder::Apply for one level: deletions first, then additions, which undo deletions of their number. */
  function Apply(st: LevelState, edit: LevelEdit): (r: LevelState)
    requires SortedFiles(st.added)
    ensures SortedFiles(r.added)
  {
    ApplyAdded(LevelState(st.deleted + edit.deleted, st.added), edit.added)
  }

  ghost function Numbers(fs: seq<File>): set<nat> {
    set f | f in fs :: f.number
  }

  lemma NumberIn(fs: seq<File>, f: File)
    requires f in fs
    ensures f.number in Numbers(fs)
  {
  }

  /** A file of the two lists that has the number of an added one is that file. */
  ghost predicate SameByNumber(fs: seq<File>, added: seq<File>) {
    forall f, g | (f in fs || f in added) && g in added && f.number == g.number :: f == g
  }

  /** The ordered set gains the file, unless it is in it already. */
  lemma InsertedFile(fs: seq<File>, f: File)
    requires SortedFiles(fs) && forall g | g in fs && g.number == f.number :: g == f
    ensures forall g :: g in InsertFile(fs, f) <==> g in fs || g == f
  {
  }

  /** What Apply leaves behind when a number that comes back brings the same file. */
  lemma {:induction false} ApplyAddedMeaning(st: LevelState, added: seq<File>)
    requires SortedFiles(st.added) && SameByNumber(st.added, added)
    ensures ApplyAdded(st, added).deleted == st.deleted - Numbers(added)
    ensures forall f :: f in ApplyAdded(st, added).added <==> f in st.added || f in added
    decreases |added|
  {
    if added != [] {
      hide InsertFile, SortedFiles;
      var first, rest := added[0], added[1..];
      assert forall f :: f in added <==> f == first || f in rest;
      var next := LevelState(st.deleted - {first.number}, InsertFile(st.added, first));
      InsertedFile(st.added, first);
      ApplyAddedMeaning(next, rest);
      assert Numbers(added) == {first.number} + Numbers(rest);
    }
  }

  /** Whatever is added, every number added is undeleted, and nothing gathered before is lost. */
  lemma {:induction false} ApplyAddedKeeps(st: LevelState, added: seq<File>)
    requires SortedFiles(st.added)
    ensures ApplyAdded(st, added).deleted == st.deleted - Numbers(added)
    ensures forall f | f in st.added :: f in ApplyAdded(st, added).added
    decreases |added|
  {
    if added != [] {
      assert forall f :: f in added <==> f == added[0] || f in added[1..];
      ApplyAddedKeeps(LevelState(st.deleted - {added[0].number}, InsertFile(st.added, added[0])), added[1..]);
      assert Numbers(added) == {added[0].number} + Numbers(added[1..]);
    }
  }

  /** The loops of Builder::SaveTo for one level, before the deleted files are left out. */
  function Merge(base: seq<File>, added: seq<File>): seq<File> {
    if added == [] then base
    else if base == [] then added
    else if BySmallest(added[0], base[0]) then [added[0]] + Merge(base, added[1..])
    else [base[0]] + Merge(base[1..], added)
  }

  function Undeleted(fs: seq<File>, deleted: set<nat>): seq<File> {
    if fs == [] then []
    else (if fs[0].number in deleted then [] else [fs[0]]) + Undeleted(fs[1..], deleted)
  }

  lemma {:induction false} MergeElements(base: seq<File>, added: seq<File>)
    ensures forall f :: f in Merge(base, added) <==> f in base || f in added
  {
    if added == [] || base == [] {
    } else if BySmallest(added[0], base[0]) {
      MergeElements(base, added[1..]);
    } else {
      MergeElements(base[1..], added);
    }
  }

  lemma {:induction false} UndeletedElements(fs: seq<File>, deleted: set<nat>)
    ensures forall f :: f in Undeleted(fs, deleted) <==> f in fs && f.number !in deleted
  {
    if fs != [] {
      UndeletedElements(fs[1..], deleted);
    }
  }

  function SaveLevel(base: seq<File>, st: LevelState): seq<File> {
    Undeleted(Merge(base, st.added), st.deleted)
  }

  /** MaybeAddFile. */
  function MaybeAddFile(files: seq<File>, deleted: set<nat>, f: File): seq<File> {
    if f.number in deleted then files else files + [f]
  }

  /** std::upper_bound over the base files from `start` on. */
  method UpperBound(base: seq<File>, start: nat, f: File) returns (r: nat)
    requires SortedFiles(base) && start <= |base|
    ensures start <= r <= |base|
    ensures forall i | start <= i < r :: !BySmallest(f, base[i])
    ensures r < |base| ==> BySmallest(f, base[r])
  {
    var left := start;
    r := |base|;
    while left < r
      invariant start <= left <= r <= |base|
      invariant forall i | start <= i < left :: !BySmallest(f, base[i])
      invariant forall i | r <= i < |base| :: BySmallest(f, base[i])
    {
      var mid := (left + r) / 2;
      if BySmallest(f, base[mid]) {
        forall i | mid < i < |base|
          ensures BySmallest(f, base[i])
        {
          assert BySmallest(base[mid], base[i]);
        }
        r := mid;
      } else {
        forall i | start <= i < mid
          ensures !BySmallest(f, base[i])
        {
          assert BySmallest(base[i], base[mid]);
        }
        left := mid + 1;
      }
    }
  }

  /** What SaveTo has still to emit. */
  function Remaining(base: seq<File>, i: nat, added: seq<File>, a: nat, deleted: set<nat>): seq<File>
    requires i <= |base| && a <= |added|
  {
    Undeleted(Merge(base[i..], added[a..]), deleted)
  }

  lemma RemainingTakesBase(base: seq<File>, i: nat, added: seq<File>, a: nat, deleted: set<nat>)
    requires i < |base| && a <= |added| && (a < |added| ==> !BySmallest(added[a], base[i]))
    ensures Remaining(base, i, added, a, deleted) == MaybeAddFile([], deleted, base[i]) + Remaining(base, i + 1, added, a, deleted)
  {
    assert base[i..][1..] == base[i + 1..];
    if a < |added| {
      MergeTakesBase(base[i..], added[a..], deleted);
    }
  }

  lemma RemainingTakesAdded(base: seq<File>, i: nat, added: seq<File>, a: nat, deleted: set<nat>)
    requires i <= |base| && a < |added| && (i < |base| ==> BySmallest(added[a], base[i]))
    ensures Remaining(base, i, added, a, deleted) == MaybeAddFile([], deleted, added[a]) + Remaining(base, i, added, a + 1, deleted)
  {
    assert added[a..][1..] == added[a + 1..];
    MergeTakesAdded(base[i..], added[a..], deleted);
  }

  /** Builder::SaveTo for one level. */
  method SaveTo(base: seq<File>, st: LevelState) returns (files: seq<File>)
    requires SortedFiles(base) && SortedFiles(st.added)
    ensures files == SaveLevel(base, st)
  {
    hide Merge, Undeleted, BySmallest, SortedFiles;
    files := [];
    var baseIter := 0;
    assert base[0..] == base && st.added[0..] == st.added;
    for a := 0 to |st.added|
      invariant baseIter <= |base|
      invariant files + Remaining(base, baseIter, st.added, a, st.deleted) == SaveLevel(base, st)
    {
      var bpos := UpperBound(base, baseIter, st.added[a]);
      files := TakeBase(base, baseIter, bpos, st, a, files);
      baseIter := bpos;
      RemainingTakesAdded(base, baseIter, st.added, a, st.deleted);
      files := MaybeAddFile(files, st.deleted, st.added[a]);
    }
    files := TakeBase(base, baseIter, |base|, st, |st.added|, files);
    NothingRemains(base, st.added, st.deleted);
  }

  lemma NothingRemains(base: seq<File>, added: seq<File>, deleted: set<nat>)
    ensures Remaining(base, |base|, added, |added|, deleted) == []
  {
  }

  /** The inner loop of SaveTo: emit the base files up to `bpos`. */
  method TakeBase(base: seq<File>, start: nat, bpos: nat, st: LevelState, a: nat, files: seq<File>) returns (r: seq<File>)
    requires start <= bpos <= |base| && a <= |st.added|
    requires a < |st.added| ==> forall i | start <= i < bpos :: !BySmallest(st.added[a], base[i])
    ensures r + Remaining(base, bpos, st.added, a, st.deleted) == files + Remaining(base, start, st.added, a, st.deleted)
  {
    r := files;
    for i := start to bpos
      invariant r + Remaining(base, i, st.added, a, st.deleted) == files + Remaining(base, start, st.added, a, st.deleted)
    {
      RemainingTakesBase(base, i, st.added, a, st.deleted);
      r := MaybeAddFile(r, st.deleted, base[i]);
    }
  }

  lemma MergeTakesBase(base: seq<File>, added: seq<File>, deleted: set<nat>)
    requires base != [] && added != [] && !BySmallest(added[0], base[0])
    ensures Undeleted(Merge(base, added), deleted)
            == MaybeAddFile([], deleted, base[0]) + Undeleted(Merge(base[1..], added), deleted)
  {
    assert Merge(base, added)[1..] == Merge(base[1..], added);
  }

  lemma MergeTakesAdded(base: seq<File>, added: seq<File>, deleted: set<nat>)
    requires added != [] && (base != [] ==> BySmallest(added[0], base[0]))
    ensures Undeleted(Merge(base, added), deleted)
            == MaybeAddFile([], deleted, added[0]) + Undeleted(Merge(base, added[1..]), deleted)
  {
    if base != [] {
      assert Merge(base, added)[1..] == Merge(base, added[1..]);
    } else {
      assert Merge(base, added[1..]) == added[1..];
    }
  }

  /** Two files of distinct sorted lists are never equivalent. */
  ghost predicate NoTies(base: seq<File>, added: seq<File>) {
    forall f, g | f in base && g in added :: BySmallest(f, g) || BySmallest(g, f)
  }

  lemma {:induction false} MergeSorted(base: seq<File>, added: seq<File>)
    requires SortedFiles(base) && SortedFiles(added) && NoTies(base, added)
    ensures SortedFiles(Merge(base, added))
  {
    if added == [] || base == [] {
    } else if BySmallest(added[0], base[0]) {
      MergeSorted(base, added[1..]);
      MergeElements(base, added[1..]);
      forall g | g in Merge(base, added[1..])
        ensures BySmallest(added[0], g)
      {
        FirstIsLeast(base);
        FirstIsLeast(added);
      }
    } else {
      assert base[0] in base && added[0] in added;
      MergeSorted(base[1..], added);
      MergeElements(base[1..], added);
      forall g | g in Merge(base[1..], added)
        ensures BySmallest(base[0], g)
      {
        FirstIsLeast(base);
        FirstIsLeast(added);
      }
    }
  }

  lemma FirstIsLeast(fs: seq<File>)
    requires SortedFiles(fs) && fs != []
    ensures forall g | g in fs :: g == fs[0] || BySmallest(fs[0], g)
    ensures forall g | g in fs[1..] :: BySmallest(fs[0], g)
  {
  }

  lemma {:induction false} UndeletedSorted(fs: seq<File>, deleted: set<nat>)
    requires SortedFiles(fs)
    ensures SortedFiles(Undeleted(fs, deleted))
  {
    if fs != [] {
      UndeletedSorted(fs[1..], deleted);
      UndeletedElements(fs[1..], deleted);
      FirstIsLeast(fs);
    }
  }

  /** What SaveTo leaves in a level: sorted, and nothing but the undeleted files. */
  lemma SaveLevelMeaning(base: seq<File>, st: LevelState)
    requires SortedFiles(base) && SortedFiles(st.added) && NoTies(base, st.added)
    ensures SortedFiles(SaveLevel(base, st))
    ensures forall f :: f in SaveLevel(base, st) <==> (f in base || f in st.added) && f.number !in st.deleted
  {
    MergeElements(base, st.added);
    UndeletedElements(Merge(base, st.added), st.deleted);
    MergeSorted(base, st.added);
    UndeletedSorted(Merge(base, st.added), st.deleted);
  }

  lemma {:induction false} MergeCounts(base: seq<File>, added: seq<File>)
    ensures multiset(Merge(base, added)) == multiset(base) + multiset(added)
  {
    if added == [] || base == [] {
    } else if BySmallest(added[0], base[0]) {
      assert added == [added[0]] + added[1..];
      MergeCounts(base, added[1..]);
    } else {
      assert base == [base[0]] + base[1..];
      MergeCounts(base[1..], added);
    }
  }

  lemma {:induction false} UndeletedCounts(fs: seq<File>, deleted: set<nat>, f: File)
    requires f.number !in deleted
    ensures multiset(Undeleted(fs, deleted))[f] == multiset(fs)[f]
  {
    if fs != [] {
      assert fs == [fs[0]] + fs[1..];
      UndeletedCounts(fs[1..], deleted, f);
    }
  }

  lemma {:induction false} SortedOnce(fs: seq<File>, f: File)
    requires SortedFiles(fs)
    ensures multiset(fs)[f] <= 1
  {
    if fs != [] {
      assert fs == [fs[0]] + fs[1..];
      SortedOnce(fs[1..], f);
      FirstIsLeast(fs);
      CompareIsTotalOrder(f.smallest, f.smallest, f.smallest);
    }
  }

  /** A live file of the base that was added as well is saved twice. */
  lemma SavedTwice(base: seq<File>, st: LevelState, f: File)
    requires f in base && f in st.added && f.number !in st.deleted
    ensures !SortedFiles(SaveLevel(base, st))
  {
    MergeCounts(base, st.added);
    UndeletedCounts(Merge(base, st.added), st.deleted, f);
    if SortedFiles(SaveLevel(base, st)) {
      SortedOnce(SaveLevel(base, st), f);
    }
  }

  lemma AnyFile(fs: seq<File>) returns (f: File)
    requires fs != []
    ensures f in fs
  {
    f := fs[0];
  }

  /** A sorted list of files is determined by its elements. */
  lemma {:induction false} SortedFilesUnique(a: seq<File>, b: seq<File>)
    requires SortedFiles(a) && SortedFiles(b)
    requires forall f :: f in a <==> f in b
    ensures a == b
  {
    if a == [] {
      if b != [] {
        var f := AnyFile(b);
      }
    } else {
      var f0 := AnyFile(a);
      assert a[0] in b;
      FirstIsLeast(a);
      FirstIsLeast(b);
      assert b[0] in a;
      assert a[0] == b[0];
      forall f
        ensures f in a[1..] <==> f in b[1..]
      {
        assert f in a <==> f == a[0] || f in a[1..];
        assert f in b <==> f == b[0] || f in b[1..];
      }
      SortedFilesUnique(a[1..], b[1..]);
    }
  }
}

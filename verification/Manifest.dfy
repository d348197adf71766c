/** Replaying a manifest: all edits in one builder against installing them one at a time. */
module Manifest {
  import opened InternalKeys
  import opened Version
  import opened VersionBuilder
  import opened Install

  /** Builder::Apply of each edit in turn, for one level. */
  function ApplyAll(st: LevelState, edits: seq<LevelEdit>): (r: LevelState)
    requires SortedFiles(st.added)
    ensures SortedFiles(r.added)
    decreases |edits|
  {
    if edits == [] then st else Apply(ApplyAll(st, edits[..|edits| - 1]), edits[|edits| - 1])
  }

  /** The level after LogAndApply of each edit in turn: a builder and a SaveTo for every one. */
  function InstallAll(base: seq<File>, edits: seq<LevelEdit>): seq<File>
    decreases |edits|
  {
    if edits == [] then base
    else SaveLevel(InstallAll(base, edits[..|edits| - 1]), Apply(EMPTY_STATE, edits[|edits| - 1]))
  }

  ghost function AddedNumbers(edits: seq<LevelEdit>): set<nat> {
    set e, f | e in edits && f in e.added :: f.number
  }

  /** The edit adds each number once. */
  ghost predicate DistinctAdds(edit: LevelEdit) {
    forall i, j | 0 <= i < j < |edit.added| :: edit.added[i].number != edit.added[j].number
  }

  /** No edit adds a number that was at the level before, even if it is not there any more. */
  ghost predicate FreshAdds(base: seq<File>, edits: seq<LevelEdit>)
    decreases |edits|
  {
    edits == [] ||
    var init, last := edits[..|edits| - 1], edits[|edits| - 1];
    && FreshAdds(base, init)
    && DistinctAdds(last)
    && Numbers(last.added) !! Numbers(base) && Numbers(last.added) !! AddedNumbers(init)
  }

  lemma NumbersApart(a: seq<File>, b: seq<File>)
    requires Numbers(a) !! Numbers(b)
    ensures NoTies(a, b)
  {
    forall f, g | f in a && g in b
      ensures BySmallest(f, g) || BySmallest(g, f)
    {
      NumberIn(a, f);
      NumberIn(b, g);
      CompareIsTotalOrder(f.smallest, g.smallest, g.smallest);
    }
  }

  /** The files the edits add. */
  ghost function AddedFiles(edits: seq<LevelEdit>): set<File> {
    set e, f | e in edits && f in e.added :: f
  }

  lemma AddedNumbersSplit(edits: seq<LevelEdit>)
    requires edits != []
    ensures AddedNumbers(edits) == AddedNumbers(edits[..|edits| - 1]) + Numbers(edits[|edits| - 1].added)
    ensures forall f :: f in AddedFiles(edits) <==> f in AddedFiles(edits[..|edits| - 1]) || f in edits[|edits| - 1].added
  {
    assert edits == edits[..|edits| - 1] + [edits[|edits| - 1]];
  }

  /** Edit `j` adds each number once, and none that is at the level by then. */
  ghost predicate AddsAbsentAt(base: seq<File>, edits: seq<LevelEdit>, j: nat)
    requires j < |edits|
  {
    DistinctAdds(edits[j]) && Numbers(edits[j].added) !! Numbers(InstallAll(base, edits[..j]))
  }

  ghost predicate AddsAbsent(base: seq<File>, edits: seq<LevelEdit>) {
    forall j | 0 <= j < |edits| :: AddsAbsentAt(base, edits, j)
  }

  /** No number of the base is added, and a number that is added again brings the same file. */
  ghost predicate NumbersKeepFiles(base: seq<File>, edits: seq<LevelEdit>) {
    && (forall f | f in AddedFiles(edits) :: f.number !in Numbers(base))
    && forall i, j, f, g | 0 <= i < j < |edits| && f in edits[i].added && g in edits[j].added && f.number == g.number :: f == g
  }

  /** One builder over all the edits, saved once, gives what installing them one at a time gives. */
  ghost predicate ReplayRebuilds(base: seq<File>, edits: seq<LevelEdit>) {
    SaveLevel(base, ApplyAll(EMPTY_STATE, edits)) == InstallAll(base, edits)
  }

  lemma AddsAbsentPrefix(base: seq<File>, edits: seq<LevelEdit>, k: nat)
    requires AddsAbsent(base, edits) && k <= |edits|
    ensures AddsAbsent(base, edits[..k])
  {
    hide InstallAll;
    forall j | 0 <= j < k
      ensures AddsAbsentAt(base, edits[..k], j)
    {
      assert AddsAbsentAt(base, edits, j);
      assert edits[..k][..j] == edits[..j];
    }
  }

  lemma NumbersKeepFilesPrefix(base: seq<File>, edits: seq<LevelEdit>, k: nat)
    requires NumbersKeepFiles(base, edits) && k <= |edits|
    ensures NumbersKeepFiles(base, edits[..k])
  {
  }

  /** One number, one file, among the files gathered and the next edit's. */
  lemma NextSameByNumber(base: seq<File>, edits: seq<LevelEdit>, st: LevelState)
    requires edits != [] && NumbersKeepFiles(base, edits) && DistinctAdds(edits[|edits| - 1])
    requires forall f :: f in st.added <==> f in AddedFiles(edits[..|edits| - 1])
    ensures SameByNumber(st.added, edits[|edits| - 1].added)
  {
    var n := |edits| - 1;
    forall f, g | (f in st.added || f in edits[n].added) && g in edits[n].added && f.number == g.number
      ensures f == g
    {
      if f in edits[n].added {
        DistinctIsSame(edits[n], f, g);
      }
    }
  }

  lemma DistinctIsSame(edit: LevelEdit, f: File, g: File)
    requires DistinctAdds(edit) && f in edit.added && g in edit.added && f.number == g.number
    ensures f == g
  {
  }

  lemma ApplyMeaning(st: LevelState, edit: LevelEdit)
    requires SortedFiles(st.added) && SameByNumber(st.added, edit.added)
    ensures Apply(st, edit).deleted == (st.deleted + edit.deleted) - Numbers(edit.added)
    ensures forall f :: f in Apply(st, edit).added <==> f in st.added || f in edit.added
  {
    ApplyAddedMeaning(LevelState(st.deleted + edit.deleted, st.added), edit.added);
  }

  lemma ApplyKeeps(st: LevelState, edit: LevelEdit)
    requires SortedFiles(st.added)
    ensures Apply(st, edit).deleted == (st.deleted + edit.deleted) - Numbers(edit.added)
    ensures forall f | f in st.added :: f in Apply(st, edit).added
  {
    ApplyAddedKeeps(LevelState(st.deleted + edit.deleted, st.added), edit.added);
  }

  lemma EmptySorted()
    ensures SortedFiles(EMPTY_STATE.added)
  {
  }

  /** Installing an edit that adds absent numbers. */
  lemma InstalledEdit(v: seq<File>, edit: LevelEdit)
    requires SortedFiles(v) && DistinctAdds(edit) && Numbers(edit.added) !! Numbers(v)
    ensures var w := SaveLevel(v, Apply(EMPTY_STATE, edit));
            && SortedFiles(w)
            && forall f :: f in w <==> (f in v && f.number !in edit.deleted) || f in edit.added
  {
    hide Apply, SaveLevel, SortedFiles, BySmallest;
    EmptySorted();
    var one := Apply(EMPTY_STATE, edit);
    forall f, g | f in edit.added && g in edit.added && f.number == g.number
      ensures f == g
    {
      DistinctIsSame(edit, f, g);
    }
    ApplyMeaning(EMPTY_STATE, edit);
    assert Numbers(one.added) == Numbers(edit.added);
    NumbersApart(v, one.added);
    SaveLevelMeaning(v, one);
    forall f
      ensures f in SaveLevel(v, one) <==> (f in v && f.number !in edit.deleted) || f in edit.added
    {
      if f in edit.added {
        NumberIn(edit.added, f);
      } else if f in v {
        NumberIn(v, f);
      }
    }
  }

  /** What the builder saves while no number of the base is added. */
  lemma SavedFiles(base: seq<File>, st: LevelState)
    requires SortedFiles(base) && SortedFiles(st.added) && forall f | f in st.added :: f.number !in Numbers(base)
    ensures SortedFiles(SaveLevel(base, st))
    ensures forall f :: f in SaveLevel(base, st) <==> (f in base || f in st.added) && f.number !in st.deleted
  {
    NumbersApart(base, st.added);
    SaveLevelMeaning(base, st);
  }

  /** While numbers keep their files, replaying gives what installing gives, and the builder holds every file added. */
  lemma {:induction false} KeptNumbersReplay(base: seq<File>, edits: seq<LevelEdit>)
    requires SortedFiles(base) && AddsAbsent(base, edits) && NumbersKeepFiles(base, edits)
    ensures ReplayRebuilds(base, edits) && SortedFiles(InstallAll(base, edits))
    ensures forall f :: f in ApplyAll(EMPTY_STATE, edits).added <==> f in AddedFiles(edits)
    decreases |edits|
  {
    hide Merge, Undeleted, SaveLevel, Apply, SortedFiles;
    if edits == [] {
      NothingToApply(base);
    } else {
      var n := |edits| - 1;
      var init, last := edits[..n], edits[n];
      AddsAbsentPrefix(base, edits, n);
      NumbersKeepFilesPrefix(base, edits, n);
      KeptNumbersReplay(base, init);
      EmptySorted();
      var st, v := ApplyAll(EMPTY_STATE, init), InstallAll(base, init);
      assert AddsAbsentAt(base, edits, n);
      AddedNumbersSplit(edits);
      NextSameByNumber(base, edits, st);
      ApplyMeaning(st, last);
      SavedFiles(base, st);
      SavedFiles(base, Apply(st, last));
      InstalledEdit(v, last);
      SavedIsInstalled(base, st, v, last);
    }
  }

  lemma SavedIsInstalled(base: seq<File>, st: LevelState, v: seq<File>, edit: LevelEdit)
    requires SortedFiles(st.added)
    requires (forall f :: f in v <==> (f in base || f in st.added) && f.number !in st.deleted)
    requires SameByNumber(st.added, edit.added) && Numbers(edit.added) !! Numbers(base)
    requires var all := Apply(st, edit);
             && all.deleted == (st.deleted + edit.deleted) - Numbers(edit.added)
             && (forall f :: f in all.added <==> f in st.added || f in edit.added)
             && SortedFiles(SaveLevel(base, all))
             && forall f :: f in SaveLevel(base, all) <==> (f in base || f in all.added) && f.number !in all.deleted
    requires var w := SaveLevel(v, Apply(EMPTY_STATE, edit));
             SortedFiles(w) && forall f :: f in w <==> (f in v && f.number !in edit.deleted) || f in edit.added
    requires Numbers(edit.added) !! Numbers(v)
    ensures SaveLevel(v, Apply(EMPTY_STATE, edit)) == SaveLevel(base, Apply(st, edit))
  {
    hide Apply, SaveLevel, SortedFiles;
    EmptySorted();
    var w, saved := SaveLevel(v, Apply(EMPTY_STATE, edit)), SaveLevel(base, Apply(st, edit));
    forall f
      ensures f in w <==> f in saved
    {
      if f in edit.added {
        NumberIn(edit.added, f);
      } else if f in base {
        NumberIn(base, f);
      }
    }
    SortedFilesUnique(w, saved);
  }

  /** A number of the base that is added, or one that comes back with another file, spoils the replay. */
  lemma ReturnSpoilsReplay(base: seq<File>, edits: seq<LevelEdit>, g: File)
    requires SortedFiles(base) && edits != [] && AddsAbsent(base, edits) && NumbersKeepFiles(base, edits[..|edits| - 1])
    requires g in edits[|edits| - 1].added
    requires g.number in Numbers(base) || exists f :: f in AddedFiles(edits[..|edits| - 1]) && f.number == g.number && f != g
    ensures !ReplayRebuilds(base, edits)
  {
    hide Merge, Undeleted, SaveLevel, Apply, SortedFiles, NumbersKeepFiles;
    var n := |edits| - 1;
    var init, last := edits[..n], edits[n];
    AddsAbsentPrefix(base, edits, n);
    KeptNumbersReplay(base, init);
    assert AddsAbsentAt(base, edits, n);
    EmptySorted();
    var st, v := ApplyAll(EMPTY_STATE, init), InstallAll(base, init);
    InstalledEdit(v, last);
    ApplyKeeps(st, last);
    NumberIn(last.added, g);
    if f :| f in AddedFiles(init) && f.number == g.number && f != g {
      StaleFileSaved(base, Apply(st, last), v, last, f, g);
    } else {
      var f :| f in base && f.number == g.number;
      if f != g {
        StaleFileSaved(base, Apply(st, last), v, last, f, g);
      } else {
        BaseFileReturns(base, init, st, last, g);
        SavedTwice(base, Apply(st, last), g);
      }
    }
  }

  lemma StaleFileSaved(base: seq<File>, all: LevelState, v: seq<File>, edit: LevelEdit, f: File, g: File)
    requires (f in base || f in all.added) && f.number !in all.deleted && f != g && f.number == g.number
    requires DistinctAdds(edit) && g in edit.added && Numbers(edit.added) !! Numbers(v)
    requires var w := SaveLevel(v, Apply(EMPTY_STATE, edit));
             forall h :: h in w <==> (h in v && h.number !in edit.deleted) || h in edit.added
    ensures SaveLevel(base, all) != SaveLevel(v, Apply(EMPTY_STATE, edit))
  {
    MergeElements(base, all.added);
    UndeletedElements(Merge(base, all.added), all.deleted);
    NumberIn(edit.added, g);
    if f in edit.added {
      DistinctIsSame(edit, f, g);
    } else if f in v {
      NumberIn(v, f);
    }
  }

  /** The file comes back into the set of added files: nothing else there has its number. */
  lemma BaseFileReturns(base: seq<File>, init: seq<LevelEdit>, st: LevelState, edit: LevelEdit, g: File)
    requires SortedFiles(st.added) && NumbersKeepFiles(base, init) && g in base && g in edit.added && DistinctAdds(edit)
    requires forall f :: f in st.added <==> f in AddedFiles(init)
    ensures g in Apply(st, edit).added
  {
    NumberIn(base, g);
    assert forall f | f in st.added :: f.number != g.number;
    AddedIsGathered(LevelState(st.deleted + edit.deleted, st.added), edit.added, g);
  }

  lemma {:induction false} AddedIsGathered(st: LevelState, added: seq<File>, g: File)
    requires SortedFiles(st.added) && g in added
    requires forall i, j | 0 <= i < j < |added| :: added[i].number != added[j].number
    requires forall f | f in st.added :: f.number != g.number
    ensures g in ApplyAdded(st, added).added
    decreases |added|
  {
    var next := LevelState(st.deleted - {added[0].number}, InsertFile(st.added, added[0]));
    if added[0] == g {
      ApplyAddedKeeps(next, added[1..]);
    } else {
      assert g in added[1..];
      var j :| 0 <= j < |added| && added[j] == g;
      assert added[0].number != added[j].number;
      AddedIsGathered(next, added[1..], g);
    }
  }

  /** If every prefix replays rightly, numbers keep their files. */
  lemma {:induction false} ReplaysKeepNumbers(base: seq<File>, edits: seq<LevelEdit>)
    requires SortedFiles(base) && AddsAbsent(base, edits)
    requires forall k | 0 <= k <= |edits| :: ReplayRebuilds(base, edits[..k])
    ensures NumbersKeepFiles(base, edits)
    decreases |edits|
  {
    hide ReplayRebuilds, InstallAll, SortedFiles, AddsAbsent;
    if edits != [] {
      var n := |edits| - 1;
      var init, last := edits[..n], edits[n];
      AddsAbsentPrefix(base, edits, n);
      forall k | 0 <= k <= n
        ensures ReplayRebuilds(base, init[..k])
      {
        assert init[..k] == edits[..k];
      }
      ReplaysKeepNumbers(base, init);
      assert edits[..n + 1] == edits && ReplayRebuilds(base, edits[..n + 1]);
      forall g | g in last.added
        ensures g.number !in Numbers(base) && forall f | f in AddedFiles(init) && f.number == g.number :: f == g
      {
        if g.number in Numbers(base) || exists f :: f in AddedFiles(init) && f.number == g.number && f != g {
          ReturnSpoilsReplay(base, edits, g);
        }
      }
      NumbersKeepOnMore(base, edits);
    }
  }

  lemma NumbersKeepOnMore(base: seq<File>, edits: seq<LevelEdit>)
    requires edits != [] && NumbersKeepFiles(base, edits[..|edits| - 1])
    requires forall g | g in edits[|edits| - 1].added ::
               g.number !in Numbers(base) && forall f | f in AddedFiles(edits[..|edits| - 1]) && f.number == g.number :: f == g
    ensures NumbersKeepFiles(base, edits)
  {
    var n := |edits| - 1;
    AddedNumbersSplit(edits);
    forall i, j, f, g | 0 <= i < j < |edits| && f in edits[i].added && g in edits[j].added && f.number == g.number
      ensures f == g
    {
      assert edits[..n][i] == edits[i];
      if j == n {
        assert f in AddedFiles(edits[..n]);
      } else {
        assert edits[..n][j] == edits[j];
      }
    }
  }

  /** Main result: exactly when replaying a manifest in one builder rebuilds, file by file and in order, what
      LogAndApply had produced edit by edit, wherever the manifest ends.  The condition can be read off the edits. */
  lemma ReplayRebuildsIff(base: seq<File>, edits: seq<LevelEdit>)
    requires SortedFiles(base) && AddsAbsent(base, edits)
    ensures (forall k | 0 <= k <= |edits| :: ReplayRebuilds(base, edits[..k])) <==> NumbersKeepFiles(base, edits)
  {
    hide ReplayRebuilds, InstallAll, SortedFiles, AddsAbsent, NumbersKeepFiles;
    if NumbersKeepFiles(base, edits) {
      forall k | 0 <= k <= |edits|
        ensures ReplayRebuilds(base, edits[..k])
      {
        AddsAbsentPrefix(base, edits, k);
        NumbersKeepFilesPrefix(base, edits, k);
        KeptNumbersReplay(base, edits[..k]);
      }
    }
    if forall k | 0 <= k <= |edits| :: ReplayRebuilds(base, edits[..k]) {
      ReplaysKeepNumbers(base, edits);
    }
  }

  /** At a level are only files of the base and files added. */
  lemma {:induction false} InstalledNumbers(base: seq<File>, edits: seq<LevelEdit>)
    ensures Numbers(InstallAll(base, edits)) <= Numbers(base) + AddedNumbers(edits)
    decreases |edits|
  {
    if edits != [] {
      var init, last := edits[..|edits| - 1], edits[|edits| - 1];
      InstalledNumbers(base, init);
      AddedNumbersSplit(edits);
      var v, one := InstallAll(base, init), Apply(EMPTY_STATE, last);
      MergeElements(v, one.added);
      UndeletedElements(Merge(v, one.added), one.deleted);
      GatheredFrom(LevelState(last.deleted, []), last.added);
      assert LevelState(EMPTY_STATE.deleted + last.deleted, EMPTY_STATE.added) == LevelState(last.deleted, []);
      forall f | f in SaveLevel(v, one)
        ensures f.number in Numbers(base) + AddedNumbers(edits)
      {
        if f in v {
          NumberIn(v, f);
        } else {
          NumberIn(last.added, f);
        }
      }
    }
  }

  lemma {:induction false} GatheredFrom(st: LevelState, added: seq<File>)
    requires SortedFiles(st.added)
    ensures forall f | f in ApplyAdded(st, added).added :: f in st.added || f in added
    decreases |added|
  {
    if added != [] {
      GatheredFrom(LevelState(st.deleted - {added[0].number}, InsertFile(st.added, added[0])), added[1..]);
    }
  }

  lemma {:induction false} FreshIsAbsent(base: seq<File>, edits: seq<LevelEdit>)
    requires FreshAdds(base, edits)
    ensures AddsAbsent(base, edits) && NumbersKeepFiles(base, edits)
    decreases |edits|
  {
    hide InstallAll;
    if edits != [] {
      var n := |edits| - 1;
      var init, last := edits[..n], edits[n];
      FreshIsAbsent(base, init);
      InstalledNumbers(base, init);
      forall j | 0 <= j < |edits|
        ensures AddsAbsentAt(base, edits, j)
      {
        if j < n {
          assert AddsAbsentAt(base, init, j);
          assert init[..j] == edits[..j];
        }
      }
      forall g | g in last.added
        ensures g.number !in Numbers(base) && forall f | f in AddedFiles(init) && f.number == g.number :: f == g
      {
        NumberIn(last.added, g);
        assert forall f | f in AddedFiles(init) :: f.number in AddedNumbers(init);
      }
      NumbersKeepOnMore(base, edits);
    }
  }

  /** In particular a manifest that never uses a number twice at the level is replayed rightly. */
  lemma ReplayRebuildsLevel(base: seq<File>, edits: seq<LevelEdit>)
    requires SortedFiles(base) && FreshAdds(base, edits)
    ensures SaveLevel(base, ApplyAll(EMPTY_STATE, edits)) == InstallAll(base, edits)
    ensures SortedFiles(InstallAll(base, edits))
  {
    hide ApplyAll, InstallAll, SortedFiles, AddsAbsent, NumbersKeepFiles, FreshAdds, SaveLevel;
    FreshIsAbsent(base, edits);
    KeptNumbersReplay(base, edits);
  }

  lemma NothingToApply(base: seq<File>)
    requires SortedFiles(base)
    ensures SaveLevel(base, EMPTY_STATE) == base
  {
    SaveLevelMeaning(base, EMPTY_STATE);
    SortedFilesUnique(SaveLevel(base, EMPTY_STATE), base);
  }

  /** A manifest that is replayed wrongly: a number comes back with another file, and the builder keeps both. */
  lemma ReusedNumberDiffers(f: File, g: File)
    requires f.number == g.number && BySmallest(f, g)
    ensures var edits := [LevelEdit({}, [f]), LevelEdit({f.number}, []), LevelEdit({}, [g])];
            && InstallAll([], edits) == [g]
            && SaveLevel([], ApplyAll(EMPTY_STATE, edits)) == [f, g]
  {
    hide Apply, SaveLevel, ApplyAll, InstallAll;
    InstalledThrice(f, g);
    GatheredThrice(f, g);
    SaveTwo(LevelState({}, [f, g]), f, g);
  }

  lemma SaveTwo(st: LevelState, f: File, g: File)
    requires st == LevelState({}, [f, g]) && BySmallest(f, g)
    ensures SortedFiles(st.added) && SaveLevel([], st) == [f, g]
  {
    assert [f, g][1..] == [g] && [g][1..] == [];
    assert Undeleted([g], {}) == [g] + Undeleted([], {});
  }

  lemma InstalledThrice(f: File, g: File)
    requires f.number == g.number && BySmallest(f, g)
    ensures InstallAll([], [LevelEdit({}, [f]), LevelEdit({f.number}, []), LevelEdit({}, [g])]) == [g]
  {
    hide Apply, SaveLevel;
    var e0, e1, e2 := LevelEdit({}, [f]), LevelEdit({f.number}, []), LevelEdit({}, [g]);
    assert [e0, e1, e2][..2] == [e0, e1] && [e0, e1][..1] == [e0] && [e0][..0] == [];
    AddOne(EMPTY_STATE, f);
    AddOne(EMPTY_STATE, g);
    DeleteOne(EMPTY_STATE, f.number);
    assert EMPTY_STATE.added + [f] == [f] && EMPTY_STATE.added + [g] == [g];
    SaveOne([], Apply(EMPTY_STATE, e0), f);
    SaveOne([f], Apply(EMPTY_STATE, e1), f);
    SaveOne([], Apply(EMPTY_STATE, e2), g);
    assert InstallAll([], []) == [];
    assert InstallAll([], [e0]) == [f];
    assert InstallAll([], [e0, e1]) == [];
  }

  lemma GatheredThrice(f: File, g: File)
    requires f.number == g.number && BySmallest(f, g)
    ensures ApplyAll(EMPTY_STATE, [LevelEdit({}, [f]), LevelEdit({f.number}, []), LevelEdit({}, [g])]) == LevelState({}, [f, g])
  {
    hide Apply;
    var e0, e1, e2 := LevelEdit({}, [f]), LevelEdit({f.number}, []), LevelEdit({}, [g]);
    assert [e0, e1, e2][..2] == [e0, e1] && [e0, e1][..1] == [e0] && [e0][..0] == [];
    AddOne(EMPTY_STATE, f);
    assert EMPTY_STATE.added + [f] == [f];
    DeleteOne(LevelState({}, [f]), f.number);
    AddOne(LevelState({f.number}, [f]), g);
    assert EMPTY_STATE.deleted - {f.number} == {} && {} + {f.number} == {f.number} && {f.number} - {g.number} == {};
    assert ApplyAll(EMPTY_STATE, []) == EMPTY_STATE;
    assert ApplyAll(EMPTY_STATE, [e0]) == LevelState({}, [f]);
    assert ApplyAll(EMPTY_STATE, [e0, e1]) == LevelState({f.number}, [f]);
    assert [f] + [g] == [f, g];
  }

  lemma DeleteOne(st: LevelState, number: nat)
    requires SortedFiles(st.added)
    ensures Apply(st, LevelEdit({number}, [])) == LevelState(st.deleted + {number}, st.added)
  {
  }

  lemma SaveOne(base: seq<File>, st: LevelState, f: File)
    requires SortedFiles(base) && SortedFiles(st.added)
    requires (base == [f] && st.added == []) || (base == [] && st.added == [f])
    ensures SaveLevel(base, st) == if f.number in st.deleted then [] else [f]
  {
    assert Merge(base, st.added) == [f];
    assert [f][1..] == [];
    assert Undeleted([], st.deleted) == [];
  }

  lemma AddOne(st: LevelState, f: File)
    requires SortedFiles(st.added) && (st.added == [] || (|st.added| == 1 && BySmallest(st.added[0], f)))
    ensures Apply(st, LevelEdit({}, [f])) == LevelState(st.deleted - {f.number}, st.added + [f])
  {
    CompareIsTotalOrder(f.smallest, f.smallest, f.smallest);
    assert st.deleted + {} == st.deleted;
    assert [f][1..] == [];
    assert InsertFile([], f) == [f];
    if st.added != [] {
      var g := st.added[0];
      CompareIsTotalOrder(f.smallest, g.smallest, f.smallest);
      CompareIsTotalOrder(g.smallest, f.smallest, g.smallest);
      assert st.added[1..] == [];
      assert InsertFile(st.added, f) == [g] + [f];
      assert st.added == [g];
    }
    var next := LevelState(st.deleted - {f.number}, InsertFile(st.added, f));
    assert ApplyAdded(next, []) == next;
  }
}

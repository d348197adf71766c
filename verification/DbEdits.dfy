/** VersionSet::LogAndApply and MakeInputIterator as the store uses them: installing a record, and the
    merged input of a compaction. */
module DbEdits {
  import opened InternalKeys
  import opened Version
  import opened VersionBuilder
  import opened Inputs
  import opened Boundary
  import opened Picking
  import opened SetupInputs
  import opened Outputs
  import opened Install
  import opened InFlight
  import opened CompactionReads
  import opened Merging
  import opened Sources
  import opened DbState
  import opened DbSteps
  import opened Manifest
  import opened ManifestRuns

  /** Each level after the record. */
  ghost predicate IsInstalled(v: Levels, w: Levels, e: Record) {
    && |v| == |w| == |e| == NUM_LEVELS
    && forall l | 0 <= l < NUM_LEVELS :: w[l] == SaveLevel(v[l], Apply(EMPTY_STATE, e[l]))
  }

  ghost predicate LevelsSorted(v: Levels) {
    |v| == NUM_LEVELS && forall l | 0 <= l < NUM_LEVELS :: SortedFiles(v[l])
  }

  /** The Builder of LogAndApply: apply the edit, save every level into the new version. */
  method InstallRecord(v: Levels, e: Record) returns (w: Levels)
    requires LevelsSorted(v) && |e| == NUM_LEVELS
    ensures IsInstalled(v, w, e)
  {
    w := [];
    for l := 0 to NUM_LEVELS
      invariant |w| == l
      invariant forall m | 0 <= m < l :: w[m] == SaveLevel(v[m], Apply(EMPTY_STATE, e[m]))
    {
      var files := SaveTo(v[l], Apply(EMPTY_STATE, e[l]));
      w := w + [files];
    }
  }

  lemma UntouchedLevel(v: Levels, w: Levels, e: Record, l: nat)
    requires LevelsSorted(v) && IsInstalled(v, w, e) && l < NUM_LEVELS && e[l] == LevelEdit({}, [])
    ensures w[l] == v[l]
  {
    hide SaveLevel, Apply, SortedFiles;
    EmptyEdit(v[l], e[l]);
    InstallsIsSave(v[l], v[l], e[l]);
  }

  lemma NothingInstalled(v: Levels, w: Levels)
    requires LevelsSorted(v) && IsInstalled(v, w, NoChange())
    ensures w == v
  {
    forall l | 0 <= l < NUM_LEVELS
      ensures w[l] == v[l]
    {
      UntouchedLevel(v, w, NoChange(), l);
    }
  }

  lemma EditedLevel(v: Levels, w: Levels, e: Record, l: nat)
    requires LevelsSorted(v) && IsInstalled(v, w, e) && l < NUM_LEVELS
    requires forall i, j | 0 <= i < j < |e[l].added| :: e[l].added[i].number != e[l].added[j].number
    requires Numbers(e[l].added) !! Numbers(v[l]) && Numbers(e[l].added) !! e[l].deleted
    ensures SortedFiles(w[l])
    ensures forall f :: f in w[l] <==> (f in v[l] && f.number !in e[l].deleted) || f in e[l].added
  {
    EditLevel(v[l], e[l]);
  }

  /** The record of a memtable's table adds it at its level. */
  lemma InstalledFlush(v: Levels, w: Levels, p: nat, n: File)
    requires LevelsSorted(v) && p < NUM_LEVELS && n.number !in VersionNumbers(v)
    requires IsInstalled(v, w, NoChange()[p := LevelEdit({}, [n])])
    ensures Flushed(v, w, p, n)
  {
    hide SaveLevel, Apply, SortedFiles, VersionNumbers, Numbers, IsInstalled;
    var e := NoChange()[p := LevelEdit({}, [n])];
    assert |w| == |v| by { InstalledLength(v, w, e); }
    forall l | 0 <= l < NUM_LEVELS && l != p
      ensures w[l] == v[l]
    {
      UntouchedLevel(v, w, e, l);
    }
    LevelNumbers(v, p);
    OneNumber(n);
    EditedLevel(v, w, e, p);
  }

  lemma InstalledLength(v: Levels, w: Levels, e: Record)
    requires IsInstalled(v, w, e)
    ensures |w| == |v| == NUM_LEVELS
  {
  }

  /** The record of recovery adds the tables of the replayed logs to level 0. */
  lemma InstalledRecovery(v: Levels, w: Levels, ts: seq<File>)
    requires LevelsSorted(v) && Numbers(ts) !! VersionNumbers(v)
    requires forall i, j | 0 <= i < j < |ts| :: ts[i].number != ts[j].number
    requires IsInstalled(v, w, NoChange()[0 := LevelEdit({}, ts)])
    ensures FlushedAll(v, w, ts)
  {
    hide SaveLevel, Apply, SortedFiles, VersionNumbers, Numbers, IsInstalled;
    var e := NoChange()[0 := LevelEdit({}, ts)];
    assert |w| == |v| by { InstalledLength(v, w, e); }
    forall l | 1 <= l < NUM_LEVELS
      ensures w[l] == v[l]
    {
      UntouchedLevel(v, w, e, l);
    }
    LevelNumbers(v, 0);
    EditedLevel(v, w, e, 0);
  }

  /** Deleting files by number deletes exactly those files. */
  lemma DeletedByNumber(v: Levels, w: Levels, e: Record, l: nat, ins: seq<File>)
    requires LevelsSorted(v) && UniqueNumbers(v) && IsInstalled(v, w, e) && l < NUM_LEVELS
    requires (forall g | g in ins :: g in v[l]) && e[l].deleted == Numbers(ins)
    requires forall i, j | 0 <= i < j < |e[l].added| :: e[l].added[i].number != e[l].added[j].number
    requires Numbers(e[l].added) !! Numbers(v[l])
    ensures SortedFiles(w[l])
    ensures forall f :: f in w[l] <==> (f in v[l] && f !in ins) || f in e[l].added
  {
    hide SaveLevel, Apply, SortedFiles, UniqueNumbers;
    assert Numbers(ins) <= Numbers(v[l]);
    EditedLevel(v, w, e, l);
    forall f | f in v[l]
      ensures f.number in e[l].deleted <==> f in ins
    {
      NumbersPick(v, l, ins, f);
    }
  }

  /** The record of a compaction replaces its inputs by its outputs. */
  lemma InstalledReplace(v: Levels, w: Levels, level: nat, in0: seq<File>, in1: seq<File>, outs: seq<File>)
    requires LevelsSorted(v) && UniqueNumbers(v) && level + 1 < NUM_LEVELS
    requires IsSubset(in0, v[level]) && IsSubset(in1, v[level + 1])
    requires forall i, j | 0 <= i < j < |outs| :: outs[i].number != outs[j].number
    requires Numbers(outs) !! Numbers(v[level + 1])
    requires IsInstalled(v, w, NoChange()[level := LevelEdit(Numbers(in0), [])][level + 1 := LevelEdit(Numbers(in1), outs)])
    ensures Replaced(v, w, level, in0, in1, outs)
  {
    hide SaveLevel, Apply, SortedFiles, UniqueNumbers, IsInstalled;
    var e := NoChange()[level := LevelEdit(Numbers(in0), [])][level + 1 := LevelEdit(Numbers(in1), outs)];
    assert |w| == |v| by { InstalledLength(v, w, e); }
    forall l | 0 <= l < NUM_LEVELS && l != level && l != level + 1
      ensures w[l] == v[l]
    {
      UntouchedLevel(v, w, e, l);
    }
    assert Numbers([]) == {};
    DeletedByNumber(v, w, e, level, in0);
    DeletedByNumber(v, w, e, level + 1, in1);
  }

  /** The numbers of the files, gathered one by one (AddInputDeletions). */
  method FileNumbers(fs: seq<File>) returns (r: set<nat>)
    ensures r == Numbers(fs)
  {
    r := {};
    for i := 0 to |fs|
      invariant r == Numbers(fs[..i])
    {
      assert fs[..i + 1] == fs[..i] + [fs[i]];
      r := r + {fs[i].number};
    }
    assert fs[..|fs|] == fs;
  }

  // ---- Rebuilding a version

  /** Builder::Apply of one record. */
  method ApplyRecord(states: seq<LevelState>, e: Record) returns (r: seq<LevelState>)
    requires |states| == |e| == NUM_LEVELS && forall l | 0 <= l < NUM_LEVELS :: SortedFiles(states[l].added)
    ensures |r| == NUM_LEVELS && forall l | 0 <= l < NUM_LEVELS :: r[l] == Apply(states[l], e[l])
  {
    r := [];
    for l := 0 to NUM_LEVELS
      invariant |r| == l && forall j | 0 <= j < l :: r[j] == Apply(states[j], e[j])
    {
      r := r + [Apply(states[l], e[l])];
    }
  }

  lemma OneMoreRecord(m: seq<Record>, i: nat, l: nat)
    requires WellFormed(m) && i < |m| && l < NUM_LEVELS
    ensures WellFormed(m[..i]) && WellFormed(m[..i + 1])
    ensures ApplyAll(EMPTY_STATE, AtLevel(m[..i + 1], l)) == Apply(ApplyAll(EMPTY_STATE, AtLevel(m[..i], l)), m[i][l])
  {
    hide Apply;
    var es := AtLevel(m[..i + 1], l);
    assert es[..i] == AtLevel(m[..i], l) && es[i] == m[i][l];
  }

  /** VersionSet::Recover: every record of the manifest into one builder, saved once. */
  method RebuildVersion(m: seq<Record>) returns (v: Levels)
    requires WellFormed(m)
    ensures |v| == NUM_LEVELS && forall l | 0 <= l < NUM_LEVELS :: v[l] == Recovered(m, l)
  {
    hide Apply, SaveLevel, ApplyAll, SortedFiles;
    NoRecords(m[..0]);
    var states := seq(NUM_LEVELS, _ => EMPTY_STATE);
    for i := 0 to |m|
      invariant WellFormed(m[..i])
      invariant |states| == NUM_LEVELS
      invariant forall l | 0 <= l < NUM_LEVELS :: states[l] == ApplyAll(EMPTY_STATE, AtLevel(m[..i], l))
    {
      states := ApplyRecord(states, m[i]);
      forall l | 0 <= l < NUM_LEVELS
        ensures states[l] == ApplyAll(EMPTY_STATE, AtLevel(m[..i + 1], l))
      {
        OneMoreRecord(m, i, l);
      }
      assert WellFormed(m[..i + 1]);
    }
    assert m[..|m|] == m;
    v := [];
    for l := 0 to NUM_LEVELS
      invariant |v| == l && forall j | 0 <= j < l :: v[j] == Recovered(m, j)
    {
      NoRecords([]);
      var files := SaveTo([], states[l]);
      v := v + [files];
    }
  }

  lemma NoRecords(m: seq<Record>)
    requires m == []
    ensures SortedFiles([]) && SortedFiles(EMPTY_STATE.added) && WellFormed(m)
    ensures forall l | 0 <= l < NUM_LEVELS :: ApplyAll(EMPTY_STATE, AtLevel(m, l)) == EMPTY_STATE
  {
    forall l | 0 <= l < NUM_LEVELS
      ensures ApplyAll(EMPTY_STATE, AtLevel(m, l)) == EMPTY_STATE
    {
      assert AtLevel(m, l) == [];
    }
  }

  /** It is the version the manifest's store had. */
  lemma RebuildsCurrent(m: seq<Record>, d: Db, v: Levels)
    requires ManifestInv(m, d)
    requires |v| == NUM_LEVELS && forall l | 0 <= l < NUM_LEVELS :: v[l] == Recovered(m, l)
    ensures v == d.version
  {
    hide NumbersUsed, OnlyDown, SaveLevel, ApplyAll, InstallAll, FreshAdds, SortedFiles;
    NoRecords([]);
    forall l | 0 <= l < NUM_LEVELS
      ensures v[l] == d.version[l]
    {
      ReplayRebuildsLevel([], AtLevel(m, l));
    }
  }

  // ---- The input of a compaction

  /** How the code lists the inputs. */
  ghost predicate InputsOrdered(p: Pending) {
    (if p.level > 0 then Disjoint(p.in0) else Distinct(p.in0)) && Disjoint(p.in1)
  }

  /** The iterators MakeInputIterator merges: one for each level-0 file, one for a level above. */
  function InputChildren(p: Pending): seq<seq<Entry>> {
    (if p.level == 0 then FileRuns(p.in0) else [LevelRun(p.in0)])
    + if p.in1 == [] then [] else [LevelRun(p.in1)]
  }

  /** The files child `j` lists. */
  function InputFiles(p: Pending, j: nat): seq<File>
    requires j < |InputChildren(p)|
  {
    if p.level == 0 && j < |p.in0| then [p.in0[j]]
    else if p.level > 0 && j == 0 then p.in0
    else p.in1
  }

  lemma InputChild(p: Pending, j: nat)
    requires InputsOrdered(p) && GoodFiles(p.in0) && GoodFiles(p.in1) && j < |InputChildren(p)|
    ensures Sorted(InputChildren(p)[j])
    ensures forall e :: e in InputChildren(p)[j] <==> e in FileEntries(InputFiles(p, j))
  {
    var child := InputChildren(p)[j];
    if p.level == 0 && j < |p.in0| {
      assert child == p.in0[j].entries && p.in0[j] in p.in0;
      forall e | e in child
        ensures e in FileEntries(InputFiles(p, j))
      {
        assert p.in0[j] in [p.in0[j]];
      }
    } else if p.level > 0 && j == 0 {
      LevelRunMeaning(p.in0);
      LevelRunSorted(p.in0);
    } else {
      LevelRunMeaning(p.in1);
      LevelRunSorted(p.in1);
    }
  }

  function ChildInputLevel(p: Pending, j: nat): nat {
    if (if p.level == 0 then j < |p.in0| else j == 0) then p.level else p.level + 1
  }

  lemma InputFileLevel(v: Levels, p: Pending, j: nat, f: File)
    requires PendingOk(v, p) && j < |InputChildren(p)| && f in InputFiles(p, j)
    ensures ChildInputLevel(p, j) < |v| && f in v[ChildInputLevel(p, j)]
  {
    hide LeftNewer, Unbroken, ParentsApart, DeeperApart;
  }

  lemma SameInputLevel(p: Pending, i: nat, j: nat)
    requires i < |InputChildren(p)| && j < |InputChildren(p)| && i != j
    requires ChildInputLevel(p, i) == ChildInputLevel(p, j)
    ensures p.level == 0 && i < |p.in0| && j < |p.in0|
    ensures InputFiles(p, i) == [p.in0[i]] && InputFiles(p, j) == [p.in0[j]]
  {
  }

  /** An input entry is in one child only. */
  lemma InputChildrenDiffer(v: Levels, p: Pending, i: nat, j: nat, e: Entry)
    requires GoodVersion(v) && PendingOk(v, p) && InputsOrdered(p)
    requires i < |InputChildren(p)| && j < |InputChildren(p)|
    requires e in FileEntries(InputFiles(p, i)) && e in FileEntries(InputFiles(p, j))
    ensures i == j
  {
    hide GoodVersion, PendingOk, Disjoint, InputFiles, InputChildren, ChildInputLevel;
    var f :| f in InputFiles(p, i) && e in f.entries;
    var g :| g in InputFiles(p, j) && e in g.entries;
    InputFileLevel(v, p, i, f);
    InputFileLevel(v, p, j, g);
    EntryInOneFile(v, e, ChildInputLevel(p, i), f, ChildInputLevel(p, j), g);
    if i != j {
      SameInputLevel(p, i, j);
    }
  }

  lemma InputHasChild(p: Pending, e: Entry) returns (j: nat)
    requires e in InsEntries(p)
    ensures j < |InputChildren(p)| && e in FileEntries(InputFiles(p, j))
  {
    var f :| f in p.Ins() && e in f.entries;
    if f in p.in0 {
      if p.level == 0 {
        j :| 0 <= j < |p.in0| && p.in0[j] == f;
        assert f in [f];
      } else {
        j := 0;
      }
    } else {
      j := |InputChildren(p)| - 1;
      assert InputFiles(p, j) == p.in1;
    }
  }

  lemma ChildIsInput(p: Pending, j: nat, e: Entry)
    requires j < |InputChildren(p)| && e in FileEntries(InputFiles(p, j))
    ensures e in InsEntries(p)
  {
    var f :| f in InputFiles(p, j) && e in f.entries;
    assert f in p.Ins();
  }

  lemma InputsGood(v: Levels, p: Pending)
    requires GoodVersion(v) && PendingOk(v, p)
    ensures GoodFiles(p.in0) && GoodFiles(p.in1)
  {
    hide LeftNewer, Unbroken, ParentsApart, DeeperApart, Disjoint, SortedFiles, LevelsNewer, NewestByNumber;
  }

  /** The merging iterator over the inputs yields their entries, each once, in order. */
  lemma InputMerges(v: Levels, p: Pending)
    requires GoodVersion(v) && PendingOk(v, p) && InputsOrdered(p) && UniqueSeqs(VersionEntries(v))
    ensures Sorted(MergeAll(InputChildren(p)))
    ensures Elements(MergeAll(InputChildren(p))) == InsEntries(p)
  {
    hide GoodVersion, PendingOk, InputsOrdered, InputChildren, InputFiles, MergeAll, FileEntries;
    var cs := InputChildren(p);
    InputsGood(v, p);
    forall j | 0 <= j < |cs|
      ensures Sorted(cs[j])
      ensures forall e :: e in cs[j] <==> e in FileEntries(InputFiles(p, j))
    {
      InputChild(p, j);
    }
    InputKeysDistinct(v, p);
    MergeAllIsMerge(cs);
    forall e
      ensures e in Elements(MergeAll(cs)) <==> e in InsEntries(p)
    {
      if e in InsEntries(p) {
        var j := InputHasChild(p, e);
      }
      if e in MergeAll(cs) {
        var j :| 0 <= j < |cs| && e in cs[j];
        ChildIsInput(p, j, e);
      }
    }
  }

  lemma InputKeysDistinct(v: Levels, p: Pending)
    requires GoodVersion(v) && PendingOk(v, p) && InputsOrdered(p) && UniqueSeqs(VersionEntries(v))
    ensures KeysDistinct(InputChildren(p))
  {
    hide GoodVersion, PendingOk, InputChildren, InputFiles, FileEntries, VersionEntries;
    var cs := InputChildren(p);
    InputsGood(v, p);
    InsEntriesInVersion(v, p);
    forall i, j, x: Entry, y: Entry | 0 <= i < |cs| && 0 <= j < |cs| && x in cs[i] && y in cs[j] && x.k == y.k
      ensures i == j
    {
      InputChild(p, i);
      InputChild(p, j);
      ChildIsInput(p, i, x);
      ChildIsInput(p, j, y);
      assert x == y;
      InputChildrenDiffer(v, p, i, j, x);
    }
  }
}

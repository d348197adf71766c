/** The manifest over whole runs of the store: what recovery rebuilds from it. */
module ManifestRuns {
  import opened InternalKeys
  import opened Version
  import opened VersionBuilder
  import opened Install
  import opened InFlight
  import opened Picking
  import opened CompactionLoop
  import opened CompactionReads
  import opened Outputs
  import opened Boundary
  import opened Manifest
  import opened DbState
  import opened DbSteps
  import opened DbRuns

  /** The files one record of the manifest deletes and adds, level by level. */
  type Record = seq<LevelEdit>

  function NoChange(): (e: Record)
    ensures |e| == NUM_LEVELS && forall l | 0 <= l < NUM_LEVELS :: e[l] == LevelEdit({}, [])
  {
    seq(NUM_LEVELS, _ => LevelEdit({}, []))
  }

  /** The edit a step of the store logs, if it logs one. */
  ghost predicate IsRecord(a: Db, step: DbState.Step, e: Record) {
    match step
    case FlushStep(p, n) =>
      && a.imm.Some? && p < NUM_LEVELS
      && e == if a.imm.value == [] then NoChange() else NoChange()[p := LevelEdit({}, [n])]
    case FinishStep(_, _, outs) =>
      && a.pending.Some? && a.pending.value.level + 1 < NUM_LEVELS
      && var p := a.pending.value;
      && e == NoChange()[p.level := LevelEdit(Numbers(p.in0), [])][p.level + 1 := LevelEdit(Numbers(p.in1), outs)]
    case MoveStep(level, f) =>
      && level + 1 < NUM_LEVELS
      && e == NoChange()[level := LevelEdit({f.number}, [])][level + 1 := LevelEdit({}, [f])]
    case _ => false
  }

  ghost predicate LogsRecord(step: DbState.Step) {
    step.FlushStep? || step.FinishStep? || step.MoveStep?
  }

  /** WriteSnapshot. */
  function Snapshot(v: Levels): Record {
    seq(NUM_LEVELS, l requires 0 <= l < NUM_LEVELS => LevelEdit({}, if l < |v| then v[l] else []))
  }

  /** The manifest after a step: a restart begins a new one with a snapshot of the version it read and the
      tables it made of the logs; the other steps append at most one record. */
  ghost predicate NextManifest(a: Db, step: DbState.Step, m: seq<Record>, m': seq<Record>) {
    if step.CrashStep? then m' == [Snapshot(a.version), NoChange()[0 := LevelEdit({}, step.ts)]]
    else if LogsRecord(step) then m' != [] && m'[..|m'| - 1] == m && IsRecord(a, step, m'[|m'| - 1])
    else m' == m
  }

  ghost predicate ManifestLinked(states: seq<Db>, steps: seq<DbState.Step>, manifests: seq<seq<Record>>, i: nat)
    requires |states| == |steps| + 1 == |manifests| && i < |steps|
  {
    NextManifest(states[i], steps[i], manifests[i], manifests[i + 1])
  }

  /** The manifests of a run. */
  ghost predicate AreManifests(states: seq<Db>, steps: seq<DbState.Step>, manifests: seq<seq<Record>>) {
    && |states| == |steps| + 1 == |manifests|
    && manifests[0] == []
    && forall i | 0 <= i < |steps| :: ManifestLinked(states, steps, manifests, i)
  }

  /** What a manifest says about one level. */
  function AtLevel(m: seq<Record>, l: nat): seq<LevelEdit>
    requires l < NUM_LEVELS && forall e | e in m :: |e| == NUM_LEVELS
  {
    seq(|m|, i requires 0 <= i < |m| => m[i][l])
  }

  ghost predicate WellFormed(m: seq<Record>) {
    forall e | e in m :: |e| == NUM_LEVELS
  }

  /** The level `w` is `v` after the edit, whose additions are new. */
  ghost predicate Installs(v: seq<File>, w: seq<File>, e: LevelEdit) {
    && SortedFiles(v) && SortedFiles(w) && DistinctAdds(e)
    && Numbers(e.added) !! Numbers(v) && Numbers(e.added) !! e.deleted
    && forall f :: f in w <==> (f in v && f.number !in e.deleted) || f in e.added
  }

  lemma InstallsIsSave(v: seq<File>, w: seq<File>, e: LevelEdit)
    requires Installs(v, w, e)
    ensures SaveLevel(v, Apply(EMPTY_STATE, e)) == w
  {
    EditLevel(v, e);
    SortedFilesUnique(SaveLevel(v, Apply(EMPTY_STATE, e)), w);
  }

  // ---- The invariant: the manifest's records install the version, and a table only ever moves down.

  ghost predicate Rebuilds(m: seq<Record>, v: Levels)
    requires WellFormed(m)
  {
    && |v| == NUM_LEVELS
    && forall l | 0 <= l < NUM_LEVELS :: FreshAdds([], AtLevel(m, l)) && InstallAll([], AtLevel(m, l)) == v[l]
  }

  /** The number can be no new table's. */
  ghost predicate IsSpent(d: Db, k: nat) {
    k < d.nextFile && k !in d.pendingOutputs
  }

  ghost predicate NumbersUsed(m: seq<Record>, d: Db)
    requires WellFormed(m)
  {
    forall l: nat, k: nat | 0 <= l < NUM_LEVELS && k in AddedNumbers(AtLevel(m, l)) :: IsSpent(d, k)
  }

  ghost predicate OnlyDown(m: seq<Record>, v: Levels)
    requires WellFormed(m)
  {
    forall l, f, j | 0 <= l < |v| && f in v[l] && 0 <= j < NUM_LEVELS && f.number in AddedNumbers(AtLevel(m, j)) :: j <= l
  }

  ghost predicate ManifestInv(m: seq<Record>, d: Db) {
    WellFormed(m) && Rebuilds(m, d.version) && NumbersUsed(m, d) && OnlyDown(m, d.version)
  }

  lemma AtLevelExtends(m: seq<Record>, e: Record, l: nat)
    requires WellFormed(m) && |e| == NUM_LEVELS && l < NUM_LEVELS
    ensures WellFormed(m + [e]) && AtLevel(m + [e], l) == AtLevel(m, l) + [e[l]]
    ensures AddedNumbers(AtLevel(m + [e], l)) == AddedNumbers(AtLevel(m, l)) + Numbers(e[l].added)
  {
    var es := AtLevel(m, l) + [e[l]];
    assert es[..|es| - 1] == AtLevel(m, l);
    AddedNumbersSplit(es);
  }

  /** The record `e` suits the step from `v` to `w`. */
  ghost predicate Suits(m: seq<Record>, e: Record, v: Levels, w: Levels)
    requires WellFormed(m)
  {
    && |e| == NUM_LEVELS == |v| == |w|
    && (forall l | 0 <= l < NUM_LEVELS :: Installs(v[l], w[l], e[l]))
    && (forall l | 0 <= l < NUM_LEVELS :: Numbers(e[l].added) !! AddedNumbers(AtLevel(m, l)))
  }

  lemma RecordRebuilds(m: seq<Record>, e: Record, v: Levels, w: Levels)
    requires WellFormed(m) && Rebuilds(m, v) && Suits(m, e, v, w)
    ensures WellFormed(m + [e]) && Rebuilds(m + [e], w)
  {
    assert WellFormed(m + [e]);
    forall l | 0 <= l < NUM_LEVELS
      ensures FreshAdds([], AtLevel(m + [e], l)) && InstallAll([], AtLevel(m + [e], l)) == w[l]
    {
      hide InstallAll, FreshAdds, Installs, AddedNumbers, SaveLevel, Apply;
      AtLevelExtends(m, e, l);
      OneMoreAtLevel(AtLevel(m, l), e[l], v[l], w[l]);
    }
  }

  lemma OneMoreAtLevel(es: seq<LevelEdit>, e: LevelEdit, v: seq<File>, w: seq<File>)
    requires FreshAdds([], es) && InstallAll([], es) == v && Installs(v, w, e)
    requires Numbers(e.added) !! AddedNumbers(es)
    ensures FreshAdds([], es + [e]) && InstallAll([], es + [e]) == w
  {
    hide AddedNumbers, SaveLevel, Apply;
    var more := es + [e];
    assert more[..|more| - 1] == es;
    InstallsIsSave(v, w, e);
  }

  lemma RecordNumbers(m: seq<Record>, e: Record, a: Db, b: Db)
    requires WellFormed(m) && |e| == NUM_LEVELS && NumbersUsed(m, a)
    requires a.nextFile <= b.nextFile && b.pendingOutputs <= a.pendingOutputs
    requires forall l: nat, k: nat | 0 <= l < NUM_LEVELS && k in Numbers(e[l].added) :: IsSpent(b, k)
    ensures WellFormed(m + [e]) && NumbersUsed(m + [e], b)
  {
    assert WellFormed(m + [e]);
    forall l: nat, k: nat | 0 <= l < NUM_LEVELS && k in AddedNumbers(AtLevel(m + [e], l))
      ensures IsSpent(b, k)
    {
      hide AddedNumbers, Numbers, AtLevel;
      AtLevelExtends(m, e, l);
      assert k !in Numbers(e[l].added) ==> IsSpent(a, k);
    }
  }

  /** Where a file of the new version may have been added before. */
  ghost predicate DownAt(m: seq<Record>, e: Record, l: nat, f: File)
    requires WellFormed(m) && |e| == NUM_LEVELS
  {
    forall j | 0 <= j < NUM_LEVELS && (f.number in AddedNumbers(AtLevel(m, j)) || f.number in Numbers(e[j].added)) :: j <= l
  }

  lemma RecordOnlyDown(m: seq<Record>, e: Record, w: Levels)
    requires WellFormed(m) && |e| == NUM_LEVELS
    requires forall l, f | 0 <= l < |w| && f in w[l] :: DownAt(m, e, l, f)
    ensures WellFormed(m + [e]) && OnlyDown(m + [e], w)
  {
    assert WellFormed(m + [e]);
    forall l, f, j | 0 <= l < |w| && f in w[l] && 0 <= j < NUM_LEVELS && f.number in AddedNumbers(AtLevel(m + [e], j))
      ensures j <= l
    {
      AtLevelExtends(m, e, j);
      assert DownAt(m, e, l, f);
    }
  }

  // ---- Numbers of a level and of the version

  lemma LevelNumbers(v: Levels, l: nat)
    requires l < |v|
    ensures Numbers(v[l]) <= VersionNumbers(v)
  {
  }

  lemma OneNumber(n: File)
    ensures Numbers([n]) == {n.number} && Numbers([]) == {}
  {
  }

  /** Of the files of a version, a set of numbers picks exactly the files it came from. */
  lemma NumbersPick(v: Levels, l: nat, ins: seq<File>, f: File)
    requires UniqueNumbers(v) && l < |v| && f in v[l] && forall g | g in ins :: g in v[l]
    ensures f.number in Numbers(ins) <==> f in ins
  {
    if f.number in Numbers(ins) {
      var g :| g in ins && g.number == f.number;
    }
  }

  // ---- The steps

  lemma SortedLevels(d: Db)
    requires LsmInv(d)
    ensures |d.version| == NUM_LEVELS && forall l | 0 <= l < NUM_LEVELS :: SortedFiles(d.version[l])
  {
  }

  lemma RecordKeepsInv(m: seq<Record>, e: Record, a: Db, b: Db)
    requires ManifestInv(m, a) && Suits(m, e, a.version, b.version)
    requires a.nextFile <= b.nextFile && b.pendingOutputs <= a.pendingOutputs
    requires forall l: nat, k: nat | 0 <= l < NUM_LEVELS && k in Numbers(e[l].added) :: IsSpent(b, k)
    requires forall l, f | 0 <= l < |b.version| && f in b.version[l] :: DownAt(m, e, l, f)
    ensures ManifestInv(m + [e], b)
  {
    hide Rebuilds, NumbersUsed, OnlyDown, DownAt, Installs, Numbers;
    RecordRebuilds(m, e, a.version, b.version);
    RecordNumbers(m, e, a, b);
    RecordOnlyDown(m, e, b.version);
  }

  /** A number no record has used is new at every level. */
  lemma UnusedNumber(m: seq<Record>, d: Db, k: nat)
    requires WellFormed(m) && NumbersUsed(m, d) && (k >= d.nextFile || k in d.pendingOutputs)
    ensures forall l | 0 <= l < NUM_LEVELS :: k !in AddedNumbers(AtLevel(m, l))
  {
    hide AddedNumbers, AtLevel;
    forall l: nat | l < NUM_LEVELS
      ensures k !in AddedNumbers(AtLevel(m, l))
    {
      assert !IsSpent(d, k);
    }
  }

  lemma OldFileDown(m: seq<Record>, e: Record, v: Levels, l: nat, f: File)
    requires WellFormed(m) && |e| == NUM_LEVELS && OnlyDown(m, v) && l < |v| && f in v[l]
    requires forall j | 0 <= j < NUM_LEVELS :: f.number !in Numbers(e[j].added)
    ensures DownAt(m, e, l, f)
  {
    hide AddedNumbers, AtLevel, Numbers;
  }

  lemma NewFileDown(m: seq<Record>, e: Record, l: nat, f: File)
    requires WellFormed(m) && |e| == NUM_LEVELS && l < NUM_LEVELS
    requires forall j | 0 <= j < NUM_LEVELS :: f.number !in AddedNumbers(AtLevel(m, j))
    requires forall j | 0 <= j < NUM_LEVELS && j != l :: f.number !in Numbers(e[j].added)
    ensures DownAt(m, e, l, f)
  {
    hide AddedNumbers, AtLevel, Numbers;
  }

  lemma EmptyEdit(v: seq<File>, e: LevelEdit)
    requires SortedFiles(v) && e == LevelEdit({}, [])
    ensures Installs(v, v, e) && Numbers(e.added) == {}
  {
  }

  lemma AddOneInstalls(v: seq<File>, w: seq<File>, n: File)
    requires SortedFiles(v) && SortedFiles(w) && n.number !in Numbers(v)
    requires forall f :: f in w <==> f in v || f == n
    ensures Installs(v, w, LevelEdit({}, [n]))
  {
    OneNumber(n);
  }

  /** A record that changes nothing. */
  lemma IdleRecord(a: Db, b: Db, m: seq<Record>)
    requires LsmInv(a) && ManifestInv(m, a) && b.version == a.version
    requires a.nextFile <= b.nextFile && b.pendingOutputs <= a.pendingOutputs
    ensures ManifestInv(m + [NoChange()], b)
  {
    hide Rebuilds, NumbersUsed, OnlyDown, DownAt, Installs, Numbers, AddedNumbers, AtLevel, LsmInv, SortedFiles;
    var e := NoChange();
    SortedLevels(a);
    forall l | 0 <= l < NUM_LEVELS
      ensures Installs(a.version[l], b.version[l], e[l]) && Numbers(e[l].added) == {}
    {
      EmptyEdit(a.version[l], e[l]);
    }
    forall l, f | 0 <= l < |b.version| && f in b.version[l]
      ensures DownAt(m, e, l, f)
    {
      OldFileDown(m, e, a.version, l, f);
    }
    RecordKeepsInv(m, e, a, b);
  }

  lemma FlushLevel(a: Db, b: Db, p: nat, n: File, l: nat, e: Record)
    requires LsmInv(a) && LsmInv(b) && p < NUM_LEVELS && l < NUM_LEVELS
    requires Flushed(a.version, b.version, p, n) && n.number !in VersionNumbers(a.version)
    requires e == NoChange()[p := LevelEdit({}, [n])]
    ensures Installs(a.version[l], b.version[l], e[l])
    ensures Numbers(e[l].added) == if l == p then {n.number} else {}
  {
    hide LsmInv, SortedFiles, Installs, VersionNumbers, Numbers;
    SortedLevels(a);
    SortedLevels(b);
    OneNumber(n);
    if l == p {
      LevelNumbers(a.version, l);
      AddOneInstalls(a.version[l], b.version[l], n);
    } else {
      EmptyEdit(a.version[l], e[l]);
    }
  }

  lemma FlushRecord(a: Db, b: Db, p: nat, n: File, m: seq<Record>, e: Record)
    requires LsmInv(a) && LsmInv(b) && DbState.NumberInv(a) && ManifestInv(m, a)
    requires p < NUM_LEVELS && n.number == a.nextFile && Flushed(a.version, b.version, p, n)
    requires b.nextFile == a.nextFile + 1 && b.pendingOutputs == a.pendingOutputs
    requires e == NoChange()[p := LevelEdit({}, [n])]
    ensures ManifestInv(m + [e], b)
  {
    hide LsmInv, Rebuilds, NumbersUsed, OnlyDown, DownAt, Installs, Numbers, AddedNumbers, AtLevel, VersionNumbers, UniqueNumbers;
    SortedLevels(a);
    UnusedNumber(m, a, n.number);
    assert n.number !in VersionNumbers(a.version);
    forall l | 0 <= l < NUM_LEVELS
      ensures Installs(a.version[l], b.version[l], e[l])
      ensures Numbers(e[l].added) == if l == p then {n.number} else {}
    {
      FlushLevel(a, b, p, n, l, e);
    }
    assert IsSpent(b, n.number);
    forall l, f | 0 <= l < |b.version| && f in b.version[l]
      ensures DownAt(m, e, l, f)
    {
      if f in a.version[l] {
        FileNumber(a.version, l, f);
        OldFileDown(m, e, a.version, l, f);
      } else {
        NewFileDown(m, e, l, f);
      }
    }
    RecordKeepsInv(m, e, a, b);
  }

  lemma FileNumber(v: Levels, l: nat, f: File)
    requires l < |v| && f in v[l]
    ensures f.number in VersionNumbers(v)
  {
  }

  /** Replacing inputs, named by their numbers, by outputs. */
  lemma ReplaceLevel(v: Levels, w: Levels, l: nat, ins: seq<File>, outs: seq<File>)
    requires UniqueNumbers(v) && l < |v| == |w| && SortedFiles(v[l]) && SortedFiles(w[l])
    requires forall g | g in ins :: g in v[l]
    requires forall f :: f in w[l] <==> (f in v[l] && f !in ins) || f in outs
    requires DistinctAdds(LevelEdit(Numbers(ins), outs)) && Numbers(outs) !! VersionNumbers(v)
    ensures Installs(v[l], w[l], LevelEdit(Numbers(ins), outs))
  {
    hide UniqueNumbers, VersionNumbers, SortedFiles, DistinctAdds;
    LevelNumbers(v, l);
    assert Numbers(ins) <= Numbers(v[l]);
    forall f
      ensures f in w[l] <==> (f in v[l] && f.number !in Numbers(ins)) || f in outs
    {
      if f in v[l] {
        NumbersPick(v, l, ins, f);
      }
    }
  }

  lemma FinishLevel(a: Db, b: Db, p: Pending, outs: seq<File>, l: nat, e: Record)
    requires |a.version| == NUM_LEVELS == |b.version| && l < NUM_LEVELS && p.level + 1 < NUM_LEVELS
    requires (forall f | f in p.in0 :: f in a.version[p.level]) && (forall f | f in p.in1 :: f in a.version[p.level + 1])
    requires Replaced(a.version, b.version, p.level, p.in0, p.in1, outs)
    requires (forall f | f in outs :: f.number in a.pendingOutputs)
    requires forall i, j | 0 <= i < j < |outs| :: outs[i].number != outs[j].number
    requires e == NoChange()[p.level := LevelEdit(Numbers(p.in0), [])][p.level + 1 := LevelEdit(Numbers(p.in1), outs)]
    requires LsmInv(a) && LsmInv(b) && DbState.NumberInv(a)
    ensures Installs(a.version[l], b.version[l], e[l])
    ensures Numbers(e[l].added) == if l == p.level + 1 then Numbers(outs) else {}
  {
    hide LsmInv, SortedFiles, Installs, VersionNumbers, UniqueNumbers;
    SortedLevels(a);
    SortedLevels(b);
    if l == p.level {
      ReplaceLevel(a.version, b.version, l, p.in0, []);
    } else if l == p.level + 1 {
      ReplaceLevel(a.version, b.version, l, p.in1, outs);
    } else {
      EmptyEdit(a.version[l], e[l]);
    }
  }

  lemma FinishRecord(a: Db, b: Db, p: Pending, outs: seq<File>, m: seq<Record>, e: Record)
    requires |a.version| == NUM_LEVELS == |b.version| && p.level + 1 < NUM_LEVELS
    requires LsmInv(a) && LsmInv(b) && DbState.NumberInv(a) && ManifestInv(m, a)
    requires (forall f | f in p.in0 :: f in a.version[p.level]) && (forall f | f in p.in1 :: f in a.version[p.level + 1])
    requires Replaced(a.version, b.version, p.level, p.in0, p.in1, outs)
    requires (forall f | f in outs :: f.number in a.pendingOutputs)
    requires forall i, j | 0 <= i < j < |outs| :: outs[i].number != outs[j].number
    requires b.nextFile == a.nextFile && b.pendingOutputs == {}
    requires e == NoChange()[p.level := LevelEdit(Numbers(p.in0), [])][p.level + 1 := LevelEdit(Numbers(p.in1), outs)]
    ensures ManifestInv(m + [e], b)
  {
    hide LsmInv, Rebuilds, NumbersUsed, OnlyDown, DownAt, Installs, Numbers, AddedNumbers, AtLevel, VersionNumbers, UniqueNumbers;
    SortedLevels(a);
    forall l | 0 <= l < NUM_LEVELS
      ensures Installs(a.version[l], b.version[l], e[l])
      ensures Numbers(e[l].added) == if l == p.level + 1 then Numbers(outs) else {}
    {
      FinishLevel(a, b, p, outs, l, e);
    }
    forall k | k in Numbers(outs)
      ensures k in a.pendingOutputs && IsSpent(b, k)
    {
      NumberOf(outs, k);
    }
    forall l, f | 0 <= l < |b.version| && f in b.version[l]
      ensures DownAt(m, e, l, f)
    {
      if f in a.version[l] {
        FileNumber(a.version, l, f);
        OldFileDown(m, e, a.version, l, f);
      } else {
        UnusedNumber(m, a, f.number);
        NewFileDown(m, e, l, f);
      }
    }
    forall l | 0 <= l < NUM_LEVELS
      ensures Numbers(e[l].added) !! AddedNumbers(AtLevel(m, l))
    {
      forall k | k in Numbers(e[l].added)
        ensures k !in AddedNumbers(AtLevel(m, l))
      {
        UnusedNumber(m, a, k);
      }
    }
    RecordKeepsInv(m, e, a, b);
  }

  lemma NumberOf(fs: seq<File>, k: nat)
    requires k in Numbers(fs)
    ensures exists f :: f in fs && f.number == k
  {
  }

  lemma MoveLevel(a: Db, b: Db, level: nat, f: File, l: nat, e: Record)
    requires LsmInv(a) && LsmInv(b) && DbState.NumberInv(a) && l < NUM_LEVELS && level + 1 < NUM_LEVELS
    requires f in a.version[level] && Replaced(a.version, b.version, level, [f], [], [f])
    requires e == NoChange()[level := LevelEdit({f.number}, [])][level + 1 := LevelEdit({}, [f])]
    ensures Installs(a.version[l], b.version[l], e[l])
    ensures Numbers(e[l].added) == if l == level + 1 then {f.number} else {}
  {
    hide LsmInv, SortedFiles, Installs, VersionNumbers, UniqueNumbers, Numbers;
    SortedLevels(a);
    SortedLevels(b);
    OneNumber(f);
    if l == level {
      assert f in [f];
      NothingAdded(a.version);
      ReplaceLevel(a.version, b.version, l, [f], []);
    } else if l == level + 1 {
      NotBelow(a.version, level, f);
      MovedBelow(a.version, b.version, level, l, f);
      AddOneInstalls(a.version[l], b.version[l], f);
    } else {
      EmptyEdit(a.version[l], e[l]);
    }
  }

  lemma MovedBelow(v: Levels, w: Levels, level: nat, l: nat, f: File)
    requires Replaced(v, w, level, [f], [], [f]) && l == level + 1
    ensures forall g :: g in w[l] <==> g in v[l] || g == f
  {
    hide SortedFiles;
    forall g
      ensures g in w[l] <==> g in v[l] || g == f
    {
      assert g in [f] <==> g == f;
    }
  }

  lemma NothingAdded(v: Levels)
    ensures Numbers([]) !! VersionNumbers(v)
  {
  }

  lemma NotBelow(v: Levels, level: nat, f: File)
    requires UniqueNumbers(v) && level + 1 < |v| && f in v[level]
    ensures f.number !in Numbers(v[level + 1])
  {
    hide UniqueNumbers;
    forall g | g in v[level + 1]
      ensures g.number != f.number
    {
      if g.number == f.number {
        SameNumberSameFile(v, level + 1, g, level, f);
      }
    }
  }

  lemma MoveRecord(a: Db, b: Db, level: nat, f: File, m: seq<Record>, e: Record)
    requires LsmInv(a) && LsmInv(b) && DbState.NumberInv(a) && ManifestInv(m, a) && level + 1 < NUM_LEVELS
    requires f in a.version[level] && Replaced(a.version, b.version, level, [f], [], [f])
    requires b.nextFile == a.nextFile && b.pendingOutputs == a.pendingOutputs
    requires e == NoChange()[level := LevelEdit({f.number}, [])][level + 1 := LevelEdit({}, [f])]
    ensures ManifestInv(m + [e], b)
  {
    hide LsmInv, Rebuilds, NumbersUsed, OnlyDown, DownAt, Installs, Numbers, AddedNumbers, AtLevel, VersionNumbers, UniqueNumbers;
    SortedLevels(a);
    FileNumber(a.version, level, f);
    forall l | 0 <= l < NUM_LEVELS
      ensures Installs(a.version[l], b.version[l], e[l])
      ensures Numbers(e[l].added) == if l == level + 1 then {f.number} else {}
    {
      MoveLevel(a, b, level, f, l, e);
    }
    assert IsSpent(b, f.number);
    MovedOnlyDown(m, a.version, level, f);
    forall l, g | 0 <= l < |b.version| && g in b.version[l]
      ensures DownAt(m, e, l, g)
    {
      if l == level + 1 && g == f {
        MovedFileDown(m, e, a.version, level, f);
      } else {
        assert l == level + 1 ==> g !in [f];
        assert l == level ==> g != f by {
          assert f in [f];
        }
        assert g in a.version[l];
        if g.number == f.number {
          SameNumberSameFile(a.version, l, g, level, f);
        }
        OldFileDown(m, e, a.version, l, g);
      }
    }
    RecordKeepsInv(m, e, a, b);
  }

  /** A file that moves down was never added below its level. */
  lemma MovedOnlyDown(m: seq<Record>, v: Levels, level: nat, f: File)
    requires WellFormed(m) && OnlyDown(m, v) && level + 1 < |v| && |v| == NUM_LEVELS && f in v[level]
    ensures f.number !in AddedNumbers(AtLevel(m, level + 1))
  {
    hide AddedNumbers, AtLevel;
  }

  lemma MovedFileDown(m: seq<Record>, e: Record, v: Levels, level: nat, f: File)
    requires WellFormed(m) && |e| == NUM_LEVELS && OnlyDown(m, v) && level + 1 < |v| == NUM_LEVELS && f in v[level]
    requires forall j | 0 <= j < NUM_LEVELS && j != level + 1 :: f.number !in Numbers(e[j].added)
    ensures DownAt(m, e, level + 1, f)
  {
    hide AddedNumbers, AtLevel, Numbers;
  }

  // ---- A new manifest

  lemma SnapshotInstalls(v: seq<File>)
    requires SortedFiles(v) && forall i, j | 0 <= i < j < |v| :: v[i].number != v[j].number
    ensures Installs([], v, LevelEdit({}, v))
  {
  }

  lemma LevelDistinct(v: Levels, l: nat)
    requires UniqueNumbers(v) && l < |v| && SortedFiles(v[l])
    ensures forall i, j | 0 <= i < j < |v[l]| :: v[l][i].number != v[l][j].number
  {
    hide UniqueNumbers, SortedFiles;
    forall i, j | 0 <= i < j < |v[l]|
      ensures v[l][i].number != v[l][j].number
    {
      SortedDiffer(v[l], i, j);
      if v[l][i].number == v[l][j].number {
        SameNumberSameFile(v, l, v[l][i], l, v[l][j]);
      }
    }
  }

  lemma SortedDiffer(fs: seq<File>, i: nat, j: nat)
    requires SortedFiles(fs) && i < j < |fs|
    ensures fs[i] != fs[j]
  {
    assert BySmallest(fs[i], fs[j]);
  }

  /** Before its first record a manifest rebuilds the empty version. */
  lemma EmptyManifest(d: Db)
    requires |d.version| == NUM_LEVELS && forall l | 0 <= l < NUM_LEVELS :: d.version[l] == []
    ensures ManifestInv([], d)
  {
    forall l: nat | l < NUM_LEVELS
      ensures AtLevel([], l) == []
    {
    }
  }

  lemma SnapshotRecord(a: Db)
    requires LsmInv(a) && DbState.NumberInv(a)
    ensures WellFormed([Snapshot(a.version)]) && Rebuilds([Snapshot(a.version)], a.version)
    ensures forall l | 0 <= l < NUM_LEVELS :: AddedNumbers(AtLevel([Snapshot(a.version)], l)) == Numbers(a.version[l])
  {
    hide UniqueNumbers, LsmInv, VersionNumbers, Installs;
    SortedLevels(a);
    var e := Snapshot(a.version);
    var blank := a.(version := seq(NUM_LEVELS, _ => []));
    EmptyManifest(blank);
    forall l | 0 <= l < NUM_LEVELS
      ensures Installs(blank.version[l], a.version[l], e[l])
      ensures Numbers(e[l].added) !! AddedNumbers(AtLevel([], l))
    {
      LevelDistinct(a.version, l);
      SnapshotInstalls(a.version[l]);
    }
    RecordRebuilds([], e, blank.version, a.version);
    assert [] + [e] == [e];
    forall l: nat | l < NUM_LEVELS
      ensures AddedNumbers(AtLevel([e], l)) == Numbers(a.version[l])
    {
      AtLevelExtends([], e, l);
    }
  }

  lemma CrashLevel(a: Db, w: Levels, ts: seq<File>, l: nat, e: LevelEdit)
    requires LsmInv(a) && DbState.NumberInv(a) && l < NUM_LEVELS && FlushedAll(a.version, w, ts)
    requires (forall f | f in ts :: a.manifestNext <= f.number)
    requires forall i, j | 0 <= i < j < |ts| :: ts[i].number < ts[j].number
    requires e == LevelEdit({}, if l == 0 then ts else [])
    ensures Installs(a.version[l], w[l], e)
    ensures Numbers(e.added) !! Numbers(a.version[l])
  {
    hide UniqueNumbers, LsmInv, SortedFiles;
    SortedLevels(a);
    LevelNumbers(a.version, l);
  }

  lemma CrashManifest(a: Db, b: Db, ts: seq<File>)
    requires LsmInv(a) && DbState.NumberInv(a) && FlushedAll(a.version, b.version, ts)
    requires (forall f | f in ts :: a.manifestNext <= f.number < b.nextFile)
    requires forall i, j | 0 <= i < j < |ts| :: ts[i].number < ts[j].number
    requires a.manifestNext <= b.nextFile && b.pendingOutputs == {}
    ensures ManifestInv([Snapshot(a.version), NoChange()[0 := LevelEdit({}, ts)]], b)
  {
    hide UniqueNumbers, LsmInv, SortedFiles, FlushedAll, Rebuilds, Installs, DownAt, AddedNumbers, AtLevel, Numbers, VersionNumbers;
    var s, e := Snapshot(a.version), NoChange()[0 := LevelEdit({}, ts)];
    var blank := a.(version := seq(NUM_LEVELS, _ => []));
    SortedLevels(a);
    SnapshotRecord(a);
    FlushedLength(a.version, b.version, ts);
    forall l | 0 <= l < NUM_LEVELS
      ensures Installs(a.version[l], b.version[l], e[l]) && Numbers(e[l].added) !! AddedNumbers(AtLevel([s], l))
    {
      CrashLevel(a, b.version, ts, l, e[l]);
    }
    RecordRebuilds([s], e, a.version, b.version);
    assert [s] + [e] == [s, e];
    CrashNumbers(a, b, s, e, ts);
    CrashOnlyDown(a, b, s, e, ts);
  }

  lemma FlushedLength(v: Levels, w: Levels, ts: seq<File>)
    requires FlushedAll(v, w, ts)
    ensures |w| == |v|
  {
  }

  lemma CrashNumbers(a: Db, b: Db, s: Record, e: Record, ts: seq<File>)
    requires DbState.NumberInv(a) && |s| == NUM_LEVELS == |e| == |a.version|
    requires WellFormed([s]) && forall l | 0 <= l < NUM_LEVELS :: AddedNumbers(AtLevel([s], l)) == Numbers(a.version[l])
    requires e == NoChange()[0 := LevelEdit({}, ts)]
    requires (forall f | f in ts :: f.number < b.nextFile) && a.manifestNext <= b.nextFile && b.pendingOutputs == {}
    ensures WellFormed([s] + [e]) && NumbersUsed([s] + [e], b)
  {
    hide UniqueNumbers, AddedNumbers, AtLevel;
    assert WellFormed([s] + [e]);
    forall l: nat, k: nat | l < NUM_LEVELS && k in AddedNumbers(AtLevel([s] + [e], l))
      ensures IsSpent(b, k)
    {
      AtLevelExtends([s], e, l);
      LevelNumbers(a.version, l);
    }
  }

  lemma CrashOnlyDown(a: Db, b: Db, s: Record, e: Record, ts: seq<File>)
    requires DbState.NumberInv(a) && |s| == NUM_LEVELS == |e| == |a.version| && FlushedAll(a.version, b.version, ts)
    requires WellFormed([s]) && forall l | 0 <= l < NUM_LEVELS :: AddedNumbers(AtLevel([s], l)) == Numbers(a.version[l])
    requires e == NoChange()[0 := LevelEdit({}, ts)]
    requires forall f | f in ts :: a.manifestNext <= f.number
    ensures WellFormed([s] + [e]) && OnlyDown([s] + [e], b.version)
  {
    hide UniqueNumbers, AddedNumbers, AtLevel, Numbers, VersionNumbers;
    forall l, f | 0 <= l < |b.version| && f in b.version[l]
      ensures DownAt([s], e, l, f)
    {
      hide FlushedAll;
      CrashFileFrom(a.version, b.version, ts, l, f);
      forall j: nat | j < NUM_LEVELS && (f.number in AddedNumbers(AtLevel([s], j)) || f.number in Numbers(e[j].added))
        ensures j <= l
      {
        OneSource(a, ts, e, l, f, j);
      }
    }
    RecordOnlyDown([s], e, b.version);
  }

  lemma CrashFileFrom(v: Levels, w: Levels, ts: seq<File>, l: nat, f: File)
    requires FlushedAll(v, w, ts) && l < |w| && f in w[l]
    ensures |w| == |v| && (f in v[l] || (l == 0 && f in ts))
  {
  }

  lemma OneSource(a: Db, ts: seq<File>, e: Record, l: nat, f: File, j: nat)
    requires DbState.NumberInv(a) && |a.version| == NUM_LEVELS && l < NUM_LEVELS && j < NUM_LEVELS
    requires f in a.version[l] || (l == 0 && f in ts)
    requires forall t | t in ts :: a.manifestNext <= t.number
    requires e == NoChange()[0 := LevelEdit({}, ts)]
    requires f.number in Numbers(a.version[j]) || f.number in Numbers(e[j].added)
    ensures j <= l
  {
    hide UniqueNumbers, VersionNumbers;
    if j > 0 {
      var g :| g in a.version[j] && g.number == f.number;
      FileNumber(a.version, j, g);
      if f in a.version[l] {
        SameNumberSameFile(a.version, j, g, l, f);
      }
    }
  }

  // ---- Whole runs

  /** The parts of the store's invariant used here. */
  ghost predicate Sound(a: Db, b: Db, m: seq<Record>) {
    && |a.version| == NUM_LEVELS == |b.version|
    && LsmInv(a) && LsmInv(b) && DbState.NumberInv(a) && PendingInv(a) && ManifestInv(m, a)
  }

  lemma FlushKeepsManifest(a: Db, b: Db, p: nat, n: File, m: seq<Record>, e: Record)
    requires Sound(a, b, m) && CompactMemTable(a, b, p, n) && IsRecord(a, FlushStep(p, n), e)
    ensures ManifestInv(m + [e], b)
  {
    hide LsmInv, PendingInv, DbState.NumberInv, ManifestInv, Flushed, IsTableOf, UserApart;
    if a.imm.value == [] {
      IdleRecord(a, b, m);
    } else {
      FlushRecord(a, b, p, n, m, e);
    }
  }

  lemma FinishKeepsManifest(a: Db, b: Db, input: seq<Entry>, outputs: seq<seq<Entry>>, outs: seq<File>, m: seq<Record>, e: Record)
    requires Sound(a, b, m) && FinishCompaction(a, b, input, outputs, outs) && IsRecord(a, FinishStep(input, outputs, outs), e)
    ensures ManifestInv(m + [e], b)
  {
    hide LsmInv, PendingInv, DbState.NumberInv, ManifestInv, Replaced, Sorted, Elements, InsEntries, Flatten, Survivors, AreTables, Numbers;
    PendingInputs(a);
    FinishRecord(a, b, a.pending.value, outs, m, e);
  }

  lemma MoveKeepsManifest(a: Db, b: Db, level: nat, f: File, m: seq<Record>, e: Record)
    requires Sound(a, b, m) && TrivialMove(a, b, level, f) && IsRecord(a, MoveStep(level, f), e)
    ensures ManifestInv(m + [e], b)
  {
    hide LsmInv, PendingInv, DbState.NumberInv, ManifestInv, Replaced, GoodInputs;
    MovedFile(a, b, level, f);
    MoveRecord(a, b, level, f, m, e);
  }

  lemma CrashKeepsManifest(a: Db, b: Db, extra: seq<Op>, replay: seq<nat>, chunks: seq<seq<Entry>>, ts: seq<File>)
    requires LsmInv(a) && DbState.NumberInv(a) && CrashAndRecover(a, b, extra, replay, chunks, ts)
    ensures ManifestInv([Snapshot(a.version), NoChange()[0 := LevelEdit({}, ts)]], b)
  {
    hide LsmInv, DbState.NumberInv, ManifestInv, FlushedAll, Replays, IsMaxSequence, Flatten, Stamp, CrashLogs, Elements;
    CrashManifest(a, b, ts);
  }

  lemma QuietKeepsManifest(a: Db, b: Db, step: DbState.Step, m: seq<Record>)
    requires DbState.Next(a, b, step) && !LogsRecord(step) && !step.CrashStep? && ManifestInv(m, a)
    ensures ManifestInv(m, b)
  {
    hide ManifestInv, Stamp, MemAddAll, GoodInputs, NoBoundary;
    NothingLogged(a, b, m);
  }

  lemma SoundParts(a: Db, b: Db, m: seq<Record>)
    requires DbState.Inv(a) && DbState.Inv(b) && ManifestInv(m, a)
    ensures Sound(a, b, m)
  {
    hide LsmInv, HistoryInv, SnapshotInv, PendingInv, DbState.NumberInv, LogInv, DiskInv, ManifestInv;
    SortedLevels(a);
    SortedLevels(b);
  }

  lemma StepKeepsManifest(a: Db, b: Db, step: DbState.Step, m: seq<Record>, m': seq<Record>)
    requires DbState.Inv(a) && DbState.Inv(b) && DbState.Next(a, b, step)
    requires ManifestInv(m, a) && NextManifest(a, step, m, m')
    ensures ManifestInv(m', b)
  {
    hide DbState.Inv, ManifestInv, IsRecord, Sound, CompactMemTable, FinishCompaction, TrivialMove, CrashAndRecover, Snapshot;
    SoundParts(a, b, m);
    if step.CrashStep? {
      InvParts(a);
      CrashKeepsManifest(a, b, step.extra, step.replay, step.chunks, step.ts);
    } else if LogsRecord(step) {
      var e := m'[|m'| - 1];
      assert m' == m + [e];
      if step.FlushStep? {
        FlushKeepsManifest(a, b, step.p, step.n, m, e);
      } else if step.FinishStep? {
        FinishKeepsManifest(a, b, step.input, step.outputs, step.outs, m, e);
      } else {
        MoveKeepsManifest(a, b, step.level, step.f, m, e);
      }
    } else {
      QuietKeepsManifest(a, b, step, m);
    }
  }

  lemma PendingInputs(a: Db)
    requires PendingInv(a) && a.pending.Some?
    ensures var p := a.pending.value;
            && p.level + 1 < |a.version|
            && (forall f | f in p.in0 :: f in a.version[p.level]) && (forall f | f in p.in1 :: f in a.version[p.level + 1])
  {
  }

  lemma MovedFile(a: Db, b: Db, level: nat, f: File)
    requires TrivialMove(a, b, level, f)
    ensures level + 1 < |a.version| && f in a.version[level]
  {
    assert f in [f];
  }

  lemma NothingLogged(a: Db, b: Db, m: seq<Record>)
    requires ManifestInv(m, a) && b.version == a.version && a.nextFile <= b.nextFile
    requires forall k | k in b.pendingOutputs :: k in a.pendingOutputs || k >= a.nextFile
    ensures ManifestInv(m, b)
  {
    hide AddedNumbers, AtLevel, Rebuilds, OnlyDown;
    forall l: nat, k: nat | l < NUM_LEVELS && k in AddedNumbers(AtLevel(m, l))
      ensures IsSpent(b, k)
    {
      assert IsSpent(a, k);
    }
  }

  lemma {:induction false} ManifestKeepsInv(states: seq<Db>, steps: seq<DbState.Step>, log: nat, manifests: seq<seq<Record>>, n: nat)
    requires DbRuns.IsRun(states, steps, log) && AreManifests(states, steps, manifests) && n < |states|
    ensures ManifestInv(manifests[n], states[n])
  {
    hide DbState.Inv, DbState.Next, ManifestInv, NextManifest;
    if n == 0 {
      EmptyManifest(states[0]);
    } else {
      ManifestKeepsInv(states, steps, log, manifests, n - 1);
      DbRuns.RunKeepsInv(states, steps, log, n - 1);
      DbRuns.RunKeepsInv(states, steps, log, n);
      assert DbRuns.LinkedAt(states, steps, n - 1);
      assert ManifestLinked(states, steps, manifests, n - 1);
      StepKeepsManifest(states[n - 1], states[n], steps[n - 1], manifests[n - 1], manifests[n]);
    }
  }

  /** What recovery makes of a manifest: all its edits in one builder over no files, saved once. */
  function Recovered(m: seq<Record>, l: nat): seq<File>
    requires l < NUM_LEVELS && WellFormed(m)
  {
    SaveLevel([], ApplyAll(EMPTY_STATE, AtLevel(m, l)))
  }

  /** Main result: in every state of every run, recovery from the manifest rebuilds exactly the current version,
      level by level, and every table it names has a number below the recovered next file number. */
  lemma ManifestRebuildsVersion(states: seq<Db>, steps: seq<DbState.Step>, log: nat, manifests: seq<seq<Record>>, n: nat, l: nat)
    requires DbRuns.IsRun(states, steps, log) && AreManifests(states, steps, manifests) && n < |states| && l < NUM_LEVELS
    ensures WellFormed(manifests[n]) && |states[n].version| == NUM_LEVELS
    ensures Recovered(manifests[n], l) == states[n].version[l]
    ensures forall f | f in states[n].version[l] :: f.number < states[n].manifestNext
  {
    hide DbState.Next, NextManifest, LsmInv, HistoryInv, SnapshotInv, PendingInv, LogInv, DiskInv, UniqueNumbers, NumbersUsed, OnlyDown;
    ManifestKeepsInv(states, steps, log, manifests, n);
    DbRuns.RunKeepsInv(states, steps, log, n);
    ReplayRebuildsLevel([], AtLevel(manifests[n], l));
    forall f | f in states[n].version[l]
      ensures f.number < states[n].manifestNext
    {
      FileNumber(states[n].version, l, f);
    }
  }

  /** No run writes a manifest that is replayed wrongly, wherever it is cut: numbers keep their files. */
  lemma ManifestKeepsNumbers(states: seq<Db>, steps: seq<DbState.Step>, log: nat, manifests: seq<seq<Record>>, n: nat, l: nat)
    requires DbRuns.IsRun(states, steps, log) && AreManifests(states, steps, manifests) && n < |states| && l < NUM_LEVELS
    ensures WellFormed(manifests[n])
    ensures AddsAbsent([], AtLevel(manifests[n], l)) && NumbersKeepFiles([], AtLevel(manifests[n], l))
    ensures forall k | 0 <= k <= |AtLevel(manifests[n], l)| :: ReplayRebuilds([], AtLevel(manifests[n], l)[..k])
  {
    hide DbRuns.LinkedAt, DbState.Init, NextManifest, NumbersUsed, OnlyDown, AddsAbsent, NumbersKeepFiles, ReplayRebuilds, FreshAdds, InstallAll;
    ManifestKeepsInv(states, steps, log, manifests, n);
    FreshIsAbsent([], AtLevel(manifests[n], l));
    ReplayRebuildsIff([], AtLevel(manifests[n], l));
  }
}

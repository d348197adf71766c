/** Where a memtable's table goes. */
module FlushPlacement {
  import opened InternalKeys
  import opened Version
  import opened Inputs
  import opened Picking
  import opened Install

  /** Memtable output is pushed no deeper than this. */
  const MAX_MEM_COMPACT_LEVEL: nat := 2

  ghost predicate SequencesBounded(v: Levels) {
    forall l, f, e | 0 <= l < |v| && f in v[l] && e in f.entries :: e.k.sn <= MAX_SEQUENCE
  }

  lemma NoOverlapMeansApart(fs: seq<File>, n: File)
    requires !exists f :: f in fs && Overlaps(f, At(n.smallest.user), At(n.largest.user))
    ensures forall f | f in fs :: UserApart(f, n)
  {
    forall f | f in fs
      ensures UserApart(f, n)
    {
      assert !Overlaps(f, At(n.smallest.user), At(n.largest.user));
    }
  }

  lemma LevelFacts(v: Levels, l: nat)
    requires GoodVersion(v) && SequencesBounded(v) && l < NUM_LEVELS
    ensures |v| == NUM_LEVELS && GoodFiles(v[l]) && (l > 0 ==> Disjoint(v[l]))
    ensures forall f, e | f in v[l] && e in f.entries :: e.k.sn <= MAX_SEQUENCE
  {
    hide GoodFiles, SortedFiles, Disjoint, LevelsNewer, NewestByNumber;
  }

  /** Pushing `n` on to level `l + 1` would meet a file there, or too many bytes one level further down. */
  ghost predicate Blocked(v: Levels, l: nat, n: File, maxGrandparentOverlap: nat)
    requires l + 2 < |v|
  {
    || (exists f :: f in v[l + 1] && !UserApart(f, n))
    || TotalFileSize(Overlapping(v[l + 2], At(n.smallest.user), At(n.largest.user))) > maxGrandparentOverlap
  }

  lemma OverlapMeansNotApart(fs: seq<File>, n: File)
    requires exists f :: f in fs && Overlaps(f, At(n.smallest.user), At(n.largest.user))
    ensures exists f :: f in fs && !UserApart(f, n)
  {
    var f :| f in fs && Overlaps(f, At(n.smallest.user), At(n.largest.user));
    assert !UserApart(f, n);
  }

  lemma StopsHere(v: Levels, l: nat, n: File, maxGrandparentOverlap: nat)
    requires l + 2 < |v|
    ensures Blocked(v, l, n, maxGrandparentOverlap)
            <==> (exists f :: f in v[l + 1] && !UserApart(f, n))
                 || TotalFileSize(Overlapping(v[l + 2], At(n.smallest.user), At(n.largest.user))) > maxGrandparentOverlap
  {
  }

  /** Version::PickLevelForMemTableOutput for the table `n`: down while nothing is met, from level 0 to level 2 at most. */
  method PickLevelForMemTableOutput(v: Levels, n: File, maxGrandparentOverlap: nat) returns (level: nat)
    requires GoodVersion(v) && SequencesBounded(v) && GoodFile(n)
    ensures level <= MAX_MEM_COMPACT_LEVEL
    ensures level > 0 ==> forall l, f | 0 <= l <= level && f in v[l] :: UserApart(f, n)
    ensures (exists f :: f in v[0] && !UserApart(f, n)) ==> level == 0
    ensures forall l | 0 <= l < level :: !Blocked(v, l, n, maxGrandparentOverlap)
    ensures level < MAX_MEM_COMPACT_LEVEL ==>
              Blocked(v, level, n, maxGrandparentOverlap) || exists f :: f in v[0] && !UserApart(f, n)
  {
    hide GoodVersion, GoodFiles, SequencesBounded, Disjoint, Overlaps, ClosedRange, Overlapping, RangeIncludes, NoGaps, Proper, Blocked, UserApart;
    FileBounds(n, n.entries[0]);
    LevelFacts(v, 0);
    var begin, end := At(n.smallest.user), At(n.largest.user);
    level := 0;
    var overlap := SomeFileOverlapsRange(false, v[0], begin, end);
    if overlap {
      OverlapMeansNotApart(v[0], n);
    } else {
      NoOverlapMeansApart(v[0], n);
      while level < MAX_MEM_COMPACT_LEVEL
        invariant level <= MAX_MEM_COMPACT_LEVEL
        invariant forall l, f | 0 <= l <= level && f in v[l] :: UserApart(f, n)
        invariant forall l | 0 <= l < level :: !Blocked(v, l, n, maxGrandparentOverlap)
      {
        LevelFacts(v, level + 1);
        overlap := SomeFileOverlapsRange(true, v[level + 1], begin, end);
        if overlap {
          OverlapMeansNotApart(v[level + 1], n);
          StopsHere(v, level, n, maxGrandparentOverlap);
          break;
        }
        NoOverlapMeansApart(v[level + 1], n);
        if level + 2 < NUM_LEVELS {
          LevelFacts(v, level + 2);
          GoodFilesAreProper(v[level + 2]);
          var overlaps, b, e := GetOverlappingInputs(level + 2, v[level + 2], begin, end);
          StopsHere(v, level, n, maxGrandparentOverlap);
          if TotalFileSize(overlaps) > maxGrandparentOverlap {
            break;
          }
        }
        level := level + 1;
      }
    }
  }
}

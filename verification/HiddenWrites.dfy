/** A manual compaction over a gap that a flush fills: the flushed key is in the store and is not found. */
module HiddenWrites {
  import opened InternalKeys
  import opened Mvcc
  import opened Version
  import opened Inputs
  import opened Boundary
  import opened Picking
  import opened DropRules
  import opened CompactionLoop
  import opened Outputs
  import opened Install
  import opened Lookup
  import opened FlushPlacement
  import opened ManualCompaction
  import Resurrection

  // ---- Files with nothing between keys 1 and 5 on levels 1 and 2

  const OLD1 := Entry(InternalKey(1.0, 1, Put), "")
  const OLD5 := Entry(InternalKey(5.0, 2, Put), "")
  const NEW1 := Entry(InternalKey(1.0, 3, Put), "")
  const NEW5 := Entry(InternalKey(5.0, 4, Put), "")
  /** Written and flushed while the compaction runs. */
  const MISSED := Entry(InternalKey(3.0, 5, Put), "")

  function OneEntry(number: nat, e: Entry): (f: File)
    ensures GoodFile(f)
  {
    File(number, 1, e.k, e.k, [e])
  }

  const A1 := OneEntry(7, NEW1)
  const A5 := OneEntry(9, NEW5)
  const B1 := OneEntry(3, OLD1)
  const B5 := OneEntry(5, OLD5)
  const GAP := OneEntry(11, MISSED)
  /** What compacting the four files makes. */
  const OUTPUT := File(12, 1, NEW1.k, NEW5.k, [NEW1, NEW5])

  /** The version the manual compaction starts from. */
  function Start(): Levels {
    Resurrection.Levels12([A1, A5], [B1, B5])
  }

  function Flush(): Levels {
    Resurrection.Levels12([A1, A5], [B1, GAP, B5])
  }

  function Finish(): Levels {
    Resurrection.Levels12([], [OUTPUT, GAP])
  }

  lemma Order()
    ensures Before(NEW1.k, OLD1.k) && Before(OLD1.k, MISSED.k) && Before(MISSED.k, NEW5.k) && Before(NEW5.k, OLD5.k)
    ensures Before(NEW1.k, MISSED.k) && Before(NEW1.k, NEW5.k) && Before(OLD1.k, OLD5.k) && Before(MISSED.k, OLD5.k)
    ensures Before(NEW1.k, OLD5.k) && Before(OLD1.k, NEW5.k)
  {
    assert Tag(NEW1.k) == 3 * 256 + 1 && Tag(OLD1.k) == 256 + 1 && Tag(NEW5.k) == 4 * 256 + 1 && Tag(OLD5.k) == 2 * 256 + 1;
  }

  lemma TwoApart(a: File, b: File)
    requires GoodFile(a) && GoodFile(b) && Before(a.largest, b.smallest) && Before(a.smallest, b.smallest)
    ensures GoodFiles([a, b]) && Disjoint([a, b]) && SortedFiles([a, b])
  {
  }

  lemma ThreeApart(a: File, b: File, c: File)
    requires GoodFile(a) && GoodFile(b) && GoodFile(c)
    requires Before(a.largest, b.smallest) && Before(b.largest, c.smallest) && Before(a.largest, c.smallest)
    requires Before(a.smallest, b.smallest) && Before(b.smallest, c.smallest) && Before(a.smallest, c.smallest)
    ensures GoodFiles([a, b, c]) && Disjoint([a, b, c]) && SortedFiles([a, b, c])
  {
  }

  lemma Levels12Good(one: seq<File>, two: seq<File>)
    requires GoodFiles(one) && GoodFiles(two) && Disjoint(one) && Disjoint(two) && SortedFiles(one) && SortedFiles(two)
    requires forall f, g | f in one && g in two :: NewerThan(f.entries, g.entries)
    ensures GoodVersion(Resurrection.Levels12(one, two))
  {
    hide GoodFiles, NewerThan;
    var v := Resurrection.Levels12(one, two);
    assert GoodFiles([]) && Disjoint([]) && SortedFiles([]) && NewestByNumber([]) by {
      EmptyIsGood();
    }
    forall l, m, f: File, g: File | 0 <= l < m < |v| && f in v[l] && g in v[m]
      ensures NewerThan(f.entries, g.entries)
    {
    }
  }

  lemma EmptyIsGood()
    ensures GoodFiles([]) && Disjoint([]) && SortedFiles([]) && NewestByNumber([])
  {
  }

  lemma OneNewer(e: Entry, f: Entry)
    requires e.k.user != f.k.user || e.k.sn > f.k.sn
    ensures NewerThan([e], [f])
  {
  }

  /** Both versions are in order. */
  lemma StartsGood()
    ensures GoodVersion(Start()) && GoodVersion(Flush())
  {
    hide GoodFile, GoodFiles, Disjoint, SortedFiles, NewerThan, GoodVersion, Resurrection.Levels12;
    Order();
    TwoApart(A1, A5);
    TwoApart(B1, B5);
    ThreeApart(B1, GAP, B5);
    OneNewer(NEW1, OLD1);
    OneNewer(NEW1, OLD5);
    OneNewer(NEW1, MISSED);
    OneNewer(NEW5, OLD1);
    OneNewer(NEW5, OLD5);
    OneNewer(NEW5, MISSED);
    Levels12Good([A1, A5], [B1, B5]);
    Levels12Good([A1, A5], [B1, GAP, B5]);
  }

  lemma AllOverlap(a: File, b: File)
    ensures Overlapping([a, b], Null, Null) == [a, b]
  {
    assert [a, b][..1] == [a] && [a][..0] == [];
    assert Overlapping([a], Null, Null) == [a];
  }

  lemma WholeLevel(a: File, b: File, c: File, d: File)
    requires a.smallest.user <= c.largest.user && c.smallest.user <= a.largest.user
    requires b.smallest.user <= d.largest.user && d.smallest.user <= b.largest.user
    ensures Selected([a, b], [c, d], [a, b], [c, d])
  {
    assert a in [a, b] && b in [a, b];
    forall f | f in [c, d]
      ensures OverlapsHull(f, [a, b])
    {
    }
  }

  /** A manual compaction of the whole of level 1 takes the four files. */
  lemma TakesAll()
    ensures Overlapping(Start()[1], Null, Null) == [A1, A5]
    ensures Selected(Start()[1], Start()[2], [A1, A5], [B1, B5])
  {
    hide Overlapping, Selected;
    AllOverlap(A1, A5);
    WholeLevel(A1, A5, B1, B5);
  }

  // ---- The flushes

  /** A table that nothing on level 1 overlaps goes to level 1 if something on level 2 does, and else to level 2. */
  method Place(one: seq<File>, two: seq<File>, n: File, maxGrandparentOverlap: nat) returns (level: nat)
    requires GoodVersion(Resurrection.Levels12(one, two)) && SequencesBounded(Resurrection.Levels12(one, two)) && GoodFile(n)
    requires forall f | f in one :: UserApart(f, n)
    requires TotalFileSize(Overlapping(two, At(n.smallest.user), At(n.largest.user))) <= maxGrandparentOverlap
    ensures level == if forall f | f in two :: UserApart(f, n) then 2 else 1
  {
    hide GoodVersion, SequencesBounded, UserApart, Overlapping, GoodFile;
    NoBytes(At(n.smallest.user), At(n.largest.user));
    level := PickLevelForMemTableOutput(Resurrection.Levels12(one, two), n, maxGrandparentOverlap);
  }

  lemma NoBytes(b: Bound, e: Bound)
    ensures TotalFileSize(Overlapping([], b, e)) == 0
  {
  }

  lemma BytesOfPair(f: File, g: File, b: Bound, e: Bound)
    requires f.size == 1 && g.size == 1 && !Overlaps(g, b, e)
    ensures TotalFileSize(Overlapping([f, g], b, e)) <= 1 && TotalFileSize(Overlapping([g], b, e)) == 0
    ensures TotalFileSize(Overlapping([g, f], b, e)) <= 1
  {
    assert [f, g][..1] == [f] && [g, f][..1] == [g] && [f][..0] == [] && [g][..0] == [];
    assert Overlapping([g], b, e) == [];
    assert Overlapping([f], b, e) == [f] || Overlapping([f], b, e) == [];
    assert [f][1..] == [];
  }

  lemma Bounded(one: seq<File>, two: seq<File>)
    requires forall f | f in one + two :: f in [A1, A5, B1, B5]
    ensures SequencesBounded(Resurrection.Levels12(one, two))
  {
    hide Resurrection.Levels12;
    var v := Resurrection.Levels12(one, two);
    forall l, f: File, e | 0 <= l < |v| && f in v[l] && e in f.entries
      ensures e.k.sn <= MAX_SEQUENCE
    {
      assert f in one + two;
    }
  }

  lemma FlushedTo(one: seq<File>, two: seq<File>, more: seq<File>, n: File)
    requires SortedFiles(more)
    ensures (forall f :: f in more <==> f in one || f == n) ==>
              Flushed(Resurrection.Levels12(one, two), Resurrection.Levels12(more, two), 1, n)
    ensures (forall f :: f in more <==> f in two || f == n) ==>
              Flushed(Resurrection.Levels12(one, two), Resurrection.Levels12(one, more), 2, n)
  {
  }

  lemma VersionsGood()
    ensures GoodVersion(Resurrection.Levels12([], [])) && GoodVersion(Resurrection.Levels12([], [B1]))
    ensures GoodVersion(Resurrection.Levels12([], [B1, B5])) && GoodVersion(Resurrection.Levels12([A1], [B1, B5]))
  {
    hide GoodFile, NewerThan, GoodVersion, Resurrection.Levels12;
    Order();
    EmptyIsGood();
    TwoApart(B1, B5);
    OneNewer(NEW1, OLD1);
    OneNewer(NEW1, OLD5);
    Levels12Good([], []);
    Levels12Good([], [B1]);
    Levels12Good([], [B1, B5]);
    Levels12Good([A1], [B1, B5]);
  }

  lemma Chain()
    ensures Flushed(Resurrection.Levels12([], []), Resurrection.Levels12([], [B1]), 2, B1)
    ensures Flushed(Resurrection.Levels12([], [B1]), Resurrection.Levels12([], [B1, B5]), 2, B5)
    ensures Flushed(Resurrection.Levels12([], [B1, B5]), Resurrection.Levels12([A1], [B1, B5]), 1, A1)
    ensures Flushed(Resurrection.Levels12([A1], [B1, B5]), Start(), 1, A5)
    ensures Flushed(Start(), Flush(), 2, GAP)
  {
    hide GoodFile, GoodFiles, Disjoint, Flushed, Resurrection.Levels12;
    Order();
    TwoApart(B1, B5);
    TwoApart(A1, A5);
    ThreeApart(B1, GAP, B5);
    FlushedTo([], [], [B1], B1);
    FlushedTo([], [B1], [B1, B5], B5);
    FlushedTo([], [B1, B5], [A1], A1);
    FlushedTo([A1], [B1, B5], [A1, A5], A5);
    FlushedTo([A1, A5], [B1, B5], [B1, GAP, B5], GAP);
  }

  lemma Ways()
    ensures UserApart(B1, B5) && UserApart(A1, A5) && UserApart(A1, GAP) && UserApart(A5, GAP) && UserApart(B1, GAP) && UserApart(B5, GAP)
    ensures !UserApart(B1, A1) && !UserApart(B5, A5)
    ensures !Overlaps(B1, At(5.0), At(5.0)) && !Overlaps(B5, At(1.0), At(1.0))
    ensures !Overlaps(B1, At(3.0), At(3.0)) && !Overlaps(B5, At(3.0), At(3.0))
  {
  }

  /** How the files got there: from the empty version on, flushes put the tables where they are, and the last one,
      with the compaction under way, puts its table into the gap. */
  method Flushes(maxGrandparentOverlap: nat) returns (levels: seq<nat>)
    requires maxGrandparentOverlap > 0
    ensures |levels| == 5
    ensures Flushed(Resurrection.Levels12([], []), Resurrection.Levels12([], [B1]), levels[0], B1)
    ensures Flushed(Resurrection.Levels12([], [B1]), Resurrection.Levels12([], [B1, B5]), levels[1], B5)
    ensures Flushed(Resurrection.Levels12([], [B1, B5]), Resurrection.Levels12([A1], [B1, B5]), levels[2], A1)
    ensures Flushed(Resurrection.Levels12([A1], [B1, B5]), Start(), levels[3], A5)
    ensures Flushed(Start(), Flush(), levels[4], GAP)
  {
    hide GoodFile, GoodVersion, Flushed, SequencesBounded, UserApart, Overlaps, Overlapping, Resurrection.Levels12, TotalFileSize;
    VersionsGood();
    StartsGood();
    Chain();
    Ways();
    Bounded([], []);
    Bounded([], [B1]);
    Bounded([], [B1, B5]);
    Bounded([A1], [B1, B5]);
    Bounded([A1, A5], [B1, B5]);
    NoBytes(At(1.0), At(1.0));
    BytesOfPair(B5, B1, At(5.0), At(5.0));
    BytesOfPair(B1, B5, At(1.0), At(1.0));
    BytesOfPair(B1, B5, At(3.0), At(3.0));
    var first := Place([], [], B1, maxGrandparentOverlap);
    var second := Place([], [B1], B5, maxGrandparentOverlap);
    var third := Place([], [B1, B5], A1, maxGrandparentOverlap);
    var fourth := Place([A1], [B1, B5], A5, maxGrandparentOverlap);
    var fifth := Place([A1, A5], [B1, B5], GAP, maxGrandparentOverlap);
    assert B1 in [B1, B5] && B5 in [B1, B5];
    levels := [first, second, third, fourth, fifth];
  }

  lemma FourSurvivors(es: seq<Entry>, smallest: nat, base: iset<UserKey>)
    requires |es| == 4 && Survives(es, 0, smallest, base) && !Survives(es, 1, smallest, base)
    requires Survives(es, 2, smallest, base) && !Survives(es, 3, smallest, base)
    ensures Survivors(es, 4, smallest, base) == [es[0], es[2]]
  {
    hide Survives;
    assert Survivors(es, 0, smallest, base) == [];
    assert Survivors(es, 1, smallest, base) == [es[0]];
    assert Survivors(es, 2, smallest, base) == [es[0]];
    assert Survivors(es, 3, smallest, base) == [es[0], es[2]];
  }

  /** The loop keeps the newest entry of each key, in one table. */
  lemma OutputSurvives()
    ensures var es := [NEW1, OLD1, NEW5, OLD5];
            && Sorted(es) && Elements(es) == FileEntries([A1, A5] + [B1, B5])
            && OUTPUT.entries == Survivors(es, 4, 4, BaseKeys(Start(), 1))
  {
    hide BaseKeys, FileEntries, Survivors;
    Order();
    var es := [NEW1, OLD1, NEW5, OLD5];
    EntriesOfFour();
    assert NEW1 in Elements(es) && NEW5 in Elements(es);
    assert Hidden(Elements(es), OLD1, 4) && Hidden(Elements(es), OLD5, 4);
    FourSurvivors(es, 4, BaseKeys(Start(), 1));
  }

  lemma EntriesOfFour()
    ensures Elements([NEW1, OLD1, NEW5, OLD5]) == FileEntries([A1, A5] + [B1, B5])
  {
    OneOfFour(A1, A5, B1, B5);
    assert Elements(A1.entries) == {NEW1} && Elements(A5.entries) == {NEW5};
    assert Elements(B1.entries) == {OLD1} && Elements(B5.entries) == {OLD5};
    assert Elements([NEW1, OLD1, NEW5, OLD5]) == {NEW1, OLD1, NEW5, OLD5};
  }

  lemma OneOfFour(a: File, b: File, c: File, d: File)
    ensures FileEntries([a, b] + [c, d]) == Elements(a.entries) + Elements(b.entries) + Elements(c.entries) + Elements(d.entries)
  {
    var fs := [a, b] + [c, d];
    assert a in fs && b in fs && c in fs && d in fs;
    assert fs == [a, b, c, d];
  }

  lemma ReplacedAll(one: seq<File>, two: seq<File>, left: File, out: File, more: seq<File>)
    requires forall f :: f in more <==> f in two || f == left
    requires left !in two && SortedFiles([out, left])
    ensures Replaced(Resurrection.Levels12(one, more), Resurrection.Levels12([], [out, left]), 1, one, two, [out])
  {
    assert SortedFiles([]);
  }

  lemma OutputEntriesAre()
    ensures FileEntries([OUTPUT]) <= FileEntries([A1, A5] + [B1, B5])
  {
    EntriesOfFour();
    forall e | e in FileEntries([OUTPUT])
      ensures e in Elements([NEW1, OLD1, NEW5, OLD5])
    {
      assert e == NEW1 || e == NEW5;
    }
  }

  lemma SubsetsOfFlush()
    ensures IsSubset([A1, A5], Flush()[1]) && IsSubset([B1, B5], Flush()[2]) && LeftNewer(Flush()[1], [A1, A5])
  {
  }

  /** Installing the output leaves level 2 with overlapping files. */
  lemma InstallsOverlap()
    ensures Replaced(Flush(), Finish(), 1, [A1, A5], [B1, B5], [OUTPUT])
    ensures StillSelected(Flush(), 1, [A1, A5], [B1, B5], [OUTPUT])
    ensures !OutputsFit(Flush(), 1, [B1, B5], [OUTPUT]) && !GoodVersion(Finish())
  {
    hide Replaced, FileEntries, IsSubset, LeftNewer, GoodVersion;
    Order();
    ReplacedAll([A1, A5], [B1, B5], GAP, OUTPUT, [B1, GAP, B5]);
    OutputEntriesAre();
    SubsetsOfFlush();
    OverlapsGap();
    StartsGood();
    InstallIff(Flush(), Finish(), 1, [A1, A5], [B1, B5], [OUTPUT]);
  }

  lemma OverlapsGap()
    ensures GoodFiles([OUTPUT]) && Disjoint([OUTPUT]) && !OutputsFit(Flush(), 1, [B1, B5], [OUTPUT])
  {
    Order();
    assert GAP in Flush()[2] && GAP !in [B1, B5] && OUTPUT in [OUTPUT];
    assert !Separate(GAP, OUTPUT);
  }

  /** The binary search for the key stops at the table around it. */
  lemma SearchStopsAtOutput(s: nat)
    requires 5 <= s
    ensures Search([OUTPUT, GAP], SeekKey(3.0, s), 0, 2) == 0
    ensures LookupIn(OUTPUT.entries, 3.0, s) == Miss
  {
    SeekKeySkips(3.0, s, NEW5.k);
    SeekKeySkips(3.0, s, MISSED.k);
    SeekKeySkips(3.0, s, NEW1.k);
    var fs := [OUTPUT, GAP];
    assert !Before(fs[1].largest, SeekKey(3.0, s)) && !Before(fs[0].largest, SeekKey(3.0, s));
    assert Search(fs, SeekKey(3.0, s), 0, 2) == Search(fs, SeekKey(3.0, s), 0, 1);
    assert Search(fs, SeekKey(3.0, s), 0, 1) == Search(fs, SeekKey(3.0, s), 0, 0);
    var es := OUTPUT.entries;
    assert LowerBound(es[1..], SeekKey(3.0, s)) == 0 && LowerBound(es, SeekKey(3.0, s)) == 1;
  }

  /** The write is in the version, and the search of every level misses it. */
  lemma WriteIsHidden(s: nat)
    requires 5 <= s
    ensures IsNewest(VersionEntries(Finish()), 3.0, s, MISSED)
    ensures Finish()[0] == [] && forall l | 1 <= l < NUM_LEVELS :: LevelAnswer(Finish()[l], 3.0, s) == Miss
  {
    hide Search, LookupIn, SeekKey;
    SearchStopsAtOutput(s);
    assert GAP in Finish()[2] && MISSED in GAP.entries;
    assert MISSED in FileEntries(Finish()[2]);
    forall e | Candidate(VersionEntries(Finish()), 3.0, s, e)
      ensures e == MISSED
    {
      OnlyMissed(e);
    }
  }

  lemma OnlyMissed(e: Entry)
    requires e in VersionEntries(Finish()) && e.k.user == 3.0
    ensures e == MISSED
  {
    var l :| 0 <= l < NUM_LEVELS && e in FileEntries(Finish()[l]);
    var f :| f in Finish()[l] && e in f.entries;
  }
}

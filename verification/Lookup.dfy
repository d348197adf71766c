/** Point lookups: memtable, immutable memtable, then the version level by level. */
module Lookup {
  import opened InternalKeys
  import opened Mvcc
  import opened Version

  /** No entry of `es` answers the lookup. */
  ghost predicate Nothing(es: set<Entry>, u: UserKey, s: nat) {
    forall e :: !Candidate(es, u, s, e)
  }

  /** `f` may hold entries of `u`. */
  predicate Covers(f: File, u: UserKey) {
    f.smallest.user <= u <= f.largest.user
  }

  lemma UncoveredHasNothing(f: File, u: UserKey, s: nat)
    requires GoodFile(f)
    requires !Covers(f, u)
    ensures Nothing(Elements(f.entries), u, s)
  {
    forall e | e in f.entries
      ensures e.k.user != u
    {
      FileBounds(f, e);
    }
  }

  /** A level without hits holds nothing for the lookup. */
  lemma LevelNothing(fs: seq<File>, u: UserKey, s: nat)
    requires forall f | f in fs :: Nothing(Elements(f.entries), u, s)
    ensures Nothing(FileEntries(fs), u, s)
  {
    forall e | Candidate(FileEntries(fs), u, s, e)
      ensures false
    {
      var f :| f in fs && e in f.entries;
      assert Candidate(Elements(f.entries), u, s, e);
    }
  }

  /** The level-0 files that may hold `u`, newest first. */
  method CoveringNewestFirst(files: seq<File>, u: UserKey) returns (tmp: seq<File>)
    ensures forall f :: f in tmp <==> f in files && Covers(f, u)
    ensures forall i, j | 0 <= i < j < |tmp| :: tmp[i].number >= tmp[j].number
  {
    tmp := [];
    for i := 0 to |files|
      invariant forall f :: f in tmp <==> f in files[..i] && Covers(f, u)
    {
      if Covers(files[i], u) {
        tmp := tmp + [files[i]];
      }
    }
    assert files[..|files|] == files;
    tmp := NewestFirst(tmp);
  }

  /** Search of one level-0 list, newest file first. */
  method GetLevel0(files: seq<File>, u: UserKey, s: nat) returns (hit: Hit)
    requires GoodFiles(files) && NewestByNumber(files)
    ensures hit.Hit? ==> IsNewest(FileEntries(files), u, s, hit.e)
    ensures hit.Miss? ==> Nothing(FileEntries(files), u, s)
  {
    var tmp := CoveringNewestFirst(files, u);
    forall f | f in files && f !in tmp
      ensures Nothing(Elements(f.entries), u, s)
    {
      UncoveredHasNothing(f, u, s);
    }
    for i := 0 to |tmp|
      invariant forall j | 0 <= j < i :: Nothing(Elements(tmp[j].entries), u, s)
    {
      assert tmp[i] in files;
      hit := LookupIn(tmp[i].entries, u, s);
      LookupInNewest(tmp[i].entries, u, s);
      if hit.Hit? {
        Level0HitIsNewest(files, tmp, i, u, s, hit.e);
        return;
      }
    }
    hit := Miss;
    LevelNothing(files, u, s);
  }

  lemma Level0HitIsNewest(files: seq<File>, tmp: seq<File>, i: nat, u: UserKey, s: nat, e: Entry)
    requires NewestByNumber(files)
    requires i < |tmp| && (forall f | f in tmp :: f in files)
    requires forall a, b | 0 <= a < b < |tmp| :: tmp[a].number >= tmp[b].number
    requires forall f | f in files && f !in tmp :: Nothing(Elements(f.entries), u, s)
    requires forall j | 0 <= j < i :: Nothing(Elements(tmp[j].entries), u, s)
    requires IsNewest(Elements(tmp[i].entries), u, s, e)
    ensures IsNewest(FileEntries(files), u, s, e)
  {
    assert tmp[i] in files;
    forall x | Candidate(FileEntries(files), u, s, x)
      ensures x.k.sn <= e.k.sn
    {
      var f :| f in files && x in f.entries;
      assert Candidate(Elements(f.entries), u, s, x);
      assert f in tmp;
      var j :| 0 <= j < |tmp| && tmp[j] == f;
      assert i <= j;
      LowerNumberIsOlder(files, tmp[i], f, e, x, u, s);
    }
  }

  lemma LowerNumberIsOlder(files: seq<File>, g: File, f: File, e: Entry, x: Entry, u: UserKey, s: nat)
    requires NewestByNumber(files) && f in files && g in files && g.number >= f.number
    requires IsNewest(Elements(g.entries), u, s, e) && Candidate(Elements(f.entries), u, s, x)
    ensures x.k.sn <= e.k.sn
  {
    if g.number > f.number {
      assert NewerThan(g.entries, f.entries);
    }
  }

  /** What the search of a level above 0 answers, whatever the order of its files. */
  function LevelAnswer(files: seq<File>, u: UserKey, s: nat): Hit {
    var index := Search(files, SeekKey(u, s), 0, |files|);
    if index < |files| && !(u < files[index].smallest.user) then LookupIn(files[index].entries, u, s) else Miss
  }

  /** Search of one level above 0: at most one file, found by binary search, is read. */
  method GetSortedLevel(files: seq<File>, u: UserKey, s: nat) returns (hit: Hit)
    requires GoodFiles(files)
    ensures hit == LevelAnswer(files, u, s)
    ensures Disjoint(files) && hit.Hit? ==> IsNewest(FileEntries(files), u, s, hit.e)
    ensures Disjoint(files) && hit.Miss? ==> Nothing(FileEntries(files), u, s)
  {
    var index := FindFile(files, SeekKey(u, s));
    if Disjoint(files) {
      OneFileAnswers(files, index, u, s);
    }
    if index < |files| && !(u < files[index].smallest.user) {
      hit := LookupIn(files[index].entries, u, s);
      return;
    }
    hit := Miss;
  }

  lemma OneFileAnswers(files: seq<File>, index: nat, u: UserKey, s: nat)
    requires GoodFiles(files) && Disjoint(files) && index <= |files|
    requires forall i | 0 <= i < index :: Before(files[i].largest, SeekKey(u, s))
    requires forall i | index <= i < |files| :: AtOrBefore(SeekKey(u, s), files[i].largest)
    ensures var hit := if index < |files| && !(u < files[index].smallest.user) then LookupIn(files[index].entries, u, s) else Miss;
            && (hit.Hit? ==> IsNewest(FileEntries(files), u, s, hit.e))
            && (hit.Miss? ==> Nothing(FileEntries(files), u, s))
  {
    forall i | 0 <= i < index
      ensures Nothing(Elements(files[i].entries), u, s)
    {
      FilesBeforeSeek(files[i], u, s);
    }
    if index < |files| && !(u < files[index].smallest.user) {
      assert files[index] in files;
      LookupInNewest(files[index].entries, u, s);
      SortedLevelHit(files, index, u, s, LookupIn(files[index].entries, u, s));
    } else {
      forall f | f in files
        ensures Nothing(Elements(f.entries), u, s)
      {
        var i :| 0 <= i < |files| && files[i] == f;
        if index <= i {
          if index < i {
            assert Before(files[index].largest, files[i].smallest);
            SmallestBeforeLargest(files, index);
          }
          assert u < f.smallest.user;
          UncoveredHasNothing(f, u, s);
        }
      }
      LevelNothing(files, u, s);
    }
  }

  lemma FilesBeforeSeek(f: File, u: UserKey, s: nat)
    requires GoodFile(f)
    requires Before(f.largest, SeekKey(u, s))
    ensures Nothing(Elements(f.entries), u, s)
  {
    forall e | e in f.entries
      ensures !Candidate(Elements(f.entries), u, s, e)
    {
      FileBounds(f, e);
      SeekKeySkips(u, s, e.k);
      assert Before(e.k, SeekKey(u, s));
    }
  }

  /** Also when `u` spans several files: a later file holds only older entries of `u`. */
  lemma SortedLevelHit(files: seq<File>, index: nat, u: UserKey, s: nat, hit: Hit)
    requires GoodFiles(files) && Disjoint(files)
    requires index < |files|
    requires forall i | 0 <= i < index :: Nothing(Elements(files[i].entries), u, s)
    requires AtOrBefore(SeekKey(u, s), files[index].largest)
    requires hit == LookupIn(files[index].entries, u, s)
    ensures hit.Hit? ==> IsNewest(FileEntries(files), u, s, hit.e)
    ensures hit.Miss? ==> Nothing(FileEntries(files), u, s)
  {
    var g := files[index];
    assert g in files;
    LookupInNewest(g.entries, u, s);
    forall x | Candidate(FileEntries(files), u, s, x)
      ensures hit.Hit? && x.k.sn <= hit.e.k.sn
    {
      var f :| f in files && x in f.entries;
      var i :| 0 <= i < |files| && files[i] == f;
      assert Candidate(Elements(f.entries), u, s, x);
      if i > index {
        LaterFileIsOlder(g, f, u, s, x);
      }
    }
    if hit.Hit? {
      assert hit.e in g.entries && g in files;
    }
  }

  lemma LaterFileIsOlder(g: File, f: File, u: UserKey, s: nat, x: Entry)
    requires GoodFile(g) && GoodFile(f) && Before(g.largest, f.smallest)
    requires AtOrBefore(SeekKey(u, s), g.largest)
    requires x in f.entries && x.k.user == u
    ensures LookupIn(g.entries, u, s).Hit? && x.k.sn <= LookupIn(g.entries, u, s).e.k.sn
  {
    FileBounds(f, x);
    SeekKeySkips(u, s, g.largest);
    var i := LowerBound(g.entries, SeekKey(u, s));
    assert i < |g.entries|;
    SeekKeySkips(u, s, g.entries[i].k);
    FileBounds(g, g.entries[i]);
    assert g.entries[i].k.user == u;
    assert Before(g.entries[i].k, x.k);
  }

  /** Version::Get: levels in order, the first hit ends the search. */
  method VersionGet(v: Levels, u: UserKey, s: nat) returns (hit: Hit)
    requires GoodVersion(v)
    ensures hit.Hit? ==> IsNewest(VersionEntries(v), u, s, hit.e)
    ensures hit.Miss? ==> Nothing(VersionEntries(v), u, s)
  {
    for level := 0 to |v|
      invariant forall l | 0 <= l < level :: Nothing(FileEntries(v[l]), u, s)
    {
      if level == 0 {
        hit := GetLevel0(v[0], u, s);
      } else {
        hit := GetSortedLevel(v[level], u, s);
      }
      if hit.Hit? {
        LevelHitIsNewest(v, level, u, s, hit.e);
        return;
      }
    }
    hit := Miss;
    VersionNothing(v, u, s);
  }

  lemma VersionNothing(v: Levels, u: UserKey, s: nat)
    requires forall l | 0 <= l < |v| :: Nothing(FileEntries(v[l]), u, s)
    ensures Nothing(VersionEntries(v), u, s)
  {
    forall e | Candidate(VersionEntries(v), u, s, e)
      ensures false
    {
      var l :| 0 <= l < |v| && e in FileEntries(v[l]);
      assert Candidate(FileEntries(v[l]), u, s, e);
    }
  }

  lemma LevelHitIsNewest(v: Levels, level: nat, u: UserKey, s: nat, e: Entry)
    requires LevelsNewer(v) && level < |v|
    requires forall l | 0 <= l < level :: Nothing(FileEntries(v[l]), u, s)
    requires IsNewest(FileEntries(v[level]), u, s, e)
    ensures IsNewest(VersionEntries(v), u, s, e)
  {
    forall x | Candidate(VersionEntries(v), u, s, x)
      ensures x.k.sn <= e.k.sn
    {
      var l :| 0 <= l < |v| && x in FileEntries(v[l]);
      assert Candidate(FileEntries(v[l]), u, s, x);
      if level < l {
        DeeperIsOlder(v, level, l, e, x);
      }
    }
  }

  lemma DeeperIsOlder(v: Levels, l: nat, m: nat, e: Entry, x: Entry)
    requires LevelsNewer(v) && l < m < |v|
    requires e in FileEntries(v[l]) && x in FileEntries(v[m]) && e.k.user == x.k.user
    ensures e.k.sn > x.k.sn
  {
    var f :| f in v[l] && e in f.entries;
    var g :| g in v[m] && x in g.entries;
    assert NewerThan(f.entries, g.entries);
  }

  /** Everything a reader can reach. */
  ghost function AllEntries(mem: seq<Entry>, imm: seq<Entry>, v: Levels): set<Entry> {
    Elements(mem) + Elements(imm) + VersionEntries(v)
  }

  /** Recency between the memtables and the version. */
  ghost predicate MemtablesNewer(mem: seq<Entry>, imm: seq<Entry>, v: Levels) {
    && (forall x, y | x in mem && y in imm :: x.k.sn > y.k.sn)
    && (forall x, y | (x in mem || x in imm) && y in VersionEntries(v) :: x.k.sn > y.k.sn)
  }

  /** DBImpl::Get at snapshot `s`.  An absent immutable memtable is an empty one. */
  method DbGet(mem: seq<Entry>, imm: seq<Entry>, v: Levels, u: UserKey, s: nat) returns (r: ReadResult)
    requires Sorted(mem) && Sorted(imm) && GoodVersion(v)
    requires MemtablesNewer(mem, imm, v)
    requires UniqueSeqs(AllEntries(mem, imm, v))
    ensures r == Read(AllEntries(mem, imm, v), u, s)
  {
    ghost var all := AllEntries(mem, imm, v);
    var hit := LookupIn(mem, u, s);
    LookupInNewest(mem, u, s);
    if hit.Miss? {
      hit := LookupIn(imm, u, s);
      LookupInNewest(imm, u, s);
      if hit.Miss? {
        hit := VersionGet(v, u, s);
      }
    }
    forall x | Candidate(all, u, s, x)
      ensures hit.Hit? && x.k.sn <= hit.e.k.sn
    {
      assert Candidate(Elements(mem), u, s, x) || Candidate(Elements(imm), u, s, x)
          || Candidate(VersionEntries(v), u, s, x);
    }
    if hit.Hit? {
      ReadNewest(all, u, s, hit.e);
      r := Outcome(hit.e);
    } else {
      ReadNothing(all, u, s);
      r := NotFound;
    }
  }
}

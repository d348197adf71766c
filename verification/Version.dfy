/** Table files, versions, and the invariant that makes level-by-level search correct. */
module Version {
  import opened InternalKeys
  import opened Mvcc

  const NUM_LEVELS: nat := 7

  /** FileMetaData together with the table it names, held as its sorted entries. */
  datatype File = File(number: nat, size: nat, smallest: InternalKey, largest: InternalKey, entries: seq<Entry>)

  /** One list of files for each level. */
  type Levels = seq<seq<File>>

  ghost predicate GoodFile(f: File) {
    && f.entries != []
    && Sorted(f.entries)
    && f.smallest == f.entries[0].k
    && f.largest == f.entries[|f.entries| - 1].k
  }

  ghost predicate GoodFiles(fs: seq<File>) {
    forall f | f in fs :: GoodFile(f)
  }

  /** Files of one of the levels above 0: sorted and disjoint by internal key. */
  ghost predicate Disjoint(fs: seq<File>) {
    forall i, j | 0 <= i < j < |fs| :: Before(fs[i].largest, fs[j].smallest)
  }

  /** Of each user key, every entry of `a` is newer than every entry of `b`. */
  ghost predicate NewerThan(a: seq<Entry>, b: seq<Entry>) {
    forall x, y | x in a && y in b && x.k.user == y.k.user :: x.k.sn > y.k.sn
  }

  /** Level-0 files with higher numbers hold newer entries, and a number names one file. */
  ghost predicate NewestByNumber(fs: seq<File>) {
    && (forall f, g | f in fs && g in fs && f.number > g.number :: NewerThan(f.entries, g.entries))
    && (forall f, g | f in fs && g in fs && f.number == g.number :: f == g)
  }

  /** Entries never hop across levels: a shallower level is newer than a deeper one. */
  ghost predicate LevelsNewer(v: Levels) {
    forall l, m, f, g | 0 <= l < m < |v| && f in v[l] && g in v[m] :: NewerThan(f.entries, g.entries)
  }

  /** BySmallestKey: by smallest key, ties by file number. */
  predicate BySmallest(f: File, g: File) {
    Before(f.smallest, g.smallest) || (f.smallest == g.smallest && f.number < g.number)
  }

  ghost predicate SortedFiles(fs: seq<File>) {
    forall i, j | 0 <= i < j < |fs| :: BySmallest(fs[i], fs[j])
  }

  /** The invariant of an installed version. */
  ghost predicate GoodVersion(v: Levels) {
    && |v| == NUM_LEVELS
    && (forall l | 0 <= l < |v| :: GoodFiles(v[l]))
    && (forall l | 0 <= l < |v| :: SortedFiles(v[l]))
    && (forall l | 1 <= l < |v| :: Disjoint(v[l]))
    && NewestByNumber(v[0])
    && LevelsNewer(v)
  }

  ghost function FileEntries(fs: seq<File>): set<Entry> {
    set f, e | f in fs && e in f.entries :: e
  }

  ghost function VersionEntries(v: Levels): set<Entry> {
    set l, e | 0 <= l < |v| && e in FileEntries(v[l]) :: e
  }

  /** A sorted file holds nothing outside [smallest, largest]. */
  lemma FileBounds(f: File, e: Entry)
    requires GoodFile(f)
    requires e in f.entries
    ensures AtOrBefore(f.smallest, e.k) && AtOrBefore(e.k, f.largest)
    ensures f.smallest.user <= e.k.user <= f.largest.user
  {
    var i :| 0 <= i < |f.entries| && f.entries[i] == e;
  }

  /** Table and memtable seeks: the index of the first entry at or after `k`. */
  function LowerBound(es: seq<Entry>, k: InternalKey): (r: nat)
    ensures r <= |es|
    ensures forall i | 0 <= i < r :: Before(es[i].k, k)
    ensures r < |es| ==> AtOrBefore(k, es[r].k)
  {
    if es == [] || !Before(es[0].k, k) then 0 else 1 + LowerBound(es[1..], k)
  }

  /** Skip list insertion: the entry goes where a seek for its key ends. */
  function InsertByKey(es: seq<Entry>, e: Entry): seq<Entry> {
    var i := LowerBound(es, e.k);
    es[..i] + [e] + es[i..]
  }

  /** The run stays sorted and gains exactly the new entry. */
  lemma InsertByKeyMeaning(es: seq<Entry>, e: Entry)
    requires Sorted(es) && forall x | x in es :: x.k != e.k
    ensures Sorted(InsertByKey(es, e))
    ensures Elements(InsertByKey(es, e)) == Elements(es) + {e}
  {
    var i := LowerBound(es, e.k);
    forall j | i <= j < |es|
      ensures Before(e.k, es[j].k)
    {
      assert es[i] in es;
      CompareIsTotalOrder(e.k, es[i].k, es[j].k);
      if i < j {
        assert Before(es[i].k, es[j].k);
      }
    }
    InsertedElements(es, i, e);
  }

  lemma InsertedElements(es: seq<Entry>, i: nat, e: Entry)
    requires i <= |es|
    ensures Elements(es[..i] + [e] + es[i..]) == Elements(es) + {e}
  {
    assert es == es[..i] + es[i..];
  }

  datatype Hit = Miss | Hit(e: Entry)

  /** A point lookup in one sorted run: seek, then check the user key (MemTable::Get, SaveValue). */
  function LookupIn(es: seq<Entry>, u: UserKey, s: nat): Hit {
    var i := LowerBound(es, SeekKey(u, s));
    if i < |es| && es[i].k.user == u then Hit(es[i]) else Miss
  }

  /** The first entry at or after the lookup key is the newest visible one of that run. */
  lemma LookupInNewest(es: seq<Entry>, u: UserKey, s: nat)
    requires Sorted(es)
    ensures LookupIn(es, u, s).Hit? ==> IsNewest(Elements(es), u, s, LookupIn(es, u, s).e)
    ensures LookupIn(es, u, s).Miss? ==> forall e :: !Candidate(Elements(es), u, s, e)
  {
    var i := LowerBound(es, SeekKey(u, s));
    forall e | Candidate(Elements(es), u, s, e)
      ensures i < |es| && es[i].k.user == u && e.k.sn <= es[i].k.sn
    {
      var j :| 0 <= j < |es| && es[j] == e;
      SeekKeySkips(u, s, e.k);
      assert i <= j;
      SeekKeySkips(u, s, es[i].k);
      if i < j {
        assert Before(es[i].k, es[j].k);
      }
    }
    if i < |es| {
      SeekKeySkips(u, s, es[i].k);
    }
  }

  /** The binary search of FindFile, between `left` and `right`, whatever the order of the files. */
  function Search(files: seq<File>, key: InternalKey, left: nat, right: nat): (r: nat)
    requires left <= right <= |files|
    ensures left <= r <= right
    decreases right - left
  {
    if left == right then right
    else
      var mid := (left + right) / 2;
      if Before(files[mid].largest, key) then Search(files, key, mid + 1, right) else Search(files, key, left, mid)
  }

  /** In disjoint files the search ends at the first one whose largest key is at or after the key. */
  lemma {:induction false} SearchMeaning(files: seq<File>, key: InternalKey, left: nat, right: nat)
    requires GoodFiles(files) && Disjoint(files) && left <= right <= |files|
    ensures forall i | left <= i < Search(files, key, left, right) :: Before(files[i].largest, key)
    ensures forall i | Search(files, key, left, right) <= i < right :: AtOrBefore(key, files[i].largest)
    decreases right - left
  {
    hide GoodFiles, Disjoint;
    if left < right {
      var mid := (left + right) / 2;
      LargestAscend(files, mid);
      if Before(files[mid].largest, key) {
        SearchMeaning(files, key, mid + 1, right);
      } else {
        SearchMeaning(files, key, left, mid);
      }
    }
  }

  /** FindFile: among disjoint files, the first one whose largest key is at or after `key`. */
  method FindFile(files: seq<File>, key: InternalKey) returns (r: nat)
    requires GoodFiles(files)
    ensures r <= |files| && r == Search(files, key, 0, |files|)
    ensures Disjoint(files) ==> forall i | 0 <= i < r :: Before(files[i].largest, key)
    ensures Disjoint(files) ==> forall i | r <= i < |files| :: AtOrBefore(key, files[i].largest)
  {
    hide GoodFiles, Disjoint;
    var left, right := 0, |files|;
    while left < right
      invariant 0 <= left <= right <= |files|
      invariant Search(files, key, left, right) == Search(files, key, 0, |files|)
    {
      var mid := (left + right) / 2;
      if Compare(files[mid].largest, key) < 0 {
        left := mid + 1;
      } else {
        right := mid;
      }
    }
    r := right;
    if Disjoint(files) {
      SearchMeaning(files, key, 0, |files|);
    }
  }

  lemma LargestAscend(files: seq<File>, mid: nat)
    requires GoodFiles(files) && Disjoint(files) && mid < |files|
    ensures forall i | 0 <= i < mid :: Before(files[i].largest, files[mid].largest)
    ensures forall i | mid < i < |files| :: Before(files[mid].largest, files[i].largest)
  {
    forall i | 0 <= i < |files|
      ensures i < mid ==> Before(files[i].largest, files[mid].largest)
      ensures mid < i ==> Before(files[mid].largest, files[i].largest)
    {
      SmallestBeforeLargest(files, mid);
      SmallestBeforeLargest(files, i);
    }
  }

  lemma SmallestBeforeLargest(files: seq<File>, i: nat)
    requires GoodFiles(files)
    requires i < |files|
    ensures AtOrBefore(files[i].smallest, files[i].largest)
  {
    assert GoodFile(files[i]);
    FileBounds(files[i], files[i].entries[0]);
  }

  /** std::sort with NewestFirst. */
  function NewestFirst(fs: seq<File>): (r: seq<File>)
    ensures forall f :: f in r <==> f in fs
    ensures forall i, j | 0 <= i < j < |r| :: r[i].number >= r[j].number
  {
    if fs == [] then []
    else
      var rest := NewestFirst(fs[1..]);
      InsertNewestFirst(fs[0], rest)
  }

  function InsertNewestFirst(f: File, fs: seq<File>): (r: seq<File>)
    requires forall i, j | 0 <= i < j < |fs| :: fs[i].number >= fs[j].number
    ensures forall g :: g in r <==> g == f || g in fs
    ensures forall i, j | 0 <= i < j < |r| :: r[i].number >= r[j].number
  {
    if fs == [] || f.number >= fs[0].number then [f] + fs
    else
      var rest := InsertNewestFirst(f, fs[1..]);
      assert forall g | g in rest :: g.number <= fs[0].number;
      [fs[0]] + rest
  }
}

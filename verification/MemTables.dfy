/** The memtable: internal keys in a skip list that readers search without a lock. */
module MemTables {
  import opened InternalKeys
  import opened Mvcc
  import opened Version
  import opened SkipListState
  import opened SkipListRuns

  /** The nodes' keys stand for internal keys in their order. */
  ghost predicate KeepsOrder(code: InternalKey -> Key, ks: set<InternalKey>) {
    forall a, b | a in ks && b in ks :: Before(a, b) <==> code(a) < code(b)
  }

  ghost function InternalKeysOf(es: seq<Entry>): set<InternalKey> {
    set e | e in es :: e.k
  }

  /** The list holds exactly these entries. */
  ghost predicate HoldsEntries(keys: set<Key>, code: InternalKey -> Key, es: seq<Entry>) {
    keys == set e | e in es :: code(e.k)
  }

  /** What MemTable::Get makes of the node it finds. */
  ghost predicate Answers(link: Link, code: InternalKey -> Key, es: seq<Entry>, u: UserKey, hit: Hit) {
    match link
    case Null => hit.Miss?
    case To(q) => exists e :: e in es && code(e.k) == q && hit == if e.k.user == u then Hit(e) else Miss
  }

  /** The node that a seek to the lookup key finds is the entry that a search of the sorted entries finds. */
  lemma SeekIsLookup(keys: set<Key>, code: InternalKey -> Key, es: seq<Entry>, u: UserKey, s: nat, link: Link)
    requires Sorted(es) && HoldsEntries(keys, code, es)
    requires KeepsOrder(code, InternalKeysOf(es) + {SeekKey(u, s)})
    requires IsLeastAtOrAfter(keys, code(SeekKey(u, s)), link)
    ensures Answers(link, code, es, u, LookupIn(es, u, s))
  {
    var k := SeekKey(u, s);
    assert k in InternalKeysOf(es) + {k} && forall e | e in es :: e.k in InternalKeysOf(es) + {k};
    if link.Null? {
      forall e | e in es
        ensures Before(e.k, k)
      {
        assert code(e.k) in keys;
      }
      NothingAtOrAfter(es, k);
    } else {
      var e :| e in es && code(e.k) == link.key;
      BoundIsFirst(es, k, e);
      var first := es[LowerBound(es, k)];
      assert code(first.k) in keys;
    }
  }

  lemma NothingAtOrAfter(es: seq<Entry>, k: InternalKey)
    requires forall e | e in es :: Before(e.k, k)
    ensures LowerBound(es, k) == |es|
  {
  }

  lemma BoundIsFirst(es: seq<Entry>, k: InternalKey, e: Entry)
    requires Sorted(es) && e in es && !Before(e.k, k)
    ensures LowerBound(es, k) < |es| && !Before(es[LowerBound(es, k)].k, k)
    ensures es[LowerBound(es, k)] == e || Before(es[LowerBound(es, k)].k, e.k)
  {
    var j :| 0 <= j < |es| && es[j] == e;
    assert LowerBound(es, k) <= j;
  }

  /** Entries that the snapshot cannot see do not change a lookup. */
  lemma LookupIgnoresNewer(es: seq<Entry>, fs: seq<Entry>, u: UserKey, s: nat)
    requires Sorted(es) && Sorted(fs) && UniqueSeqs(Elements(fs))
    requires Elements(es) <= Elements(fs) && forall e | e in fs && e !in es :: e.k.sn > s
    ensures LookupIn(fs, u, s) == LookupIn(es, u, s)
  {
    hide LookupIn, Sorted;
    LookupInNewest(es, u, s);
    LookupInNewest(fs, u, s);
    var a, b := LookupIn(es, u, s), LookupIn(fs, u, s);
    if a.Hit? {
      assert Candidate(Elements(fs), u, s, a.e);
    }
    if b.Hit? {
      assert Candidate(Elements(es), u, s, b.e);
    }
  }

  /** Main result: in every interleaving of the writer's inserts with any readers, MemTable::Get at a published
      sequence answers what a search of the entries there were when it was published answers, whatever is inserted
      meanwhile. */
  lemma ConcurrentGet(states: seq<Shared>, steps: seq<SkipListRuns.Step>, n: nat, r: nat, code: InternalKey -> Key,
                      es: seq<Entry>, fs: seq<Entry>, u: UserKey, s: nat)
    requires SkipListRuns.IsRun(states, steps) && n < |steps| && steps[n] == ReaderLoadStep(r)
    requires r in states[n + 1].readers && states[n + 1].readers[r].Sought?
    requires states[n + 1].readers[r].target == code(SeekKey(u, s))
    requires Sorted(es) && Sorted(fs) && UniqueSeqs(Elements(fs))
    requires Elements(es) <= Elements(fs) && forall e | e in fs && e !in es :: e.k.sn > s
    requires |states[n].mem.levels| == MAX_HEIGHT && HoldsEntries(Keys(states[n].mem), code, fs)
    requires KeepsOrder(code, InternalKeysOf(fs) + {SeekKey(u, s)})
    ensures Answers(states[n + 1].readers[r].link, code, fs, u, LookupIn(es, u, s))
  {
    hide SkipListRuns.Init, SkipListRuns.LinkedAt, LookupIn, Answers, Sorted, IsLeastAtOrAfter;
    SeekMissesNothing(states, steps, n, r);
    SeekIsLookup(Keys(states[n].mem), code, fs, u, s, states[n + 1].readers[r].link);
    LookupIgnoresNewer(es, fs, u, s);
  }
}

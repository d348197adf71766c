/** Which entries a compaction keeps, and when dropping the others changes what readers see. */
module DropRules {
  import opened InternalKeys
  import opened Mvcc

  /** A newer entry of the same user key is already visible to every snapshot that is left (rule A). */
  ghost predicate Hidden(ins: set<Entry>, e: Entry, smallest: nat) {
    exists x :: x in ins && x.k.user == e.k.user && e.k.sn < x.k.sn <= smallest
  }

  /** A deletion every snapshot sees, of a key that no deeper level holds. */
  predicate Obsolete(e: Entry, smallest: nat, base: bool) {
    e.k.kind.Deletion? && e.k.sn <= smallest && base
  }

  ghost predicate Keeps(ins: set<Entry>, e: Entry, smallest: nat, base: iset<UserKey>) {
    !Hidden(ins, e, smallest) && !Obsolete(e, smallest, e.k.user in base)
  }

  ghost function Kept(ins: set<Entry>, smallest: nat, base: iset<UserKey>): set<Entry> {
    set e | e in ins && Keeps(ins, e, smallest, base)
  }

  /** What is left of the whole store once the inputs are replaced by what was kept. */
  ghost function After(all: set<Entry>, ins: set<Entry>, smallest: nat, base: iset<UserKey>): set<Entry> {
    (all - ins) + Kept(ins, smallest, base)
  }

  /** The deletion `t` is dropped although it is what snapshot `floor` sees of its key and an older value of
      the key stays in the store, outside the inputs. */
  ghost predicate Revives(all: set<Entry>, ins: set<Entry>, smallest: nat, base: iset<UserKey>, floor: nat, t: Entry, x: Entry) {
    && t in ins && Obsolete(t, smallest, t.k.user in base)
    && IsNewest(all, t.k.user, floor, t)
    && x.k.kind.Put? && IsNewest(all - ins, t.k.user, t.k.sn, x)
  }

  /** If the newest entry visible at `s` goes, it was an obsolete deletion. */
  lemma DroppedNewest(all: set<Entry>, ins: set<Entry>, smallest: nat, base: iset<UserKey>, u: UserKey, s: nat, n: Entry)
    requires UniqueSeqs(all) && ins <= all && smallest <= s
    requires IsNewest(all, u, s, n) && n !in After(all, ins, smallest, base)
    ensures n in ins && !Hidden(ins, n, smallest) && Obsolete(n, smallest, u in base)
    ensures forall y | y in all && y.k.user == u && y.k.sn <= s :: y == n || y.k.sn < n.k.sn
  {
    forall x | x in ins && x.k.user == u && n.k.sn < x.k.sn <= smallest
      ensures false
    {
      assert Candidate(all, u, s, x);
    }
    forall y | y in all && y.k.user == u && y.k.sn <= s
      ensures y == n || y.k.sn < n.k.sn
    {
      assert Candidate(all, u, s, y);
    }
  }

  /** Below a dropped deletion only entries outside the inputs can be seen. */
  lemma BelowDeletion(all: set<Entry>, ins: set<Entry>, smallest: nat, base: iset<UserKey>, t: Entry, s: nat)
    requires UniqueSeqs(all) && ins <= all && smallest <= s
    requires t in ins && t.k.sn <= smallest && t !in Kept(ins, smallest, base)
    requires forall y | y in all && y.k.user == t.k.user && y.k.sn <= s :: y == t || y.k.sn < t.k.sn
    ensures forall y :: Candidate(After(all, ins, smallest, base), t.k.user, s, y)
                        <==> Candidate(all - ins, t.k.user, t.k.sn, y)
  {
    forall y | Candidate(After(all, ins, smallest, base), t.k.user, s, y)
      ensures Candidate(all - ins, t.k.user, t.k.sn, y)
    {
      assert y != t;
      if y in Kept(ins, smallest, base) {
        assert y.k.sn < t.k.sn;
        assert Hidden(ins, y, smallest);
      }
    }
  }

  lemma SubsetUniqueSeqs(a: set<Entry>, b: set<Entry>)
    requires UniqueSeqs(b) && a <= b
    ensures UniqueSeqs(a)
  {
  }

  /** Reads agree at `s` unless a deletion is dropped over an older value. */
  lemma ReadsAgree(all: set<Entry>, ins: set<Entry>, smallest: nat, base: iset<UserKey>, floor: nat, u: UserKey, s: nat)
    requires UniqueSeqs(all) && ins <= all && smallest <= floor <= s
    requires forall t, x :: !Revives(all, ins, smallest, base, floor, t, x)
    ensures Read(all, u, s) == Read(After(all, ins, smallest, base), u, s)
  {
    var after := After(all, ins, smallest, base);
    SubsetUniqueSeqs(after, all);
    SubsetUniqueSeqs(all - ins, all);
    if e :| Candidate(all, u, s, e) {
      var n := NewestExists(all, u, s, e);
      ReadNewest(all, u, s, n);
      if n in after {
        assert IsNewest(after, u, s, n) by {
          forall x | Candidate(after, u, s, x)
            ensures x.k.sn <= n.k.sn
          {
            assert Candidate(all, u, s, x);
          }
        }
        ReadNewest(after, u, s, n);
      } else {
        DroppedNewest(all, ins, smallest, base, u, s, n);
        NewestBelow(all, u, floor, s, n);
        BelowDeletion(all, ins, smallest, base, n, s);
        if y :| Candidate(all - ins, u, n.k.sn, y) {
          var x := NewestExists(all - ins, u, n.k.sn, y);
          assert !Revives(all, ins, smallest, base, floor, n, x);
          assert IsNewest(after, u, s, x);
          ReadNewest(after, u, s, x);
        } else {
          ReadNothing(after, u, s);
        }
      }
    } else {
      ReadNothing(all, u, s);
      forall x | Candidate(after, u, s, x)
        ensures false
      {
        assert Candidate(all, u, s, x);
      }
      ReadNothing(after, u, s);
    }
  }

  /** What a later snapshot sees is what an earlier one sees, if it is that old. */
  lemma NewestBelow(all: set<Entry>, u: UserKey, floor: nat, s: nat, n: Entry)
    requires IsNewest(all, u, s, n) && n.k.sn <= floor <= s
    ensures IsNewest(all, u, floor, n)
  {
    forall x | Candidate(all, u, floor, x)
      ensures x.k.sn <= n.k.sn
    {
      assert Candidate(all, u, s, x);
    }
  }

  /** A revived value is visible to the snapshot, which saw nothing before. */
  lemma RevivedIsRead(all: set<Entry>, ins: set<Entry>, smallest: nat, base: iset<UserKey>, floor: nat, t: Entry, x: Entry)
    requires UniqueSeqs(all) && ins <= all && smallest <= floor
    requires Revives(all, ins, smallest, base, floor, t, x)
    ensures Read(all, t.k.user, floor) == NotFound
    ensures Read(After(all, ins, smallest, base), t.k.user, floor) == Found(x.v)
  {
    var u, after := t.k.user, After(all, ins, smallest, base);
    SubsetUniqueSeqs(after, all);
    ReadNewest(all, u, floor, t);
    forall y | y in all && y.k.user == u && y.k.sn <= floor
      ensures y == t || y.k.sn < t.k.sn
    {
      assert Candidate(all, u, floor, y);
    }
    BelowDeletion(all, ins, smallest, base, t, floor);
    assert IsNewest(after, u, floor, x);
    ReadNewest(after, u, floor, x);
  }

  /** Exactly when a compaction preserves every read at the snapshots from `floor` on. */
  lemma PreservesReadsIff(all: set<Entry>, ins: set<Entry>, smallest: nat, base: iset<UserKey>, floor: nat)
    requires UniqueSeqs(all) && ins <= all && smallest <= floor
    ensures ReadEquivalent(all, After(all, ins, smallest, base), floor)
            <==> forall t, x :: !Revives(all, ins, smallest, base, floor, t, x)
  {
    if forall t, x :: !Revives(all, ins, smallest, base, floor, t, x) {
      forall u: UserKey, s: nat | floor <= s
        ensures Read(all, u, s) == Read(After(all, ins, smallest, base), u, s)
      {
        ReadsAgree(all, ins, smallest, base, floor, u, s);
      }
    } else {
      var t, x :| Revives(all, ins, smallest, base, floor, t, x);
      RevivedIsRead(all, ins, smallest, base, floor, t, x);
    }
  }
}

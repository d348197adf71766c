/** What a read means: the newest entry of the key that the snapshot may see. */
module Mvcc {
  import opened InternalKeys

  datatype ReadResult = NotFound | Found(value: Value)

  /** `e` is an entry of `u` that snapshot `s` may see. */
  ghost predicate Candidate(es: set<Entry>, u: UserKey, s: nat, e: Entry) {
    e in es && e.k.user == u && e.k.sn <= s
  }

  ghost predicate IsNewest(es: set<Entry>, u: UserKey, s: nat, e: Entry) {
    Candidate(es, u, s, e) &&
    forall x | Candidate(es, u, s, x) :: x.k.sn <= e.k.sn
  }

  function Outcome(e: Entry): ReadResult {
    if e.k.kind.Put? then Found(e.v) else NotFound
  }

  /** The one-line specification of a read at a snapshot. */
  ghost function Read(es: set<Entry>, u: UserKey, s: nat): ReadResult {
    if exists e :: IsNewest(es, u, s, e) then
      var e :| IsNewest(es, u, s, e);
      Outcome(e)
    else NotFound
  }

  lemma ReadNewest(es: set<Entry>, u: UserKey, s: nat, e: Entry)
    requires UniqueSeqs(es)
    requires IsNewest(es, u, s, e)
    ensures Read(es, u, s) == Outcome(e)
  {
    forall x | IsNewest(es, u, s, x)
      ensures x == e
    {
      assert Candidate(es, u, s, x) && Candidate(es, u, s, e);
    }
  }

  lemma ReadNothing(es: set<Entry>, u: UserKey, s: nat)
    requires forall e :: !Candidate(es, u, s, e)
    ensures Read(es, u, s) == NotFound
  {
  }

  /** As soon as there is a candidate there is a newest one. */
  lemma {:induction false} NewestExists(es: set<Entry>, u: UserKey, s: nat, e: Entry) returns (n: Entry)
    requires Candidate(es, u, s, e)
    ensures IsNewest(es, u, s, n)
    decreases |es|
  {
    var rest := es - {e};
    if x :| Candidate(rest, u, s, x) {
      var m := NewestExists(rest, u, s, x);
      n := if m.k.sn < e.k.sn then e else m;
      forall y | Candidate(es, u, s, y)
        ensures y.k.sn <= n.k.sn
      {
        if y != e {
          assert Candidate(rest, u, s, y);
        }
      }
    } else {
      n := e;
      forall y | Candidate(es, u, s, y)
        ensures y == e
      {
        if y != e {
          assert Candidate(rest, u, s, y);
        }
      }
    }
  }

  /** Two stores read alike at every snapshot from `smallest` on. */
  ghost predicate ReadEquivalent(a: set<Entry>, b: set<Entry>, smallest: nat) {
    forall u: UserKey, s: nat | smallest <= s :: Read(a, u, s) == Read(b, u, s)
  }

  /** Reads depend only on the candidates. */
  lemma SameCandidatesSameRead(a: set<Entry>, b: set<Entry>, u: UserKey, s: nat, t: nat)
    requires UniqueSeqs(a) && UniqueSeqs(b)
    requires forall e :: Candidate(a, u, s, e) <==> Candidate(b, u, t, e)
    ensures Read(a, u, s) == Read(b, u, t)
  {
    if e :| Candidate(a, u, s, e) {
      var n := NewestExists(a, u, s, e);
      assert IsNewest(b, u, t, n);
      ReadNewest(a, u, s, n);
      ReadNewest(b, u, t, n);
    } else {
      ReadNothing(a, u, s);
      ReadNothing(b, u, t);
    }
  }

  /** Entries newer than everything else may be added on both sides. */
  lemma NewEntriesKeepEquivalence(h: set<Entry>, a: set<Entry>, n: set<Entry>, smallest: nat, last: nat)
    requires UniqueSeqs(h + n) && a <= h
    requires (forall e | e in h :: e.k.sn <= last) && (forall e | e in n :: e.k.sn > last)
    requires ReadEquivalent(h, a, smallest)
    ensures ReadEquivalent(h + n, a + n, smallest)
  {
    forall u: UserKey, s: nat | smallest <= s
      ensures Read(h + n, u, s) == Read(a + n, u, s)
    {
      NewEntriesKeepRead(h, a, n, last, u, s);
    }
  }

  lemma NewEntriesKeepRead(h: set<Entry>, a: set<Entry>, n: set<Entry>, last: nat, u: UserKey, s: nat)
    requires UniqueSeqs(h + n) && a <= h
    requires (forall e | e in h :: e.k.sn <= last) && (forall e | e in n :: e.k.sn > last)
    requires Read(h, u, s) == Read(a, u, s)
    ensures Read(h + n, u, s) == Read(a + n, u, s)
  {
    if e :| Candidate(n, u, s, e) {
      var m := NewestExists(n, u, s, e);
      assert IsNewest(h + n, u, s, m) by {
        forall x | Candidate(h + n, u, s, x)
          ensures x.k.sn <= m.k.sn
        {
          assert x in n ==> Candidate(n, u, s, x);
        }
      }
      assert IsNewest(a + n, u, s, m) by {
        forall x | Candidate(a + n, u, s, x)
          ensures x.k.sn <= m.k.sn
        {
          assert Candidate(h + n, u, s, x);
        }
      }
      ReadNewest(h + n, u, s, m);
      ReadNewest(a + n, u, s, m);
    } else {
      forall x
        ensures Candidate(h + n, u, s, x) <==> Candidate(h, u, s, x)
        ensures Candidate(a + n, u, s, x) <==> Candidate(a, u, s, x)
      {
        assert !Candidate(n, u, s, x);
      }
      SameCandidatesSameRead(h + n, h, u, s, s);
      SameCandidatesSameRead(a + n, a, u, s, s);
    }
  }

  /** Equivalence from any later snapshot reaches back to the newest entry there is. */
  lemma EquivalenceFromNewest(h: set<Entry>, a: set<Entry>, smallest: nat, last: nat)
    requires UniqueSeqs(h) && a <= h
    requires forall e | e in h :: e.k.sn <= last
    requires ReadEquivalent(h, a, smallest)
    ensures ReadEquivalent(h, a, last)
  {
    forall u: UserKey, s: nat | last <= s
      ensures Read(h, u, s) == Read(a, u, s)
    {
      var t := if s < smallest then smallest else s;
      SameCandidatesSameRead(h, h, u, s, t);
      SameCandidatesSameRead(a, a, u, s, t);
    }
  }

  lemma EquivalenceTransitive(a: set<Entry>, b: set<Entry>, c: set<Entry>, m: nat, n: nat)
    requires ReadEquivalent(a, b, m) && ReadEquivalent(b, c, n)
    ensures ReadEquivalent(a, c, if m < n then n else m)
  {
  }
}

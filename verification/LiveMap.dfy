/** The sorted list of user keys that are live at a snapshot: what a user-level iterator ranges over. */
module LiveMap {
  import opened InternalKeys
  import opened Mvcc
  import opened Version

  datatype Pair = Pair(key: UserKey, value: Value)

  predicate Visible(e: Entry, s: nat) {
    e.k.sn <= s
  }

  /** Entry `i` is the newest visible one of its user key. */
  ghost predicate IsTop(es: seq<Entry>, s: nat, i: nat)
    requires i < |es|
  {
    Visible(es[i], s) && forall j | 0 <= j < i && es[j].k.user == es[i].k.user :: !Visible(es[j], s)
  }

  ghost predicate IsLive(es: seq<Entry>, s: nat, i: nat) {
    i < |es| && IsTop(es, s, i) && es[i].k.kind.Put?
  }

  /** The live pairs among the first `n` entries. */
  ghost function LiveUpTo(es: seq<Entry>, s: nat, n: nat): seq<Pair>
    requires n <= |es|
  {
    if n == 0 then []
    else LiveUpTo(es, s, n - 1) + if IsLive(es, s, n - 1) then [Pair(es[n - 1].k.user, es[n - 1].v)] else []
  }

  ghost function Live(es: seq<Entry>, s: nat): seq<Pair> {
    LiveUpTo(es, s, |es|)
  }

  /** A stretch without live entries adds nothing. */
  lemma {:induction false} NoLiveBetween(es: seq<Entry>, s: nat, a: nat, b: nat)
    requires a <= b <= |es| && forall i | a <= i < b :: !IsLive(es, s, i)
    ensures LiveUpTo(es, s, a) == LiveUpTo(es, s, b)
  {
    if a < b {
      NoLiveBetween(es, s, a, b - 1);
    }
  }

  lemma {:induction false} LivePrefix(es: seq<Entry>, s: nat, a: nat, b: nat)
    requires a <= b <= |es|
    ensures LiveUpTo(es, s, a) <= LiveUpTo(es, s, b)
  {
    if a < b {
      LivePrefix(es, s, a, b - 1);
    }
  }

  /** A live entry is found in the list at the number of live entries before it. */
  lemma LiveAt(es: seq<Entry>, s: nat, i: nat)
    requires IsLive(es, s, i)
    ensures |LiveUpTo(es, s, i)| < |Live(es, s)|
    ensures Live(es, s)[|LiveUpTo(es, s, i)|] == Pair(es[i].k.user, es[i].v)
  {
    LivePrefix(es, s, i + 1, |es|);
  }

  /** From one live entry to the next. */
  lemma NextLive(es: seq<Entry>, s: nat, i: nat, j: nat)
    requires IsLive(es, s, i) && i < j <= |es|
    requires forall h | i < h < j :: !IsLive(es, s, h)
    ensures |LiveUpTo(es, s, j)| == |LiveUpTo(es, s, i)| + 1
  {
    NoLiveBetween(es, s, i + 1, j);
  }

  /** Live entries have distinct user keys, in order. */
  lemma LiveKeysIncrease(es: seq<Entry>, s: nat, i: nat, j: nat)
    requires Sorted(es) && i < j && IsLive(es, s, i) && j < |es| && IsTop(es, s, j)
    ensures es[i].k.user < es[j].k.user
  {
    assert Before(es[i].k, es[j].k);
  }

  ghost predicate IncreasingKeys(ps: seq<Pair>) {
    forall i, j | 0 <= i < j < |ps| :: ps[i].key < ps[j].key
  }

  lemma {:induction false} LiveUpToMeaning(es: seq<Entry>, s: nat, n: nat)
    requires Sorted(es) && n <= |es|
    ensures IncreasingKeys(LiveUpTo(es, s, n))
    ensures forall p :: p in LiveUpTo(es, s, n) <==> exists i :: 0 <= i < n && IsLive(es, s, i) && p == Pair(es[i].k.user, es[i].v)
  {
    if n > 0 {
      LiveUpToMeaning(es, s, n - 1);
      var init := LiveUpTo(es, s, n - 1);
      if IsLive(es, s, n - 1) {
        forall p | p in init
          ensures p.key < es[n - 1].k.user
        {
          var i :| 0 <= i < n - 1 && IsLive(es, s, i) && p == Pair(es[i].k.user, es[i].v);
          LiveKeysIncrease(es, s, i, n - 1);
        }
      }
      forall p | p in LiveUpTo(es, s, n)
        ensures exists i :: 0 <= i < n && IsLive(es, s, i) && p == Pair(es[i].k.user, es[i].v)
      {
        if p in init {
          var i :| 0 <= i < n - 1 && IsLive(es, s, i) && p == Pair(es[i].k.user, es[i].v);
        } else {
          assert IsLive(es, s, n - 1);
        }
      }
    }
  }

  /** A visible entry with none of its key before it is the newest one a reader may see. */
  lemma TopIsNewest(es: seq<Entry>, s: nat, i: nat)
    requires Sorted(es) && i < |es| && IsTop(es, s, i)
    ensures IsNewest(Elements(es), es[i].k.user, s, es[i])
  {
    forall x | Candidate(Elements(es), es[i].k.user, s, x)
      ensures x.k.sn <= es[i].k.sn
    {
      var j :| 0 <= j < |es| && es[j] == x;
      if i < j {
        assert Before(es[i].k, es[j].k);
        assert es[i].k.sn * 256 <= Tag(es[i].k) <= es[i].k.sn * 256 + 1;
        assert es[j].k.sn * 256 <= Tag(es[j].k) <= es[j].k.sn * 256 + 1;
      }
    }
  }

  lemma {:induction false} TopExists(es: seq<Entry>, s: nat, j: nat) returns (i: nat)
    requires Sorted(es) && j < |es| && Visible(es[j], s)
    ensures i <= j && IsTop(es, s, i) && es[i].k.user == es[j].k.user
  {
    if IsTop(es, s, j) {
      i := j;
    } else {
      var h :| 0 <= h < j && es[h].k.user == es[j].k.user && Visible(es[h], s);
      i := TopExists(es, s, h);
    }
  }

  /** The live list is exactly the map of successful reads at the snapshot, sorted by key. */
  lemma LiveIsReadMap(es: seq<Entry>, s: nat, u: UserKey, v: Value)
    requires Sorted(es) && UniqueSeqs(Elements(es))
    ensures Pair(u, v) in Live(es, s) <==> Read(Elements(es), u, s) == Found(v)
    ensures IncreasingKeys(Live(es, s))
  {
    LiveUpToMeaning(es, s, |es|);
    if Pair(u, v) in Live(es, s) {
      var i :| 0 <= i < |es| && IsLive(es, s, i) && Pair(u, v) == Pair(es[i].k.user, es[i].v);
      TopIsNewest(es, s, i);
      ReadNewest(Elements(es), u, s, es[i]);
    }
    if Read(Elements(es), u, s) == Found(v) {
      var e :| IsNewest(Elements(es), u, s, e);
      assert Candidate(Elements(es), u, s, e);
      var j :| 0 <= j < |es| && es[j] == e;
      var i := TopExists(es, s, j);
      TopIsNewest(es, s, i);
      ReadNewest(Elements(es), u, s, es[i]);
      assert IsLive(es, s, i);
    }
  }

  lemma AnyPair(ps: seq<Pair>) returns (p: Pair)
    requires ps != []
    ensures p in ps
  {
    p := ps[0];
  }

  /** A list in key order is determined by its pairs. */
  lemma {:induction false} IncreasingUnique(ps: seq<Pair>, qs: seq<Pair>)
    requires IncreasingKeys(ps) && IncreasingKeys(qs) && forall p :: p in ps <==> p in qs
    ensures ps == qs
    decreases |ps|
  {
    if ps == [] {
      if qs != [] {
        var p := AnyPair(qs);
      }
    } else {
      assert ps[0] in qs;
      assert qs[0] in ps;
      assert ps[0] == qs[0];
      forall p
        ensures p in ps[1..] <==> p in qs[1..]
      {
        assert p in ps <==> p == ps[0] || p in ps[1..];
        assert p in qs <==> p == qs[0] || p in qs[1..];
      }
      IncreasingUnique(ps[1..], qs[1..]);
    }
  }

  /** Two runs that read the same at the snapshot list the same pairs. */
  lemma SameReadsSameLive(es: seq<Entry>, fs: seq<Entry>, s: nat)
    requires Sorted(es) && UniqueSeqs(Elements(es)) && Sorted(fs) && UniqueSeqs(Elements(fs))
    requires forall u: UserKey :: Read(Elements(es), u, s) == Read(Elements(fs), u, s)
    ensures Live(es, s) == Live(fs, s)
  {
    hide Live, Read, UniqueSeqs, IncreasingKeys;
    forall p
      ensures p in Live(es, s) <==> p in Live(fs, s)
    {
      LiveIsReadMap(es, s, p.key, p.value);
      LiveIsReadMap(fs, s, p.key, p.value);
      assert p == Pair(p.key, p.value);
    }
    LiveIsReadMap(es, s, 0.0, "");
    LiveIsReadMap(fs, s, 0.0, "");
    IncreasingUnique(Live(es, s), Live(fs, s));
  }

  /** A cursor at a live entry stays where it is in the list when the run gains entries the snapshot cannot see. */
  lemma GrowthKeepsCursor(es: seq<Entry>, fs: seq<Entry>, s: nat, i: nat) returns (j: nat)
    requires Sorted(es) && Sorted(fs) && UniqueSeqs(Elements(fs))
    requires Elements(es) <= Elements(fs) && forall e | e in fs && e !in es :: e.k.sn > s
    requires IsLive(es, s, i)
    ensures Live(fs, s) == Live(es, s)
    ensures IsLive(fs, s, j) && fs[j] == es[i] && |LiveUpTo(fs, s, j)| == |LiveUpTo(es, s, i)|
  {
    GrowthKeepsLive(es, fs, s);
    assert es[i] in Elements(fs);
    j :| 0 <= j < |fs| && fs[j] == es[i];
    VisibleStay(es, fs, s, i, j);
    LiveAt(es, s, i);
    LiveAt(fs, s, j);
    LiveUpToMeaning(es, s, |es|);
  }

  lemma VisibleStay(es: seq<Entry>, fs: seq<Entry>, s: nat, i: nat, j: nat)
    requires Sorted(es) && Sorted(fs) && IsLive(es, s, i) && j < |fs| && fs[j] == es[i]
    requires forall e | e in fs && e !in es :: e.k.sn > s
    ensures IsLive(fs, s, j)
  {
    forall h | 0 <= h < j && fs[h].k.user == fs[j].k.user
      ensures !Visible(fs[h], s)
    {
      if Visible(fs[h], s) {
        assert fs[h] in fs;
        var g :| 0 <= g < |es| && es[g] == fs[h];
      }
    }
  }

  lemma GrowthKeepsLive(es: seq<Entry>, fs: seq<Entry>, s: nat)
    requires Sorted(es) && Sorted(fs) && UniqueSeqs(Elements(fs))
    requires Elements(es) <= Elements(fs) && forall e | e in fs && e !in es :: e.k.sn > s
    ensures Live(fs, s) == Live(es, s)
  {
    hide Live, Read;
    SubsetUnique(Elements(es), Elements(fs));
    forall u: UserKey
      ensures Read(Elements(es), u, s) == Read(Elements(fs), u, s)
    {
      SameCandidatesSameRead(Elements(es), Elements(fs), u, s, s);
    }
    SameReadsSameLive(es, fs, s);
  }

  lemma SubsetUnique(a: set<Entry>, b: set<Entry>)
    requires a <= b && UniqueSeqs(b)
    ensures UniqueSeqs(a)
  {
  }

  /** How many live keys are below `u`. */
  ghost function CountBelow(ps: seq<Pair>, u: UserKey): nat {
    if ps == [] || ps[0].key >= u then 0 else 1 + CountBelow(ps[1..], u)
  }

  lemma {:induction false} CountBelowIs(ps: seq<Pair>, u: UserKey, n: nat)
    requires n <= |ps|
    requires forall i | 0 <= i < n :: ps[i].key < u
    requires n < |ps| ==> ps[n].key >= u
    ensures CountBelow(ps, u) == n
  {
    if n > 0 {
      CountBelowIs(ps[1..], u, n - 1);
    }
  }
}

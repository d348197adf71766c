/** DBIter: a cursor over the live keys at a snapshot, on top of a cursor over all entries. */
module DbIterator {
  import opened InternalKeys
  import opened Version
  import opened Boundary
  import opened Merging
  import opened LiveMap

  /** The first index an advance from `at` reaches; |es| is the invalid position. */
  function AfterPosition(es: seq<Entry>, at: nat): nat {
    if at == |es| then 0 else at + 1
  }

  /** Moving backwards, the inner cursor is before all visible entries of the current key; whatever it has
      passed over since is invisible. */
  ghost predicate Behind(es: seq<Entry>, s: nat, at: nat, spot: nat) {
    && at <= |es| && spot < |es| && AfterPosition(es, at) <= spot
    && (at < |es| ==> es[at].k.user < es[spot].k.user)
    && (forall i | AfterPosition(es, at) <= i < spot :: !Visible(es[i], s))
  }

  /** The next entry FindNextUserEntry may stop at: live, and past the key to skip. */
  ghost predicate Acceptable(es: seq<Entry>, s: nat, i: nat, skip: Option<UserKey>) {
    IsLive(es, s, i) && (skip.Some? ==> es[i].k.user > skip.value)
  }

  /** What the caller of FindNextUserEntry has to guarantee about the start position. */
  ghost predicate ScanStart(es: seq<Entry>, s: nat, q: nat, skip: Option<UserKey>) {
    && q < |es|
    && (forall j | 0 <= j < q && Visible(es[j], s) ::
          es[j].k.user < es[q].k.user || (skip.Some? && es[j].k.user <= skip.value))
    && (skip.Some? ==> forall i | q <= i < |es| && Visible(es[i], s) :: skip.value <= es[i].k.user)
  }

  /** Entries of `es[q..i]` are done with: none is acceptable, and the visible ones are covered by `skip`. */
  ghost predicate Scanned(es: seq<Entry>, s: nat, q: nat, i: nat, skip0: Option<UserKey>, skip: Option<UserKey>) {
    && i <= |es|
    && (forall j | q <= j < i :: !Acceptable(es, s, j, skip0))
    && (forall j | q <= j < i && Visible(es[j], s) :: skip.Some? && es[j].k.user <= skip.value)
    && (skip0.Some? ==> skip.Some? && skip0.value <= skip.value)
    && (skip.Some? ==> skip == skip0 || exists j :: q <= j < i && Visible(es[j], s) && es[j].k.user == skip.value)
  }

  /** One round of FindNextUserEntry. */
  lemma ScanStep(es: seq<Entry>, s: nat, q: nat, i: nat, skip0: Option<UserKey>, skip: Option<UserKey>)
    requires Sorted(es) && ScanStart(es, s, q, skip0) && q <= i < |es| && Scanned(es, s, q, i, skip0, skip)
    ensures !Visible(es[i], s) ==> Scanned(es, s, q, i + 1, skip0, skip)
    ensures Visible(es[i], s) && es[i].k.kind.Deletion? ==> Scanned(es, s, q, i + 1, skip0, Some(es[i].k.user))
    ensures Visible(es[i], s) && es[i].k.kind.Put? ==>
              if skip.Some? && es[i].k.user <= skip.value then Scanned(es, s, q, i + 1, skip0, skip)
              else Acceptable(es, s, i, skip0)
  {
    forall j | 0 <= j < i
      ensures es[j].k.user <= es[i].k.user
    {
      assert Before(es[j].k, es[i].k);
    }
    if Visible(es[i], s) && es[i].k.kind.Put? {
      if skip.Some? && es[i].k.user <= skip.value {
        assert !Acceptable(es, s, i, skip0);
      } else {
        forall j | 0 <= j < i && es[j].k.user == es[i].k.user
          ensures !Visible(es[j], s)
        {
          assert es[q].k.user <= es[i].k.user by {
            assert q < i ==> Before(es[q].k, es[i].k);
          }
        }
      }
    }
  }

  class DBIter {
    const iter: MergingIterator
    const sequence: nat
    var direction: Direction
    var valid: bool
    /** The current key and value while moving backwards; scratch space otherwise. */
    var savedKey: Option<UserKey>
    var savedValue: Value
    /** Where this iterator stands: an index into the live list, its length when invalid. */
    ghost var index: nat
    /** The entry it stands at. */
    ghost var spot: nat

    ghost function Entries(): seq<Entry> {
      iter.merged
    }

    ghost function LiveList(): seq<Pair> {
      Live(iter.merged, sequence)
    }

    ghost predicate Repr()
      reads this, iter
    {
      && iter.Repr()
      && (!valid ==> index == |LiveList()|)
      && (valid ==>
            && IsLive(Entries(), sequence, spot)
            && index == |LiveUpTo(Entries(), sequence, spot)|
            && if direction.Forward? then iter.at == spot
               else
                 && savedKey == Some(Entries()[spot].k.user) && savedValue == Entries()[spot].v
                 && Behind(Entries(), sequence, iter.at, spot))
    }

    constructor (iter: MergingIterator, sequence: nat)
      requires iter.Repr()
      ensures Repr() && !valid && this.iter == iter && this.sequence == sequence
    {
      this.iter, this.sequence := iter, sequence;
      direction, valid, savedKey, savedValue := Forward, false, None, "";
      index, spot := |Live(iter.merged, sequence)|, 0;
    }

    function Key(): UserKey
      requires Repr() && valid
      reads this, iter
    {
      if direction.Forward? then iter.Entry().k.user else savedKey.value
    }

    function Value(): InternalKeys.Value
      requires Repr() && valid
      reads this, iter
    {
      if direction.Forward? then iter.Entry().v else savedValue
    }

    /** What the user reads at a valid position is the pair of the live list. */
    lemma StandsAtPair()
      requires Repr() && valid
      ensures index < |LiveList()| && Pair(Key(), Value()) == LiveList()[index]
    {
      LiveAt(Entries(), sequence, spot);
    }

    lemma ValidIffInside()
      requires Repr()
      ensures valid <==> index < |LiveList()|
    {
      hide MergingIterator.Repr;
      if valid {
        StandsAtPair();
      }
    }

    /** FindNextUserEntry; `skip` is the key to skip past if `skipping`. */
    method FindNextUserEntry(skip: Option<UserKey>)
      requires iter.Repr() && direction.Forward?
      requires ScanStart(Entries(), sequence, iter.at, skip)
      modifies this`valid, this`savedKey, this`spot, iter
      ensures iter.Repr()
      ensures valid ==> spot == iter.at && Acceptable(Entries(), sequence, spot, skip) && old(iter.at) <= spot
      ensures forall i | old(iter.at) <= i < (if valid then spot else |Entries()|) :: !Acceptable(Entries(), sequence, i, skip)
    {
      hide MergingIterator.Repr;
      var es := iter.merged;
      ghost var q := iter.at;
      var skipKey := skip;
      assert Scanned(es, sequence, q, q, skip, skipKey);
      while iter.Valid()
        invariant iter.Repr() && q <= iter.at <= |es|
        invariant Scanned(es, sequence, q, iter.at, skip, skipKey)
        decreases |es| - iter.at
      {
        var e := iter.Entry();
        ScanStep(es, sequence, q, iter.at, skip, skipKey);
        if e.k.sn <= sequence {
          if e.k.kind.Deletion? {
            skipKey := Some(e.k.user);
          } else if skipKey.Some? && e.k.user <= skipKey.value {
          } else {
            valid, savedKey := true, None;
            spot := iter.at;
            return;
          }
        }
        iter.Next();
      }
      savedKey, valid := None, false;
    }

    method Seek(target: UserKey)
      requires Repr()
      modifies this, iter
      ensures Repr()
      ensures index == CountBelow(LiveList(), target)
    {
      hide MergingIterator.Repr;
      direction, savedValue, savedKey := Forward, "", None;
      iter.Seek(SeekKey(target, sequence));
      ghost var q := iter.at;
      SeekStartsScan(Entries(), sequence, target);
      valid := false;
      if iter.Valid() {
        FindNextUserEntry(None);
      }
      assert forall i :: Acceptable(Entries(), sequence, i, None) <==> IsLive(Entries(), sequence, i);
      index := |LiveUpTo(Entries(), sequence, if valid then spot else |Entries()|)|;
      SeekIndex(Entries(), sequence, target, q, if valid then spot else |Entries()|);
    }

    method SeekToFirst()
      requires Repr()
      modifies this, iter
      ensures Repr() && index == 0
    {
      hide MergingIterator.Repr;
      direction, savedValue := Forward, "";
      iter.SeekToFirst();
      valid := false;
      if iter.Valid() {
        FindNextUserEntry(None);
      }
      assert forall i :: Acceptable(Entries(), sequence, i, None) <==> IsLive(Entries(), sequence, i);
      NoLiveBetween(Entries(), sequence, 0, if valid then spot else |Entries()|);
      index := 0;
    }

    method Next()
      requires Repr() && valid
      modifies this, iter
      ensures Repr() && index == old(index) + 1
    {
      hide MergingIterator.Repr;
      ghost var from := spot;
      if direction.Reverse? {
        direction := Forward;
        if !iter.Valid() {
          iter.SeekToFirst();
        } else {
          iter.Next();
        }
        // Behind its entries the key itself is still to come, so there is always an entry here.
        assert iter.Valid();
      } else {
        savedKey := Some(iter.Entry().k.user);
      }
      ghost var q := iter.at;
      NextStartsScan(Entries(), sequence, q, from);
      FindNextUserEntry(savedKey);
      NextIndex(Entries(), sequence, from, q, if valid then spot else |Entries()|);
      index := index + 1;
    }

    /** FindPrevUserEntry: the last live entry at or before the inner position. */
    method FindPrevUserEntry()
      requires iter.Repr() && direction.Reverse?
      modifies this`valid, this`savedKey, this`savedValue, this`direction, this`spot, iter
      ensures iter.Repr()
      ensures var end := AfterPosition(Entries(), old(iter.at));
              && (valid ==>
                    && direction.Reverse? && spot < end && IsLive(Entries(), sequence, spot)
                    && savedKey == Some(Entries()[spot].k.user) && savedValue == Entries()[spot].v
                    && Behind(Entries(), sequence, iter.at, spot))
              && (forall i | (if valid then spot + 1 else 0) <= i < end :: !IsLive(Entries(), sequence, i))
    {
      hide MergingIterator.Repr;
      var es := iter.merged;
      ghost var end := AfterPosition(es, iter.at);
      var kind := Deletion;
      ghost var c: nat := 0;
      while iter.Valid()
        invariant iter.Repr() && AfterPosition(es, iter.at) <= end <= |es|
        invariant BackScanned(es, sequence, AfterPosition(es, iter.at), end, kind, c)
        invariant kind.Put? ==> savedKey == Some(es[c].k.user) && savedValue == es[c].v
        invariant direction.Reverse?
        decreases AfterPosition(es, iter.at)
      {
        var e := iter.Entry();
        BackStep(es, sequence, iter.at, end, kind, c);
        if e.k.sn <= sequence {
          if kind.Put? && e.k.user < savedKey.value {
            break;
          }
          kind := e.k.kind;
          if kind.Deletion? {
            savedKey, savedValue := None, "";
          } else {
            savedKey, savedValue := Some(e.k.user), e.v;
            c := iter.at;
          }
        }
        iter.Prev();
      }
      if kind.Deletion? {
        valid, savedKey, savedValue, direction := false, None, "", Forward;
      } else {
        valid := true;
        spot := c;
      }
    }

    method SeekToLast()
      requires Repr()
      modifies this, iter
      ensures Repr() && index == if LiveList() == [] then 0 else |LiveList()| - 1
    {
      hide MergingIterator.Repr;
      direction, savedValue := Reverse, "";
      iter.SeekToLast();
      ghost var end := AfterPosition(Entries(), iter.at);
      assert end == |Entries()|;
      FindPrevUserEntry();
      PrevIndex(Entries(), sequence, end, end, valid, spot);
      index := if valid then |LiveList()| - 1 else 0;
    }

    /** The part of Prev that leaves the entries of the current key when moving forward so far. */
    method LeaveKeyBackwards()
      requires Repr() && valid && direction.Forward?
      modifies this`savedKey, iter
      ensures iter.Repr()
      ensures AfterPosition(Entries(), iter.at) <= spot
      ensures forall i | AfterPosition(Entries(), iter.at) <= i < spot :: !IsLive(Entries(), sequence, i)
    {
      hide MergingIterator.Repr;
      var es := iter.merged;
      var u := iter.Entry().k.user;
      savedKey := Some(u);
      iter.Prev();
      while iter.Valid() && !(iter.Entry().k.user < u)
        invariant iter.Repr() && AfterPosition(es, iter.at) <= spot
        invariant forall i | AfterPosition(es, iter.at) <= i < spot :: es[i].k.user >= u
        decreases AfterPosition(es, iter.at)
      {
        iter.Prev();
      }
      forall i | AfterPosition(es, iter.at) <= i < spot
        ensures !IsLive(es, sequence, i)
      {
        if IsLive(es, sequence, i) {
          LiveKeysIncrease(es, sequence, i, spot);
        }
      }
    }

    method Prev()
      requires Repr() && valid
      modifies this, iter
      ensures Repr() && index == if old(index) == 0 then |LiveList()| else old(index) - 1
    {
      hide MergingIterator.Repr;
      ghost var from, was := spot, index;
      if direction.Forward? {
        LeaveKeyBackwards();
        if !iter.Valid() {
          valid, savedKey, savedValue := false, None, "";
          PrevIndex(Entries(), sequence, from, 0, false, 0);
          index := |LiveList()|;
          return;
        }
        direction := Reverse;
      }
      ghost var end := AfterPosition(Entries(), iter.at);
      FindPrevUserEntry();
      PrevIndex(Entries(), sequence, from, end, valid, spot);
      index := if valid then was - 1 else |LiveList()|;
    }
  }

  /** What a client can do with an iterator; Next and Prev are only called on a valid one. */
  datatype CursorOp = SeekTo(target: UserKey) | ToFirst | ToLast | Forth | Back

  /** A cursor over a plain list; the length is the invalid position. */
  ghost function Moved(ps: seq<Pair>, i: nat, op: CursorOp): nat {
    match op
    case SeekTo(target) => CountBelow(ps, target)
    case ToFirst => 0
    case ToLast => if ps == [] then 0 else |ps| - 1
    case Forth => if i < |ps| then i + 1 else i
    case Back => if i >= |ps| then i else if i == 0 then |ps| else i - 1
  }

  ghost function MovedAll(ps: seq<Pair>, i: nat, ops: seq<CursorOp>): nat {
    if ops == [] then i else Moved(ps, MovedAll(ps, i, ops[..|ops| - 1]), ops[|ops| - 1])
  }

  /** Any sequence of operations, with every change of direction, leaves the iterator exactly where a cursor
      over the list of live keys would stand, with that key and value. */
  method Drive(it: DBIter, ops: seq<CursorOp>)
    requires it.Repr()
    modifies it, it.iter
    ensures it.Repr()
    ensures it.index == MovedAll(it.LiveList(), old(it.index), ops)
    ensures it.valid <==> it.index < |it.LiveList()|
    ensures it.valid ==> Pair(it.Key(), it.Value()) == it.LiveList()[it.index]
  {
    hide MergingIterator.Repr;
    ghost var ps := it.LiveList();
    for i := 0 to |ops|
      invariant it.Repr() && it.index == MovedAll(ps, old(it.index), ops[..i])
    {
      assert ops[..i + 1][..i] == ops[..i];
      it.ValidIffInside();
      match ops[i] {
        case SeekTo(target) => it.Seek(target);
        case ToFirst => it.SeekToFirst();
        case ToLast => it.SeekToLast();
        case Forth =>
          if it.valid {
            it.Next();
          }
        case Back =>
          if it.valid {
            it.Prev();
          }
      }
    }
    assert ops[..|ops|] == ops;
    it.ValidIffInside();
    if it.valid {
      it.StandsAtPair();
    }
  }

  /** The live entry before position `from` is the last one before `end`, if nothing is live in between. */
  lemma PrevIndex(es: seq<Entry>, s: nat, from: nat, end: nat, found: bool, spot: nat)
    requires end <= from <= |es| && forall i | end <= i < from :: !IsLive(es, s, i)
    requires found ==> spot < end && IsLive(es, s, spot)
    requires forall i | (if found then spot + 1 else 0) <= i < end :: !IsLive(es, s, i)
    ensures |LiveUpTo(es, s, from)| == if found then |LiveUpTo(es, s, spot)| + 1 else 0
  {
    if found {
      NextLive(es, s, spot, from);
    } else {
      NoLiveBetween(es, s, 0, from);
    }
  }

  lemma SeekStartsScan(es: seq<Entry>, s: nat, target: UserKey)
    requires Sorted(es)
    ensures var q := LowerBound(es, SeekKey(target, s)); q < |es| ==> ScanStart(es, s, q, None)
    ensures forall i | 0 <= i < LowerBound(es, SeekKey(target, s)) && Visible(es[i], s) :: es[i].k.user < target
    ensures forall i | LowerBound(es, SeekKey(target, s)) <= i < |es| :: es[i].k.user >= target
  {
    var q := LowerBound(es, SeekKey(target, s));
    forall i | 0 <= i < |es|
      ensures i < q <==> es[i].k.user < target || (es[i].k.user == target && !Visible(es[i], s))
    {
      BelowBoundIff(es, SeekKey(target, s), i);
      SeekKeySkips(target, s, es[i].k);
    }
  }

  /** A seek stands at the first live key at or after the target. */
  lemma SeekIndex(es: seq<Entry>, s: nat, target: UserKey, q: nat, stop: nat)
    requires Sorted(es) && q <= stop <= |es|
    requires forall i | 0 <= i < q && Visible(es[i], s) :: es[i].k.user < target
    requires forall i | q <= i < |es| :: es[i].k.user >= target
    requires forall i | q <= i < stop :: !IsLive(es, s, i)
    requires stop < |es| ==> IsLive(es, s, stop)
    ensures |LiveUpTo(es, s, stop)| == CountBelow(Live(es, s), target)
  {
    NoLiveBetween(es, s, q, stop);
    var n := |LiveUpTo(es, s, q)|;
    LivePrefix(es, s, q, |es|);
    LiveUpToMeaning(es, s, q);
    forall i | 0 <= i < n
      ensures Live(es, s)[i].key < target
    {
      assert LiveUpTo(es, s, q)[i] in LiveUpTo(es, s, q);
    }
    if n < |Live(es, s)| {
      if stop < |es| {
        LiveAt(es, s, stop);
      }
    }
    CountBelowIs(Live(es, s), target, n);
  }

  /** Wherever Next starts from, the entries of the current key and before are covered by the key to skip. */
  lemma NextStartsScan(es: seq<Entry>, s: nat, q: nat, from: nat)
    requires Sorted(es) && IsLive(es, s, from) && q <= from
    requires forall i | q <= i < from :: !Visible(es[i], s)
    ensures ScanStart(es, s, q, Some(es[from].k.user))
  {
    forall j | 0 <= j < |es|
      ensures j < from ==> es[j].k.user <= es[from].k.user
      ensures from < j ==> es[from].k.user <= es[j].k.user
    {
      assert j < from ==> Before(es[j].k, es[from].k);
      assert from < j ==> Before(es[from].k, es[j].k);
    }
  }

  lemma NextIndex(es: seq<Entry>, s: nat, from: nat, q: nat, stop: nat)
    requires Sorted(es) && IsLive(es, s, from) && q <= from && from <= stop <= |es|
    requires forall i | q <= i < stop :: !Acceptable(es, s, i, Some(es[from].k.user))
    requires stop < |es| ==> Acceptable(es, s, stop, Some(es[from].k.user))
    ensures |LiveUpTo(es, s, stop)| == |LiveUpTo(es, s, from)| + 1
  {
    assert stop != from;
    forall i | from < i < stop
      ensures !IsLive(es, s, i)
    {
      assert !Acceptable(es, s, i, Some(es[from].k.user));
      if IsLive(es, s, i) {
        LiveKeysIncrease(es, s, from, i);
      }
    }
    NextLive(es, s, from, stop);
  }

  /** Going backwards over `es[p..end]`: with a deletion (or nothing) seen last there is no live entry there;
      with a value seen last, it is the first visible entry, at `c`, and no other is live. */
  ghost predicate BackScanned(es: seq<Entry>, s: nat, p: nat, end: nat, kind: Kind, c: nat) {
    && p <= end <= |es|
    && (kind.Deletion? ==> forall i | p <= i < end :: !IsLive(es, s, i))
    && (kind.Put? ==>
          && p <= c < end && Visible(es[c], s) && es[c].k.kind.Put?
          && (forall i | p <= i < c :: !Visible(es[i], s))
          && (forall i | p <= i < end && i != c :: !IsLive(es, s, i)))
  }

  lemma BackStep(es: seq<Entry>, s: nat, at: nat, end: nat, kind: Kind, c: nat)
    requires Sorted(es) && at < |es| && BackScanned(es, s, at + 1, end, kind, c)
    ensures !Visible(es[at], s) ==> BackScanned(es, s, at, end, kind, c)
    ensures Visible(es[at], s) && kind.Put? && es[at].k.user < es[c].k.user ==> IsLive(es, s, c) && Behind(es, s, at, c)
    ensures Visible(es[at], s) && !(kind.Put? && es[at].k.user < es[c].k.user) ==> BackScanned(es, s, at, end, es[at].k.kind, at)
  {
  }
}

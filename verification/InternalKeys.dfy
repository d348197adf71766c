/** Internal keys and entries, and the order every structure of the store sorts by.

    A user key is a `real`: the code looks at user keys only through the user comparator, a total
    order on byte strings, and every countable total order embeds in the reals.  Nothing below uses
    more than comparison, so the results hold for every comparator. */
module InternalKeys {

  type UserKey = real

  type Value = string

  /** The two value types, kTypeDeletion = 0 and kTypeValue = 1. */
  datatype Kind = Deletion | Put

  /** Eight bits of the 64-bit tag are kept for the kind. */
  const MAX_SEQUENCE: nat := 0xff_ffff_ffff_ffff

  /** A user key, a sequence number and a kind. */
  datatype InternalKey = InternalKey(user: UserKey, sn: nat, kind: Kind)

  datatype Entry = Entry(k: InternalKey, v: Value)

  /** PackSequenceAndType: the sequence shifted over the eight kind bits. */
  function Tag(k: InternalKey): nat {
    k.sn * 256 + if k.kind.Put? then 1 else 0
  }

  /** Increasing user key, then decreasing tag. */
  predicate Before(a: InternalKey, b: InternalKey) {
    a.user < b.user || (a.user == b.user && Tag(a) > Tag(b))
  }

  predicate AtOrBefore(a: InternalKey, b: InternalKey) {
    !Before(b, a)
  }

  /** InternalKeyComparator::Compare. */
  function Compare(a: InternalKey, b: InternalKey): int {
    if a.user < b.user then -1
    else if a.user > b.user then 1
    else if Tag(a) > Tag(b) then -1
    else if Tag(a) < Tag(b) then 1
    else 0
  }

  /** The comparator is the total order `Before`, and it never confuses two different keys. */
  lemma CompareIsTotalOrder(a: InternalKey, b: InternalKey, c: InternalKey)
    ensures Compare(a, b) < 0 <==> Before(a, b)
    ensures Compare(a, b) > 0 <==> Before(b, a)
    ensures Compare(a, b) == 0 <==> a == b
    ensures Before(a, b) && Before(b, c) ==> Before(a, c)
  {
    if Compare(a, b) == 0 {
      assert a.sn * 256 <= Tag(a) < a.sn * 256 + 256;
      assert b.sn * 256 <= Tag(b) < b.sn * 256 + 256;
      assert a.sn == b.sn;
    }
  }

  /** The key a lookup of `u` at snapshot `s` seeks to (LookupKey). */
  function SeekKey(u: UserKey, s: nat): InternalKey {
    InternalKey(u, s, Put)
  }

  /** Seeking to a lookup key skips exactly the entries of smaller user keys and the entries of the
      same user key that are too new for the snapshot. */
  lemma SeekKeySkips(u: UserKey, s: nat, k: InternalKey)
    ensures Before(k, SeekKey(u, s)) <==> k.user < u || (k.user == u && k.sn > s)
  {
    assert k.sn * 256 <= Tag(k) <= k.sn * 256 + 1;
    assert Tag(SeekKey(u, s)) == s * 256 + 1;
  }

  ghost predicate Sorted(es: seq<Entry>) {
    forall i, j | 0 <= i < j < |es| :: Before(es[i].k, es[j].k)
  }

  /** No two entries carry the same sequence number. */
  ghost predicate UniqueSeqs(es: set<Entry>) {
    forall a, b | a in es && b in es && a.k.sn == b.k.sn :: a == b
  }

  ghost function Elements<T(!new)>(xs: seq<T>): (r: set<T>)
    ensures forall x :: x in r <==> x in xs
  {
    set x | x in xs
  }
}

/** The bytewise comparator, and the short keys it puts into index blocks. */
module Separators {
  import opened Coding

  type Bytes = seq<Byte>

  /** Lexicographic order (Slice::compare). */
  predicate Less(a: Bytes, b: Bytes) {
    if b == [] then false
    else if a == [] then true
    else if a[0] != b[0] then a[0] < b[0]
    else Less(a[1..], b[1..])
  }

  lemma {:induction false} LessIsTotal(a: Bytes, b: Bytes)
    ensures Less(a, b) || Less(b, a) || a == b
  {
    if a != [] && b != [] && a[0] == b[0] {
      LessIsTotal(a[1..], b[1..]);
      if a[1..] == b[1..] {
        assert a == [a[0]] + a[1..] && b == [b[0]] + b[1..];
      }
    }
  }

  lemma {:induction false} LessIsAsymmetric(a: Bytes, b: Bytes)
    requires Less(a, b)
    ensures !Less(b, a) && a != b
  {
    if a != [] && a[0] == b[0] {
      LessIsAsymmetric(a[1..], b[1..]);
    }
  }

  lemma {:induction false} LessIsTransitive(a: Bytes, b: Bytes, c: Bytes)
    requires Less(a, b) && Less(b, c)
    ensures Less(a, c)
  {
    if a != [] && a[0] == b[0] && b[0] == c[0] {
      LessIsTransitive(a[1..], b[1..], c[1..]);
    }
  }

  /** The first byte that differs decides. */
  lemma {:induction false} LessAt(a: Bytes, b: Bytes, i: nat)
    requires i < |b| && i <= |a| && a[..i] == b[..i]
    requires i < |a| ==> a[i] < b[i]
    ensures Less(a, b)
  {
    if i > 0 {
      assert a[0] == a[..i][0] && b[0] == b[..i][0];
      assert a[1..][..i - 1] == a[..i][1..] && b[1..][..i - 1] == b[..i][1..];
      LessAt(a[1..], b[1..], i - 1);
    }
  }

  /** BytewiseComparator::FindShortestSeparator.  The result lies in [start, limit), and differs from `start` only
      by being shorter or equally long, and greater. */
  method FindShortestSeparator(start: Bytes, limit: Bytes) returns (r: Bytes)
    ensures r == start || (Less(start, r) && Less(r, limit) && |r| <= |start|)
    ensures Less(start, limit) ==> Less(r, limit)
  {
    var minLength := if |start| < |limit| then |start| else |limit|;
    var diffIndex := 0;
    while diffIndex < minLength && start[diffIndex] == limit[diffIndex]
      invariant diffIndex <= minLength && start[..diffIndex] == limit[..diffIndex]
    {
      diffIndex := diffIndex + 1;
    }
    r := start;
    if diffIndex < minLength {
      var diffByte := start[diffIndex];
      if diffByte < 0xff && diffByte + 1 < limit[diffIndex] {
        r := start[..diffIndex] + [diffByte + 1];
        assert r[..diffIndex] == start[..diffIndex];
        LessAt(start, r, diffIndex);
        LessAt(r, limit, diffIndex);
      }
    }
  }

  /** BytewiseComparator::FindShortSuccessor: a key no smaller, and no longer. */
  method FindShortSuccessor(key: Bytes) returns (r: Bytes)
    ensures (r == key && forall i | 0 <= i < |key| :: key[i] == 0xff) || (Less(key, r) && |r| <= |key|)
  {
    for i := 0 to |key|
      invariant forall j | 0 <= j < i :: key[j] == 0xff
    {
      if key[i] != 0xff {
        r := key[..i] + [key[i] + 1];
        assert r[..i] == key[..i];
        LessAt(key, r, i);
        return;
      }
    }
    r := key;
  }

  // ---- Internal keys: a user key with the tag of sequence and type

  datatype Tagged = Tagged(user: Bytes, tag: nat)

  /** The tag every lookup of a user key can start from: PackSequenceAndType of the greatest sequence. */
  const MAX_TAG: nat := 0xff_ffff_ffff_ffff * 256 + 1

  /** InternalKeyComparator: increasing user key, then decreasing tag. */
  predicate TaggedLess(a: Tagged, b: Tagged) {
    Less(a.user, b.user) || (a.user == b.user && a.tag > b.tag)
  }

  predicate AtMost(a: Tagged, b: Tagged) {
    a == b || TaggedLess(a, b)
  }

  /** InternalKeyComparator::FindShortestSeparator.  The separator is the key itself, or it has a user key strictly
      between. */
  method InternalSeparator(start: Tagged, limit: Tagged) returns (r: Tagged)
    ensures r == start || (Less(start.user, r.user) && Less(r.user, limit.user) && r.tag == MAX_TAG)
    ensures AtMost(start, r)
    ensures TaggedLess(start, limit) ==> TaggedLess(r, limit)
  {
    var tmp := FindShortestSeparator(start.user, limit.user);
    r := start;
    if |tmp| < |start.user| && Less(start.user, tmp) {
      LessIsAsymmetric(start.user, tmp);
      r := Tagged(tmp, MAX_TAG);
    }
  }

  /** InternalKeyComparator::FindShortSuccessor. */
  method InternalSuccessor(key: Tagged) returns (r: Tagged)
    ensures r == key || (Less(key.user, r.user) && r.tag == MAX_TAG)
    ensures AtMost(key, r)
  {
    var tmp := FindShortSuccessor(key.user);
    r := key;
    if |tmp| < |key.user| && Less(key.user, tmp) {
      r := Tagged(tmp, MAX_TAG);
    }
  }
}

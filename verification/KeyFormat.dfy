/** Internal keys and memtable entries as bytes. */
module KeyFormat {
  import opened Coding
  import opened Separators
  import InternalKeys

  type Kind = InternalKeys.Kind

  datatype ParsedKey = ParsedKey(user: Bytes, sn: nat, kind: Kind)

  datatype Key = NoKey | Key(k: ParsedKey)

  /** PackSequenceAndType. */
  function Pack(k: ParsedKey): nat {
    k.sn * 256 + if k.kind.Put? then 1 else 0
  }

  ghost predicate InRange(k: ParsedKey) {
    k.sn <= InternalKeys.MAX_SEQUENCE
  }

  /** AppendInternalKey. */
  function PutKey(k: ParsedKey): (r: Bytes)
    ensures |r| == |k.user| + 8
  {
    k.user + PutFixed64(Pack(k))
  }

  function Unpack(user: Bytes, tag: nat): Key {
    if tag % 256 > 1 then NoKey
    else Key(ParsedKey(user, tag / 256, if tag % 256 == 1 then InternalKeys.Put else InternalKeys.Deletion))
  }

  /** ParseInternalKey. */
  function GetKey(s: Bytes): Key {
    if |s| < 8 then NoKey else Unpack(s[..|s| - 8], GetFixed64(s, |s| - 8))
  }

  lemma UnpackIff(user: Bytes, tag: nat, k: ParsedKey)
    ensures Unpack(user, tag) == Key(k) <==> k.user == user && Pack(k) == tag
  {
  }

  /** A string parses as `k` exactly if it is the encoding of `k`. */
  lemma ParsesIff(s: Bytes, k: ParsedKey)
    requires InRange(k)
    ensures GetKey(s) == Key(k) <==> s == PutKey(k)
  {
    hide PutFixed64, GetFixed64, Unpack, Pack;
    TagFits(k);
    if |s| >= 8 {
      var p := |s| - 8;
      UnpackIff(s[..p], GetFixed64(s, p), k);
      Fixed64Iff(Pack(k), s, p);
      assert s == s[..p] + s[p..p + 8];
      if s == PutKey(k) {
        assert s[..p] == k.user && s[p..p + 8] == PutFixed64(Pack(k));
      }
    }
  }

  lemma TagFits(k: ParsedKey)
    requires InRange(k)
    ensures Pack(k) < TWO_64
  {
  }

  function CompareUser(a: Bytes, b: Bytes): int {
    if Less(a, b) then -1 else if Less(b, a) then 1 else 0
  }

  /** InternalKeyComparator::Compare over the bytewise comparator. */
  function Compare(a: Bytes, b: Bytes): int
    requires |a| >= 8 && |b| >= 8
  {
    var r := CompareUser(a[..|a| - 8], b[..|b| - 8]);
    if r != 0 then r
    else
      var anum, bnum := GetFixed64(a, |a| - 8), GetFixed64(b, |b| - 8);
      if anum > bnum then -1 else if anum < bnum then 1 else 0
  }

  lemma TagOfKey(k: ParsedKey)
    requires InRange(k)
    ensures PutKey(k)[..|PutKey(k)| - 8] == k.user && GetFixed64(PutKey(k), |PutKey(k)| - 8) == Pack(k)
  {
    hide PutFixed64, GetFixed64, Pack;
    TagFits(k);
    var s := PutKey(k);
    assert s[|s| - 8..|s|] == PutFixed64(Pack(k));
    Fixed64Iff(Pack(k), s, |s| - 8);
  }

  /** On encoded keys the comparator is increasing user key, then decreasing sequence; it tells any two apart. */
  lemma CompareEncoded(a: ParsedKey, b: ParsedKey)
    requires InRange(a) && InRange(b)
    ensures Compare(PutKey(a), PutKey(b)) < 0 <==> TaggedLess(Tagged(a.user, Pack(a)), Tagged(b.user, Pack(b)))
    ensures Compare(PutKey(a), PutKey(b)) == 0 <==> a == b
    ensures a.user == b.user && a.sn > b.sn ==> Compare(PutKey(a), PutKey(b)) < 0
  {
    hide PutKey, GetFixed64, Less;
    TagOfKey(a);
    TagOfKey(b);
    LessIsTotal(a.user, b.user);
    if Less(a.user, b.user) {
      LessIsAsymmetric(a.user, b.user);
    } else if Less(b.user, a.user) {
      LessIsAsymmetric(b.user, a.user);
    }
  }

  // ---- Memtable entries

  /** The buffer MemTable::Add fills. */
  function PutEntry(k: ParsedKey, v: Bytes): Bytes {
    PutSlice(PutKey(k)) + PutSlice(v)
  }

  datatype MemResult = OtherKey | Deleted | Value(v: Bytes) | Malformed

  /** MemTable::Get of `user`, once the seek has stopped at the entry. */
  function ReadEntry(entry: Bytes, user: Bytes): MemResult {
    match GetVarint32(entry)
    case Failed => Malformed
    case Parsed(keyLength, rest) =>
      if keyLength < 8 || keyLength > |rest| then Malformed
      else if rest[..keyLength - 8] != user then OtherKey
      else
        var kind := GetFixed64(rest, keyLength - 8) % 256;
        if kind == 1 then
          match GetSlice(rest[keyLength..])
          case Parsed(v, _) => Value(v)
          case Failed => Malformed
        else if kind == 0 then Deleted else OtherKey
  }

  /** Reading an added entry gives back what was added; what follows it in the arena does not matter. */
  lemma ReadAdded(k: ParsedKey, v: Bytes, user: Bytes, more: Bytes)
    requires InRange(k) && |k.user| + 8 < TWO_32 && |v| < TWO_32
    ensures ReadEntry(PutEntry(k, v) + more, user)
            == if k.user != user then OtherKey else if k.kind.Put? then Value(v) else Deleted
  {
    hide PutFixed64, GetFixed64, PutVarint, GetVarint32, GetSlice;
    var key := PutKey(k);
    var rest := key + (PutSlice(v) + more);
    assert PutEntry(k, v) + more == PutVarint(|key|) + rest;
    Varint32RoundTrip(|key|, rest);
    assert rest[..|key| - 8] == k.user;
    assert rest[|key|..] == PutSlice(v) + more;
    SliceRoundTrip(v, more);
    TagFits(k);
    assert rest[|key| - 8..|key|] == PutFixed64(Pack(k));
    Fixed64Iff(Pack(k), rest, |key| - 8);
  }
}

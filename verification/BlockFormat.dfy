/** Blocks of a table: entries with shared key prefixes, and restart points where nothing is shared. */
module BlockFormat {
  import opened Coding

  type Bytes = seq<Byte>

  datatype KV = KV(key: Bytes, value: Bytes)

  // ---- One entry

  /** The entry as BlockBuilder::Add appends it. */
  function EntryBytes(shared: nat, e: KV): Bytes
    requires shared <= |e.key|
  {
    PutVarint(shared) + PutVarint(|e.key| - shared) + PutVarint(|e.value|) + e.key[shared..] + e.value
  }

  /** The three lengths, and where the key delta starts; absent if the entry is damaged. */
  datatype Header = Header(shared: nat, nonShared: nat, valueLength: nat, start: nat) | Damaged

  /** The general path of DecodeEntry: `s` ends at the limit. */
  function DecodeSlow(s: Bytes): Header {
    match GetVarint32(s)
    case Failed => Damaged
    case Parsed(shared, s1) =>
      match GetVarint32(s1)
      case Failed => Damaged
      case Parsed(nonShared, s2) =>
        match GetVarint32(s2)
        case Failed => Damaged
        case Parsed(valueLength, s3) => Header(shared, nonShared, valueLength, if |s3| <= |s| then |s| - |s3| else 0)
  }

  /** DecodeEntry: one byte for each length if all three are short. */
  function DecodeEntry(s: Bytes): (h: Header)
  {
    if |s| < 3 then Damaged
    else
      var h := if s[0] < 128 && s[1] < 128 && s[2] < 128 then Header(s[0] as int, s[1] as int, s[2] as int, 3) else DecodeSlow(s);
      if h.Damaged? || h.start > |s| || |s| - h.start < (h.nonShared + h.valueLength) % TWO_32 then Damaged else h
  }

  lemma ShortVarint(s: Bytes)
    requires s != [] && s[0] < 128
    ensures GetVarint32(s) == Parsed(s[0] as int, s[1..])
  {
  }

  /** The short path gives what the general path would. */
  lemma FastIsSlow(s: Bytes)
    requires |s| >= 3 && s[0] < 128 && s[1] < 128 && s[2] < 128
    ensures DecodeSlow(s) == Header(s[0] as int, s[1] as int, s[2] as int, 3)
  {
    hide GetVarint32;
    ShortVarint(s);
    ShortVarint(s[1..]);
    ShortVarint(s[1..][1..]);
    assert s[1..][0] == s[1] && s[1..][1..][0] == s[2];
  }

  lemma EntryParts(shared: nat, e: KV, rest: Bytes)
    requires shared <= |e.key|
    ensures var body := e.key[shared..] + e.value + rest;
            var v1, v2, v3 := PutVarint(shared), PutVarint(|e.key| - shared), PutVarint(|e.value|);
            && EntryBytes(shared, e) + rest == v1 + (v2 + (v3 + body))
            && |EntryBytes(shared, e) + rest| == |v1| + |v2| + |v3| + |body|
  {
    hide PutVarint;
  }

  lemma SlowRoundTrip(shared: nat, e: KV, rest: Bytes)
    requires shared <= |e.key| < TWO_32 && |e.value| < TWO_32
    ensures var s := EntryBytes(shared, e) + rest;
            var start := |PutVarint(shared)| + |PutVarint(|e.key| - shared)| + |PutVarint(|e.value|)|;
            && DecodeSlow(s) == Header(shared, |e.key| - shared, |e.value|, start)
            && start <= |s| && s[start..] == e.key[shared..] + e.value + rest
  {
    hide PutVarint, GetVarint32, EntryBytes;
    var body := e.key[shared..] + e.value + rest;
    var v1, v2, v3 := PutVarint(shared), PutVarint(|e.key| - shared), PutVarint(|e.value|);
    EntryParts(shared, e, rest);
    Varint32RoundTrip(shared, v2 + (v3 + body));
    Varint32RoundTrip(|e.key| - shared, v3 + body);
    Varint32RoundTrip(|e.value|, body);
    assert v1 + (v2 + (v3 + body)) == (v1 + v2 + v3) + body;
  }

  /** Decoding an entry that was appended gives its lengths, and the key delta and value follow. */
  lemma DecodeRoundTrip(shared: nat, e: KV, rest: Bytes)
    requires shared <= |e.key| < TWO_32 && |e.value| < TWO_32 && |e.key| + |e.value| < TWO_32
    ensures var s := EntryBytes(shared, e) + rest; var h := DecodeEntry(s);
            && h.Header? && h.shared == shared && h.nonShared == |e.key| - shared && h.valueLength == |e.value|
            && h.start + h.nonShared + h.valueLength == |EntryBytes(shared, e)| && h.start >= 3
            && s[h.start..h.start + h.nonShared] == e.key[shared..]
            && s[h.start + h.nonShared..h.start + h.nonShared + h.valueLength] == e.value
  {
    hide PutVarint, DecodeSlow;
    var s := EntryBytes(shared, e) + rest;
    SlowRoundTrip(shared, e, rest);
    EntryParts(shared, e, rest);
    EntryParts(shared, e, []);
    assert EntryBytes(shared, e) + [] == EntryBytes(shared, e);
    if s[0] < 128 && s[1] < 128 && s[2] < 128 {
      FastIsSlow(s);
    }
    var start := |PutVarint(shared)| + |PutVarint(|e.key| - shared)| + |PutVarint(|e.value|)|;
    assert s[start..][..|e.key| - shared] == e.key[shared..];
    assert s[start..][|e.key| - shared..|e.key| - shared + |e.value|] == e.value;
  }

  // ---- A block

  /** Where things are in a block: the offset of every entry and of the end, how much of its key each entry
      shares, and which entries are restart points. */
  datatype Shape = Shape(offs: seq<nat>, shared: seq<nat>, rs: seq<nat>)

  ghost predicate Sized(es: seq<KV>, sh: Shape) {
    |sh.offs| == |es| + 1 && |sh.shared| == |es|
  }

  /** Entry `i` is where the shape says, and what it shares it shares with the entry before it. */
  ghost predicate EntryAt(buffer: Bytes, es: seq<KV>, sh: Shape, i: nat)
    requires Sized(es, sh) && i < |es|
  {
    && sh.offs[i] + 3 <= sh.offs[i + 1] <= |buffer|
    && sh.shared[i] <= |es[i].key|
    && (sh.shared[i] > 0 ==>
          i > 0 && sh.shared[i] <= |es[i - 1].key| && es[i].key[..sh.shared[i]] == es[i - 1].key[..sh.shared[i]])
    && buffer[sh.offs[i]..sh.offs[i + 1]] == EntryBytes(sh.shared[i], es[i])
  }

  /** Restart point `j` is at an entry that shares nothing; only an empty block has one at its end. */
  ghost predicate RestartAt(es: seq<KV>, sh: Shape, restarts: seq<nat>, j: nat)
    requires Sized(es, sh) && |sh.rs| == |restarts| && j < |restarts|
  {
    && sh.rs[j] <= |es| && (es != [] ==> sh.rs[j] < |es|)
    && restarts[j] == sh.offs[sh.rs[j]]
    && (sh.rs[j] < |es| ==> sh.shared[sh.rs[j]] == 0)
  }

  /** `buffer` and `restarts` hold the entries in the way the shape says. */
  ghost predicate Holds(buffer: Bytes, restarts: seq<nat>, es: seq<KV>, sh: Shape) {
    && Sized(es, sh)
    && sh.offs[0] == 0 && sh.offs[|es|] == |buffer|
    && (forall i | 0 <= i < |es| :: EntryAt(buffer, es, sh, i))
    && |sh.rs| == |restarts| && restarts != [] && sh.rs[0] == 0
    && (forall i, j | 0 <= i < j < |sh.rs| :: sh.rs[i] < sh.rs[j])
    && (forall j | 0 <= j < |restarts| :: RestartAt(es, sh, restarts, j))
  }

  lemma {:induction false} OffsetsIncrease(buffer: Bytes, restarts: seq<nat>, es: seq<KV>, sh: Shape, i: nat, j: nat)
    requires Holds(buffer, restarts, es, sh) && i <= j <= |es|
    ensures sh.offs[i] + 3 * (j - i) <= sh.offs[j] <= |buffer|
    decreases j
  {
    if i < j {
      OffsetsIncrease(buffer, restarts, es, sh, i, j - 1);
      assert EntryAt(buffer, es, sh, j - 1);
    } else if j < |es| {
      assert EntryAt(buffer, es, sh, j);
    }
  }

  function RestartArray(restarts: seq<nat>): (r: Bytes)
    ensures |r| == 4 * |restarts|
  {
    if restarts == [] then [] else RestartArray(restarts[..|restarts| - 1]) + PutFixed32(restarts[|restarts| - 1])
  }

  lemma {:induction false} RestartInArray(restarts: seq<nat>, i: nat)
    requires i < |restarts|
    ensures RestartArray(restarts)[4 * i..4 * i + 4] == PutFixed32(restarts[i])
  {
    if i < |restarts| - 1 {
      RestartInArray(restarts[..|restarts| - 1], i);
    }
  }

  /** The finished block. */
  function Contents(buffer: Bytes, restarts: seq<nat>): Bytes {
    buffer + RestartArray(restarts) + PutFixed32(|restarts|)
  }

  /** The constructor of Block: where the restart array starts and how many entries it has; none if the size
      cannot be right. */
  function ReadTrailer(contents: Bytes): (r: (nat, nat))
    ensures r.1 > 0 ==> r.0 + 4 * r.1 + 4 == |contents|
  {
    if |contents| < 4 then (0, 0)
    else
      var num := GetFixed32(contents, |contents| - 4);
      if num > (|contents| - 4) / 4 then (0, 0) else (|contents| - (1 + num) * 4, num)
  }

  lemma TrailerOfContents(buffer: Bytes, restarts: seq<nat>)
    requires |Contents(buffer, restarts)| < TWO_32
    ensures ReadTrailer(Contents(buffer, restarts)) == (|buffer|, |restarts|)
  {
    hide PutFixed32, GetFixed32, RestartArray;
    var c := Contents(buffer, restarts);
    assert c[|c| - 4..|c| - 4 + 4] == PutFixed32(|restarts|);
    Fixed32RoundTrip(|restarts|, c, |c| - 4);
  }

  lemma RestartInContents(buffer: Bytes, restarts: seq<nat>, i: nat)
    requires |Contents(buffer, restarts)| < TWO_32 && i < |restarts| && restarts[i] <= |buffer|
    ensures GetFixed32(Contents(buffer, restarts), |buffer| + 4 * i) == restarts[i]
  {
    hide PutFixed32, GetFixed32, RestartArray;
    var c, r := Contents(buffer, restarts), RestartArray(restarts);
    RestartInArray(restarts, i);
    assert c[|buffer|..|buffer| + |r|] == r;
    assert c[|buffer| + 4 * i..|buffer| + 4 * i + 4] == r[4 * i..4 * i + 4];
    Fixed32RoundTrip(restarts[i], c, |buffer| + 4 * i);
  }
}

/** The log file format: physical records, and what the writer and the reader make of records. */
module LogFormat {
  import Coding
  import opened Words
  import opened Crc32c

  type Byte = Coding.Byte

  const BLOCK: nat := 32768
  const HEADER: nat := 7

  // ---- The stored checksum

  const MASK_DELTA: bv32 := 0xa282_ead8

  function Mask(crc: bv32): bv32 {
    ((crc >> 15) | (crc << 17)) + MASK_DELTA
  }

  function Unmask(masked: bv32): bv32 {
    var rot := masked - MASK_DELTA;
    (rot >> 17) | (rot << 15)
  }

  lemma UnmaskMask(crc: bv32)
    ensures Unmask(Mask(crc)) == crc
  {
    var rot := (crc >> 15) | (crc << 17);
    Rotated(crc, rot);
    assert (rot + MASK_DELTA) - MASK_DELTA == rot;
  }

  lemma Rotated(crc: bv32, rot: bv32)
    requires rot == (crc >> 15) | (crc << 17)
    ensures (rot >> 17) | (rot << 15) == crc
  {
  }

  function ToBits(s: seq<Byte>): seq<bv8> {
    seq(|s|, i requires 0 <= i < |s| => s[i] as bv8)
  }

  function FromBits(b: bv8): Byte {
    b as int as Byte
  }

  lemma BitsRoundTrip(b: bv8)
    ensures FromBits(b) as bv8 == b
  {
  }

  /** The word of a checksum, as EncodeFixed32 and DecodeFixed32 store and load it. */
  function Fixed32(x: bv32): (r: seq<Byte>)
    ensures |r| == 4
  {
    Coding.PutFixed32(x as int)
  }

  function Decode32(r: seq<Byte>): bv32
    requires |r| == 4
  {
    Coding.Fixed32Inverse(r, 0);
    Coding.GetFixed32(r, 0) as bv32
  }

  lemma Fixed32RoundTrip(x: bv32)
    ensures Decode32(Fixed32(x)) == x
  {
    hide Coding.PutFixed32, Coding.GetFixed32;
    var r := Fixed32(x);
    assert r[0..4] == r;
    Coding.Fixed32RoundTrip(x as int, r, 0);
  }

  /** What EmitPhysicalRecord stores: the checksum of the type, computed beforehand, extended over the payload. */
  function StoredCrc(t: Byte, payload: seq<Byte>): (r: seq<Byte>)
    ensures |r| == 4
  {
    Fixed32(Mask(Crc(Crc(0, ToBits([t])), ToBits(payload))))
  }

  /** What ReadPhysicalRecord checks: the checksum of type and payload together. */
  predicate CrcMatches(stored: seq<Byte>, t: Byte, payload: seq<Byte>)
    requires |stored| == 4
  {
    Unmask(Decode32(stored)) == Crc(0, ToBits([t] + payload))
  }

  /** The reader accepts every checksum the writer stores. */
  lemma StoredCrcMatches(t: Byte, payload: seq<Byte>)
    ensures CrcMatches(StoredCrc(t, payload), t, payload)
  {
    hide Crc, Mask, Unmask, Fixed32, Decode32;
    var crc := Crc(Crc(0, ToBits([t])), ToBits(payload));
    ExtendConcat(0, ToBits([t]), ToBits(payload));
    assert ToBits([t] + payload) == ToBits([t]) + ToBits(payload);
    Fixed32RoundTrip(Mask(crc));
    UnmaskMask(crc);
  }

  // ---- Physical records

  const FULL: Byte := 1
  const FIRST: Byte := 2
  const MIDDLE: Byte := 3
  const LAST: Byte := 4

  /** kEof and kBadRecord, which the reader passes on like types; a record stored with such a type is taken for
      them. */
  const EOF_CODE: Byte := 5
  const BAD_CODE: Byte := 6

  predicate IsType(t: Byte) {
    t == FULL || t == FIRST || t == MIDDLE || t == LAST
  }

  function Low(n: nat): Byte {
    (n % 256) as Byte
  }

  function High(n: nat): Byte
    requires n < 0x10000
  {
    (n / 256) as Byte
  }

  function Length(low: Byte, high: Byte): nat {
    (low as int) + (high as int) * 256
  }

  lemma LengthRoundTrip(n: nat)
    requires n < 0x10000
    ensures Length(Low(n), High(n)) == n
  {
  }

  function Physical(t: Byte, payload: seq<Byte>): (r: seq<Byte>)
    requires |payload| < 0x10000
    ensures |r| == HEADER + |payload|
  {
    StoredCrc(t, payload) + [Low(|payload|), High(|payload|), t] + payload
  }

  function Zeros(n: nat): (r: seq<Byte>)
    ensures |r| == n
  {
    seq(n, _ => 0)
  }

  // ---- What the writer appends

  /** The trailer at block offset `off`: what is left when no header fits. */
  function Trailer(off: nat): nat
    requires off <= BLOCK
  {
    if BLOCK - off < HEADER then BLOCK - off else 0
  }

  /** The block offset the next header goes to. */
  function HeaderAt(off: nat): nat
    requires off <= BLOCK
  {
    if BLOCK - off < HEADER then 0 else off
  }

  function Available(off: nat): nat
    requires off <= BLOCK
  {
    BLOCK - HeaderAt(off) - HEADER
  }

  function FragmentType(begin: bool, end: bool): (t: Byte)
    ensures IsType(t)
  {
    if begin && end then FULL else if begin then FIRST else if end then LAST else MIDDLE
  }

  /** The first fragment of what is left of a record, with the trailer before it. */
  function Fragment(off: nat, left: seq<Byte>, begin: bool): seq<Byte>
    requires off <= BLOCK
  {
    var n := if |left| < Available(off) then |left| else Available(off);
    Zeros(Trailer(off)) + Physical(FragmentType(begin, |left| == n), left[..n])
  }

  /** What AddRecord appends from block offset `off` on for the bytes that are left of the record. */
  function Emit(off: nat, left: seq<Byte>, begin: bool): (r: seq<Byte>)
    requires off <= BLOCK
    ensures |r| >= HEADER
    decreases |left|, if Available(off) == 0 then 1 else 0
  {
    var n := Available(off);
    if |left| <= n then Fragment(off, left, begin)
    else Fragment(off, left, begin) + Emit(HeaderAt(off) + HEADER + n, left[n..], false)
  }

  /** The file after the records `rs`. */
  function Written(rs: seq<seq<Byte>>): seq<Byte> {
    if rs == [] then []
    else
      var before := Written(rs[..|rs| - 1]);
      before + Emit(|before| % BLOCK, rs[|rs| - 1], true)
  }

  /** Where the first fragment of a record goes that is added at position `p`. */
  function RecordOffset(p: nat): nat {
    p + Trailer(p % BLOCK)
  }

  // ---- What the reader makes of a file

  datatype Parsed = Fragmented(t: Byte, payload: seq<Byte>, next: nat) | End | Bad(next: nat, reported: bool)

  /** Where the block read last ends that position `q` is in. */
  function BlockEnd(file: seq<Byte>, q: nat): nat {
    var end := q - q % BLOCK + BLOCK;
    if end <= |file| then end else |file|
  }

  /** The block that `q` is in is in the file as a whole. */
  predicate WholeBlock(file: seq<Byte>, q: nat) {
    q - q % BLOCK + BLOCK <= |file|
  }

  /** ReadPhysicalRecord from position `q`. */
  function Parse(file: seq<Byte>, q: nat): Parsed
    requires q <= |file|
    decreases |file| - q
  {
    var end := BlockEnd(file, q);
    if end - q < HEADER then
      if WholeBlock(file, q) then Parse(file, end) else End
    else ParseHeader(file, q)
  }

  function ParseHeader(file: seq<Byte>, q: nat): Parsed
    requires q + HEADER <= BlockEnd(file, q)
  {
    var end := BlockEnd(file, q);
    var length := Length(file[q + 4], file[q + 5]);
    var t := file[q + 6];
    if q + HEADER + length > end then
      if WholeBlock(file, q) then Bad(end, true) else End
    else if t == 0 && length == 0 then Bad(end, false)
    else
      var payload := file[q + HEADER..q + HEADER + length];
      if !CrcMatches(file[q..q + 4], t, payload) then Bad(end, true)
      else Fragmented(t, payload, q + HEADER + length)
  }

  /** The outcome of ReadRecord: the record and its offset, if there is one, where reading goes on, and how many
      corruptions were reported. */
  datatype Outcome = Outcome(ok: bool, record: seq<Byte>, offset: nat, next: nat, reports: nat)

  lemma ParseAdvances(file: seq<Byte>, q: nat)
    requires q <= |file|
    ensures Parse(file, q).Fragmented? ==> q + HEADER + |Parse(file, q).payload| <= Parse(file, q).next <= |file|
    ensures Parse(file, q).Bad? ==> q < Parse(file, q).next <= |file|
    decreases |file| - q
  {
    var end := BlockEnd(file, q);
    if end - q < HEADER && WholeBlock(file, q) {
      ParseAdvances(file, end);
    }
  }

  /** ReadRecord from position `q`, with the fragments gathered so far. */
  function Read(file: seq<Byte>, q: nat, scratch: seq<Byte>, fragmented: bool, offset: nat, reports: nat): Outcome
    requires q <= |file|
    decreases |file| - q
  {
    ParseAdvances(file, q);
    match Parse(file, q)
    case End => Outcome(false, [], offset, |file|, reports)
    case Bad(next, reported) =>
      Read(file, next, [], false, offset, reports + (if reported then 1 else 0) + if fragmented then 1 else 0)
    case Fragmented(t, payload, next) =>
      var at := next - HEADER - |payload|;
      var unfinished := if fragmented && scratch != [] then 1 else 0;
      if t == FULL then Outcome(true, payload, at, next, reports + unfinished)
      else if t == FIRST then Read(file, next, payload, true, at, reports + unfinished)
      else if t == MIDDLE then
        if fragmented then Read(file, next, scratch + payload, true, offset, reports)
        else Read(file, next, scratch, false, offset, reports + 1)
      else if t == LAST then
        if fragmented then Outcome(true, scratch + payload, offset, next, reports)
        else Read(file, next, scratch, false, offset, reports + 1)
      else if t == EOF_CODE then Outcome(false, [], offset, next, reports)
      else if t == BAD_CODE then Read(file, next, [], false, offset, reports + if fragmented then 1 else 0)
      else Read(file, next, [], false, offset, reports + 1)
  }

  datatype Found = Found(record: seq<Byte>, offset: nat)

  lemma ReadAdvances(file: seq<Byte>, q: nat, scratch: seq<Byte>, fragmented: bool, offset: nat, reports: nat)
    requires q <= |file|
    ensures var r := Read(file, q, scratch, fragmented, offset, reports);
            q <= r.next <= |file| && (r.ok ==> q < r.next)
    decreases |file| - q
  {
    ParseAdvances(file, q);
    match Parse(file, q)
    case End =>
    case Bad(next, reported) =>
      ReadAdvances(file, next, [], false, offset, reports + (if reported then 1 else 0) + if fragmented then 1 else 0);
    case Fragmented(t, payload, next) =>
      var at := next - HEADER - |payload|;
      var unfinished := if fragmented && scratch != [] then 1 else 0;
      if t == FIRST {
        ReadAdvances(file, next, payload, true, at, reports + unfinished);
      } else if t == MIDDLE && fragmented {
        ReadAdvances(file, next, scratch + payload, true, offset, reports);
      } else if t == MIDDLE || t == LAST {
        ReadAdvances(file, next, scratch, false, offset, reports + 1);
      } else if t == BAD_CODE {
        ReadAdvances(file, next, [], false, offset, reports + if fragmented then 1 else 0);
      } else if t != FULL && t != EOF_CODE {
        ReadAdvances(file, next, [], false, offset, reports + 1);
      }
  }

  /** The records a reader gets from position `q` on until ReadRecord returns false. */
  function ReadAll(file: seq<Byte>, q: nat): seq<Found>
    requires q <= |file|
    decreases |file| - q
  {
    ReadAdvances(file, q, [], false, 0, 0);
    var r := Read(file, q, [], false, 0, 0);
    if r.ok then [Found(r.record, r.offset)] + ReadAll(file, r.next) else []
  }

  function Reports(file: seq<Byte>, q: nat): nat
    requires q <= |file|
    decreases |file| - q
  {
    ReadAdvances(file, q, [], false, 0, 0);
    var r := Read(file, q, [], false, 0, 0);
    r.reports + if r.ok then Reports(file, r.next) else 0
  }
}

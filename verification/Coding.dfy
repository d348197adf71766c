/** Integers and slices as bytes. */
module Coding {
  newtype Byte = x: int | 0 <= x < 256

  datatype Parse<T> = Parsed(value: T, rest: seq<Byte>) | Failed

  // ---- Fixed-length integers

  function PutFixed32(v: nat): (r: seq<Byte>)
    ensures |r| == 4
  {
    [(v % 256) as Byte, (v / 256 % 256) as Byte, (v / 256 / 256 % 256) as Byte, (v / 256 / 256 / 256 % 256) as Byte]
  }

  function Join(a: Byte, b: Byte, c: Byte, d: Byte): nat {
    a as int + 256 * (b as int + 256 * (c as int + 256 * (d as int)))
  }

  function GetFixed32(s: seq<Byte>, p: nat): (v: nat)
    requires p + 4 <= |s|
  {
    Join(s[p], s[p + 1], s[p + 2], s[p + 3])
  }

  lemma Fixed32RoundTrip(v: nat, s: seq<Byte>, p: nat)
    requires p + 4 <= |s| && s[p..p + 4] == PutFixed32(v) && v < TWO_32
    ensures GetFixed32(s, p) == v
  {
    hide Join;
    var r := PutFixed32(v);
    assert s[p] == r[0] && s[p + 1] == r[1] && s[p + 2] == r[2] && s[p + 3] == r[3];
    JoinDigits(v);
  }

  lemma JoinDigits(v: nat)
    requires v < TWO_32
    ensures Join((v % 256) as Byte, (v / 256 % 256) as Byte, (v / 256 / 256 % 256) as Byte, (v / 256 / 256 / 256 % 256) as Byte) == v
  {
    var a := v / 256;
    var b := a / 256;
    var c := b / 256;
    assert c < 256;
    assert v == v % 256 + 256 * a && a == a % 256 + 256 * b && b == b % 256 + 256 * c;
  }

  /** Every four bytes are the encoding of what they decode to. */
  lemma Fixed32Inverse(s: seq<Byte>, p: nat)
    requires p + 4 <= |s|
    ensures GetFixed32(s, p) < TWO_32 && PutFixed32(GetFixed32(s, p)) == s[p..p + 4]
  {
    var a, b, c, d := s[p] as int, s[p + 1] as int, s[p + 2] as int, s[p + 3] as int;
    var v := GetFixed32(s, p);
    assert v / 256 == b + 256 * (c + 256 * d) && v % 256 == a;
    assert v / 256 / 256 == c + 256 * d && v / 256 / 256 / 256 == d;
  }

  /** The low half first. */
  function PutFixed64(v: nat): (r: seq<Byte>)
    ensures |r| == 8
  {
    PutFixed32(v % TWO_32) + PutFixed32(v / TWO_32)
  }

  function GetFixed64(s: seq<Byte>, p: nat): (v: nat)
    requires p + 8 <= |s|
  {
    GetFixed32(s, p) + TWO_32 * GetFixed32(s, p + 4)
  }

  /** Eight bytes decode to `v` exactly if they are its encoding. */
  lemma Fixed64Iff(v: nat, s: seq<Byte>, p: nat)
    requires p + 8 <= |s| && v < TWO_64
    ensures GetFixed64(s, p) == v <==> s[p..p + 8] == PutFixed64(v)
  {
    hide PutFixed32, GetFixed32;
    var low, high := v % TWO_32, v / TWO_32;
    assert s[p..p + 8] == s[p..p + 4] + s[p + 4..p + 8];
    if s[p..p + 8] == PutFixed64(v) {
      assert s[p..p + 4] == s[p..p + 8][..4] && s[p + 4..p + 8] == s[p..p + 8][4..];
      Fixed32RoundTrip(low, s, p);
      Fixed32RoundTrip(high, s, p + 4);
    }
    if GetFixed64(s, p) == v {
      Fixed32Inverse(s, p);
      Fixed32Inverse(s, p + 4);
      Halves(GetFixed32(s, p), GetFixed32(s, p + 4));
    }
  }

  lemma Halves(low: nat, high: nat)
    requires low < TWO_32
    ensures (low + TWO_32 * high) % TWO_32 == low && (low + TWO_32 * high) / TWO_32 == high
  {
  }

  // ---- Variable-length integers

  /** EncodeVarint64, and EncodeVarint32 for small enough values. */
  function PutVarint(v: nat): (r: seq<Byte>)
    ensures |r| > 0
  {
    if v < 128 then [v as Byte] else [(v % 128 + 128) as Byte] + PutVarint(v / 128)
  }

  /** At most `k` bytes of seven bits each, before the result is cut to its width. */
  function GetBits(s: seq<Byte>, k: nat): Parse<nat>
    decreases k
  {
    if k == 0 || s == [] then Failed
    else if s[0] < 128 then Parsed(s[0] as int, s[1..])
    else
      match GetBits(s[1..], k - 1)
      case Failed => Failed
      case Parsed(high, rest) => Parsed((s[0] - 128) as int + 128 * high, rest)
  }

  /** Reading a varint uses at least a byte. */
  lemma {:induction false} BitsConsume(s: seq<Byte>, k: nat)
    ensures GetBits(s, k).Parsed? ==> |GetBits(s, k).rest| < |s|
    decreases k
  {
    if k > 0 && s != [] && s[0] >= 128 {
      BitsConsume(s[1..], k - 1);
    }
  }

  const TWO_32: nat := 0x1_0000_0000
  const TWO_64: nat := 0x1_0000_0000_0000_0000

  /** GetVarint32: five bytes at most, cut to 32 bits. */
  function GetVarint32(s: seq<Byte>): Parse<nat> {
    match GetBits(s, 5)
    case Failed => Failed
    case Parsed(v, rest) => Parsed(v % TWO_32, rest)
  }

  /** GetVarint64: ten bytes at most, cut to 64 bits. */
  function GetVarint64(s: seq<Byte>): Parse<nat> {
    match GetBits(s, 10)
    case Failed => Failed
    case Parsed(v, rest) => Parsed(v % TWO_64, rest)
  }

  /** 128 to the power `k`. */
  function Power(k: nat): (r: nat)
    ensures r > 0
  {
    if k == 0 then 1 else 128 * Power(k - 1)
  }

  lemma {:induction false} BitsRoundTrip(v: nat, k: nat, rest: seq<Byte>)
    requires v < Power(k) && k > 0
    ensures GetBits(PutVarint(v) + rest, k) == Parsed(v, rest)
    decreases k
  {
    var s := PutVarint(v) + rest;
    if v < 128 {
      assert s[1..] == rest;
    } else {
      assert s[1..] == PutVarint(v / 128) + rest;
      BitsRoundTrip(v / 128, k - 1, rest);
    }
  }

  lemma FiveBytes()
    ensures Power(5) == 0x8_0000_0000
  {
    assert Power(2) == 0x4000;
    assert Power(4) == 0x1000_0000;
  }

  lemma TenBytes()
    ensures Power(10) == 0x40_0000_0000_0000_0000
  {
    FiveBytes();
    assert Power(7) == 0x2_0000_0000_0000;
    assert Power(9) == 0x8000_0000_0000_0000;
  }

  lemma Varint32RoundTrip(v: nat, rest: seq<Byte>)
    requires v < TWO_32
    ensures GetVarint32(PutVarint(v) + rest) == Parsed(v, rest)
  {
    hide Power, PutVarint, GetBits;
    FiveBytes();
    BitsRoundTrip(v, 5, rest);
  }

  lemma Varint64RoundTrip(v: nat, rest: seq<Byte>)
    requires v < TWO_64
    ensures GetVarint64(PutVarint(v) + rest) == Parsed(v, rest)
  {
    hide Power, PutVarint, GetBits;
    TenBytes();
    BitsRoundTrip(v, 10, rest);
  }

  /** The loop of GetVarint32PtrFallback and GetVarint64Ptr: `k` bytes at most, the low bits first. */
  method DecodeVarint(s: seq<Byte>, k: nat) returns (r: Parse<nat>)
    ensures r == GetBits(s, k)
  {
    var result, scale, i := 0, 1, 0;
    while i < k && i < |s|
      invariant 0 <= i <= |s| && i <= k && scale >= 1 && result >= 0
      invariant GetBits(s, k) == match GetBits(s[i..], k - i)
                                 case Failed => Failed
                                 case Parsed(v, rest) => Parsed(result + scale * v, rest)
    {
      var byte := s[i];
      assert s[i..][0] == byte && s[i..][1..] == s[i + 1..];
      NotNegative(scale, byte as int);
      if byte < 128 {
        return Parsed(result + scale * byte as int, s[i + 1..]);
      }
      NotNegative(scale, (byte - 128) as int);
      ScaleUp(result, scale, (byte - 128) as int, GetBits(s[i + 1..], k - i - 1));
      result, scale, i := result + scale * (byte - 128) as int, scale * 128, i + 1;
    }
    return Failed;
  }

  lemma NotNegative(x: nat, y: nat)
    ensures x * y >= 0
  {
  }

  lemma ScaleUp(result: nat, scale: nat, low: nat, high: Parse<nat>)
    ensures high.Parsed? ==> result + scale * (low + 128 * high.value) == (result + scale * low) + scale * 128 * high.value
  {
  }

  // ---- Slices

  function PutSlice(s: seq<Byte>): seq<Byte> {
    PutVarint(|s|) + s
  }

  /** GetLengthPrefixedSlice. */
  function GetSlice(s: seq<Byte>): Parse<seq<Byte>> {
    match GetVarint32(s)
    case Failed => Failed
    case Parsed(n, rest) => if n <= |rest| then Parsed(rest[..n], rest[n..]) else Failed
  }

  lemma SliceRoundTrip(s: seq<Byte>, rest: seq<Byte>)
    requires |s| < TWO_32
    ensures GetSlice(PutSlice(s) + rest) == Parsed(s, rest)
  {
    assert PutSlice(s) + rest == PutVarint(|s|) + (s + rest);
    Varint32RoundTrip(|s|, s + rest);
  }
}

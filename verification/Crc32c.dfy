/** CRC32C: the four-stride loop against the definition bit by bit. */
module Crc32c {
  import opened Words

  // ---- The checksum as defined: reflected division by the Castagnoli polynomial, section 12.1 of RFC 3720.

  const POLYNOMIAL: bv32 := 0x82f6_3b78
  const ALL_ONES: bv32 := 0xffff_ffff

  /** One zero bit shifted in. */
  function Bit(l: bv32): bv32 {
    if l & 1 == 1 then Xor(l >> 1, POLYNOMIAL) else l >> 1
  }

  function Bits4(l: bv32): bv32 {
    Bit(Bit(Bit(Bit(l))))
  }

  /** One zero byte. */
  function Zero1(l: bv32): bv32 {
    Bits4(Bits4(l))
  }

  /** Four zero bytes. */
  function Zero4(l: bv32): bv32 {
    Zero1(Zero1(Zero1(Zero1(l))))
  }

  /** Sixteen zero bytes. */
  function Zero16(l: bv32): bv32 {
    Zero4(Zero4(Zero4(Zero4(l))))
  }

  function Byte(l: bv32, b: bv8): bv32 {
    Zero1(Xor(l, Wide(b)))
  }

  /** The checksum register after the bytes of `s`, one after the other. */
  function Bytes(l: bv32, s: seq<bv8>): bv32 {
    if s == [] then l else Byte(Bytes(l, s[..|s| - 1]), s[|s| - 1])
  }

  function Crc(crc: bv32, s: seq<bv8>): bv32 {
    Xor(Bytes(Xor(crc, ALL_ONES), s), ALL_ONES)
  }

  // ---- The tables, by the relation that defines their entries.

  function ByteTable(i: bv32): bv32 {
    Zero1(i)
  }

  function StrideTable0(i: bv32): bv32 {
    Zero16(i << 24)
  }

  function StrideTable1(i: bv32): bv32 {
    Zero16(i << 16)
  }

  function StrideTable2(i: bv32): bv32 {
    Zero16(i << 8)
  }

  function StrideTable3(i: bv32): bv32 {
    Zero16(i)
  }

  // ---- The steps of the loops.

  /** STEP1. */
  function Step1(l: bv32, b: bv8): bv32 {
    Xor(ByteTable(Xor(LowByte(l), Wide(b))), DropByte(l))
  }

  /** STEP4 on one accumulator, with the word it reads. */
  function Step4(crc: bv32, w: bv32): bv32 {
    Xor(Xor(Xor(Xor(w, StrideTable3(crc & 0xff)), StrideTable2((crc >> 8) & 0xff)), StrideTable1((crc >> 16) & 0xff)),
        StrideTable0(crc >> 24))
  }

  /** One round of the loop in STEP4W. */
  function Step4WByte(w: bv32): bv32 {
    Xor(DropByte(w), ByteTable(LowByte(w)))
  }

  function Word(b0: bv8, b1: bv8, b2: bv8, b3: bv8): bv32 {
    Xor(Xor(Xor(Wide(b0), Second(b1)), Third(b2)), Fourth(b3))
  }

  /** ReadUint32LE. */
  function ReadWord(s: seq<bv8>, p: nat): bv32
    requires p + 4 <= |s|
  {
    Word(s[p], s[p + 1], s[p + 2], s[p + 3])
  }

  // ---- Rearranging sums

  lemma XorSwapLast(a: bv32, b: bv32, c: bv32)
    ensures Xor(Xor(a, b), c) == Xor(Xor(a, c), b)
  {
    hide Xor;
    XorAssoc(a, b, c);
    XorComm(b, c);
    XorAssoc(a, c, b);
  }

  lemma XorCancel(a: bv32, b: bv32)
    ensures Xor(Xor(a, b), b) == a
  {
    hide Xor;
    XorAssoc(a, b, b);
    XorSelf(b);
    XorSelf(a);
  }

  lemma XorCancelBoth(a: bv32, b: bv32, p: bv32)
    ensures Xor(Xor(a, p), Xor(b, p)) == Xor(a, b)
  {
    hide Xor;
    XorComm(b, p);
    XorAssoc(Xor(a, p), p, b);
    XorCancel(a, p);
  }

  lemma XorRotate(w: bv32, z: bv32, u: bv32)
    ensures Xor(Xor(w, z), u) == Xor(Xor(u, z), w)
  {
    hide Xor;
    XorSwapLast(w, z, u);
    XorComm(w, u);
    XorSwapLast(u, w, z);
  }

  lemma XorOnto(w: bv32, a: bv32, b: bv32, c: bv32)
    ensures Xor(Xor(Xor(w, a), b), c) == Xor(w, Xor(Xor(a, b), c))
  {
    hide Xor;
    XorAssoc(w, a, b);
    XorAssoc(w, Xor(a, b), c);
  }

  // ---- Linearity

  lemma BitLinear(x: bv32, y: bv32)
    ensures Bit(Xor(x, y)) == Xor(Bit(x), Bit(y))
  {
    hide Xor;
    XorShift(x, y);
    XorOdd(x, y);
    XorCancelBoth(x >> 1, y >> 1, POLYNOMIAL);
    XorSwapLast(x >> 1, y >> 1, POLYNOMIAL);
    XorAssoc(x >> 1, y >> 1, POLYNOMIAL);
  }

  lemma Bits4Linear(x: bv32, y: bv32)
    ensures Bits4(Xor(x, y)) == Xor(Bits4(x), Bits4(y))
  {
    hide Bit, Xor;
    BitLinear(x, y);
    BitLinear(Bit(x), Bit(y));
    BitLinear(Bit(Bit(x)), Bit(Bit(y)));
    BitLinear(Bit(Bit(Bit(x))), Bit(Bit(Bit(y))));
  }

  lemma Zero1Linear(x: bv32, y: bv32)
    ensures Zero1(Xor(x, y)) == Xor(Zero1(x), Zero1(y))
  {
    hide Bits4, Xor;
    Bits4Linear(x, y);
    Bits4Linear(Bits4(x), Bits4(y));
  }

  lemma Zero4Linear(x: bv32, y: bv32)
    ensures Zero4(Xor(x, y)) == Xor(Zero4(x), Zero4(y))
  {
    hide Zero1, Xor;
    Zero1Linear(x, y);
    Zero1Linear(Zero1(x), Zero1(y));
    Zero1Linear(Zero1(Zero1(x)), Zero1(Zero1(y)));
    Zero1Linear(Zero1(Zero1(Zero1(x))), Zero1(Zero1(Zero1(y))));
  }

  lemma Zero16Linear(x: bv32, y: bv32)
    ensures Zero16(Xor(x, y)) == Xor(Zero16(x), Zero16(y))
  {
    hide Zero4, Xor;
    Zero4Linear(x, y);
    Zero4Linear(Zero4(x), Zero4(y));
    Zero4Linear(Zero4(Zero4(x)), Zero4(Zero4(y)));
    Zero4Linear(Zero4(Zero4(Zero4(x))), Zero4(Zero4(Zero4(y))));
  }

  /** With its low bits clear a register is only shifted. */
  lemma Bits4Shift(x: bv32)
    requires x & 0xf == 0
    ensures Bits4(x) == x >> 4
  {
  }

  lemma Zero1Shift(x: bv32)
    requires LowByte(x) == 0
    ensures Zero1(x) == DropByte(x)
  {
    hide Bits4;
    Bits4Shift(x);
    Bits4Shift(x >> 4);
    assert (x >> 4) >> 4 == x >> 8;
  }

  // ---- Each step against the definition

  /** The table step is eight bit steps. */
  lemma Step1IsByte(l: bv32, b: bv8)
    ensures Step1(l, b) == Byte(l, b)
  {
    hide Zero1, Xor, Wide, LowByte, HighBytes, DropByte;
    LowAndHigh(l);
    XorSwapLast(LowByte(l), HighBytes(l), Wide(b));
    Zero1Linear(Xor(LowByte(l), Wide(b)), HighBytes(l));
    Zero1Shift(HighBytes(l));
  }

  lemma Step4WByteIsZero1(w: bv32)
    ensures Step4WByte(w) == Zero1(w)
  {
    hide Zero1, Xor, LowByte, HighBytes, DropByte;
    LowAndHigh(w);
    Zero1Linear(LowByte(w), HighBytes(w));
    Zero1Shift(HighBytes(w));
    XorComm(DropByte(w), Zero1(LowByte(w)));
  }

  /** The stride tables advance an accumulator by sixteen bytes. */
  lemma Step4IsStride(crc: bv32, w: bv32)
    ensures Step4(crc, w) == Xor(w, Zero16(crc))
  {
    hide Zero16, Xor;
    var a, b, c, d := crc & 0xff, ((crc >> 8) & 0xff) << 8, ((crc >> 16) & 0xff) << 16, (crc >> 24) << 24;
    FourParts(crc);
    Zero16Linear(Xor(Xor(a, b), c), d);
    Zero16Linear(Xor(a, b), c);
    Zero16Linear(a, b);
    XorOnto(w, Zero16(a), Zero16(b), Zero16(c));
    XorAssoc(w, Xor(Xor(Zero16(a), Zero16(b)), Zero16(c)), Zero16(d));
  }

  /** Taking the next byte off a pending word. */
  lemma Peel(l: bv32, b: bv8, rest: bv32, next: bv32)
    requires LowByte(rest) == 0 && DropByte(rest) == next
    ensures Zero1(Xor(Xor(l, Wide(b)), rest)) == Xor(Byte(l, b), next)
  {
    hide Zero1, Xor, Wide, LowByte, DropByte;
    Zero1Linear(Xor(l, Wide(b)), rest);
    Zero1Shift(rest);
  }

  lemma XorSumsWord(l: bv32, a: bv32, b: bv32, c: bv32, d: bv32)
    ensures Xor(l, Xor(Xor(Xor(a, b), c), d)) == Xor(Xor(l, a), Xor(Xor(b, c), d))
  {
    hide Xor;
    XorOnto(a, b, c, d);
    XorAssoc(l, a, Xor(Xor(b, c), d));
  }

  /** Four byte steps at once. */
  lemma FourBytes(l: bv32, b0: bv8, b1: bv8, b2: bv8, b3: bv8)
    ensures Zero4(Xor(l, Word(b0, b1, b2, b3))) == Byte(Byte(Byte(Byte(l, b0), b1), b2), b3)
  {
    hide Zero1, Byte, Xor, Wide, Second, Third, Fourth, LowByte, DropByte;
    ThreeParts(b1, b2, b3);
    TwoParts(b2, b3);
    Places(b3);
    var r1, r2, r3 := Xor(Xor(Second(b1), Third(b2)), Fourth(b3)), Xor(Second(b2), Third(b3)), Second(b3);
    var l1 := Byte(l, b0);
    var l2 := Byte(l1, b1);
    var l3 := Byte(l2, b2);
    XorSumsWord(l, Wide(b0), Second(b1), Third(b2), Fourth(b3));
    Peel(l, b0, r1, Xor(Wide(b1), r2));
    XorAssoc(l1, Wide(b1), r2);
    Peel(l1, b1, r2, Xor(Wide(b2), r3));
    XorAssoc(l2, Wide(b2), r3);
    Peel(l2, b2, r3, Wide(b3));
    LastByte(l3, b3);
  }

  lemma LastByte(l: bv32, b: bv8)
    ensures Zero1(Xor(l, Wide(b))) == Byte(l, b)
  {
  }

  lemma BytesStep(l: bv32, s: seq<bv8>, p: nat)
    requires p < |s|
    ensures Bytes(l, s[..p + 1]) == Byte(Bytes(l, s[..p]), s[p])
  {
    hide Byte;
    assert s[..p + 1][..p] == s[..p];
  }

  /** The register after one more word. */
  lemma BytesWord(l: bv32, s: seq<bv8>, p: nat)
    requires p + 4 <= |s|
    ensures Bytes(l, s[..p + 4]) == Zero4(Xor(Bytes(l, s[..p]), ReadWord(s, p)))
  {
    hide Byte, Zero4, Xor, Word;
    BytesStep(l, s, p);
    BytesStep(l, s, p + 1);
    BytesStep(l, s, p + 2);
    BytesStep(l, s, p + 3);
    FourBytes(Bytes(l, s[..p]), s[p], s[p + 1], s[p + 2], s[p + 3]);
  }

  // ---- The four accumulators

  /** The register the accumulators stand for: `a` is next, and each waits one word longer than the one
      before it. */
  function Combine(a: bv32, b: bv32, c: bv32, d: bv32): bv32 {
    Zero4(Xor(d, Zero4(Xor(c, Zero4(Xor(b, Zero4(a)))))))
  }

  /** The part of the register that the last three accumulators make up, two words early. */
  lemma CombineSplits(a: bv32, b: bv32, c: bv32, d: bv32)
    ensures Combine(a, b, c, d) == Xor(Zero4(Xor(d, Zero4(Xor(c, Zero4(b))))), Zero16(a))
  {
    hide Zero4, Xor;
    var z1, z2 := Zero4(a), Zero4(Zero4(a));
    var z3 := Zero4(z2);
    Zero4Linear(b, z1);
    XorAssoc(c, Zero4(b), z2);
    Zero4Linear(Xor(c, Zero4(b)), z2);
    XorAssoc(d, Zero4(Xor(c, Zero4(b))), z3);
    Zero4Linear(Xor(d, Zero4(Xor(c, Zero4(b)))), z3);
  }

  /** Feeding the next word to the accumulator in turn is taking it into the register. */
  lemma CombineStep(a: bv32, b: bv32, c: bv32, d: bv32, w: bv32)
    ensures Combine(b, c, d, Step4(a, w)) == Zero4(Xor(Combine(a, b, c, d), w))
  {
    hide Zero4, Zero16, Step4, Xor;
    Step4IsStride(a, w);
    CombineSplits(a, b, c, d);
    var u := Zero4(Xor(d, Zero4(Xor(c, Zero4(b)))));
    XorRotate(w, Zero16(a), u);
  }

  /** The swath loaded first, combined at once, is four word steps. */
  lemma CombineLoad(l: bv32, s: seq<bv8>, p: nat)
    requires p + 16 <= |s|
    ensures Combine(Xor(ReadWord(s, p), Bytes(l, s[..p])), ReadWord(s, p + 4), ReadWord(s, p + 8), ReadWord(s, p + 12))
            == Bytes(l, s[..p + 16])
  {
    hide Zero4, Xor, ReadWord, Bytes;
    BytesWord(l, s, p);
    BytesWord(l, s, p + 4);
    BytesWord(l, s, p + 8);
    BytesWord(l, s, p + 12);
    XorComm(ReadWord(s, p), Bytes(l, s[..p]));
    XorComm(ReadWord(s, p + 4), Bytes(l, s[..p + 4]));
    XorComm(ReadWord(s, p + 8), Bytes(l, s[..p + 8]));
    XorComm(ReadWord(s, p + 12), Bytes(l, s[..p + 12]));
  }

  /** One STEP4 keeps the accumulators worth the register, in rotated order. */
  lemma StrideStep(l: bv32, s: seq<bv8>, p: nat, a: bv32, b: bv32, c: bv32, d: bv32)
    requires p + 4 <= |s| && Combine(a, b, c, d) == Bytes(l, s[..p])
    ensures Combine(b, c, d, Step4(a, ReadWord(s, p))) == Bytes(l, s[..p + 4])
  {
    hide Zero4, Xor, ReadWord, Bytes, Step4, Combine;
    CombineStep(a, b, c, d, ReadWord(s, p));
    BytesWord(l, s, p);
  }

  /** STEP4W: four zero bytes after taking in `w`. */
  method Step4W(w: bv32, l: bv32) returns (r: bv32)
    ensures r == Zero4(Xor(w, l))
  {
    hide Zero1, Step4WByte;
    var x := Xor(w, l);
    Step4WByteIsZero1(x);
    r := Step4WByte(x);
    Step4WByteIsZero1(r);
    r := Step4WByte(r);
    Step4WByteIsZero1(r);
    r := Step4WByte(r);
    Step4WByteIsZero1(r);
    r := Step4WByte(r);
  }

  /** Extend: bytes up to the first aligned address, then four strides of words over swaths of sixteen bytes,
      then single words, then the bytes that are left.  `address` is where the buffer lies in memory. */
  method Extend(crc: bv32, data: seq<bv8>, address: nat) returns (r: bv32)
    ensures r == Crc(crc, data)
  {
    hide Zero1, Zero4, Zero16, Step1, Step4, Byte, Bytes, ReadWord, Combine, Xor;
    ghost var start := Xor(crc, ALL_ONES);
    var l := Xor(crc, ALL_ONES);
    var p, e := 0, |data|;
    BytesOfNothing(start, data);
    var x := (4 - address % 4) % 4;
    if x <= e {
      while p != x
        invariant p <= x && l == Bytes(start, data[..p])
      {
        Step1IsByte(l, data[p]);
        BytesStep(start, data, p);
        l := Step1(l, data[p]);
        p := p + 1;
      }
    }
    if e - p >= 16 {
      var crc0 := Xor(ReadWord(data, p), l);
      var crc1 := ReadWord(data, p + 4);
      var crc2 := ReadWord(data, p + 8);
      var crc3 := ReadWord(data, p + 12);
      CombineLoad(start, data, p);
      p := p + 16;
      while e - p >= 16
        invariant p <= e && Combine(crc0, crc1, crc2, crc3) == Bytes(start, data[..p])
      {
        StrideStep(start, data, p, crc0, crc1, crc2, crc3);
        crc0 := Step4(crc0, ReadWord(data, p));
        StrideStep(start, data, p + 4, crc1, crc2, crc3, crc0);
        crc1 := Step4(crc1, ReadWord(data, p + 4));
        StrideStep(start, data, p + 8, crc2, crc3, crc0, crc1);
        crc2 := Step4(crc2, ReadWord(data, p + 8));
        StrideStep(start, data, p + 12, crc3, crc0, crc1, crc2);
        crc3 := Step4(crc3, ReadWord(data, p + 12));
        p := p + 16;
      }
      while e - p >= 4
        invariant p <= e && Combine(crc0, crc1, crc2, crc3) == Bytes(start, data[..p])
      {
        StrideStep(start, data, p, crc0, crc1, crc2, crc3);
        crc0 := Step4(crc0, ReadWord(data, p));
        var tmp := crc0;
        crc0 := crc1;
        crc1 := crc2;
        crc2 := crc3;
        crc3 := tmp;
        p := p + 4;
      }
      l := CombineAll(crc0, crc1, crc2, crc3);
    }
    while p != e
      invariant p <= e && l == Bytes(start, data[..p])
    {
      Step1IsByte(l, data[p]);
      BytesStep(start, data, p);
      l := Step1(l, data[p]);
      p := p + 1;
    }
    assert data[..p] == data;
    r := Xor(l, ALL_ONES);
  }

  lemma BytesOfNothing(l: bv32, s: seq<bv8>)
    ensures Bytes(l, s[..0]) == l
  {
  }

  /** The end of the strides: STEP4W of each accumulator in turn. */
  method CombineAll(crc0: bv32, crc1: bv32, crc2: bv32, crc3: bv32) returns (l: bv32)
    ensures l == Combine(crc0, crc1, crc2, crc3)
  {
    hide Zero4, Xor;
    XorSelf(crc0);
    l := Step4W(crc0, 0);
    l := Step4W(crc1, l);
    l := Step4W(crc2, l);
    l := Step4W(crc3, l);
  }

  /** Extending over one buffer and then another is extending over both, which is what lets the log writer
      keep the checksum of each record type ready. */
  lemma ExtendConcat(crc: bv32, a: seq<bv8>, b: seq<bv8>)
    ensures Crc(Crc(crc, a), b) == Crc(crc, a + b)
  {
    hide Bytes, Xor;
    XorCancel(Bytes(Xor(crc, ALL_ONES), a), ALL_ONES);
    BytesConcat(Xor(crc, ALL_ONES), a, b);
  }

  lemma {:induction false} BytesConcat(l: bv32, a: seq<bv8>, b: seq<bv8>)
    ensures Bytes(Bytes(l, a), b) == Bytes(l, a + b)
  {
    hide Byte;
    if b == [] {
      assert a + b == a;
    } else {
      BytesConcat(l, a, b[..|b| - 1]);
      assert (a + b)[..|a + b| - 1] == a + b[..|b| - 1];
    }
  }

  // ---- Entries of the byte table in the source.  With linearity those at powers of two fix all 256.

  lemma ByteTableEntries()
    ensures ByteTable(0x01) == 0xf26b_8303
    ensures ByteTable(0x02) == 0xe13b_70f7
    ensures ByteTable(0x04) == 0xc79a_971f
    ensures ByteTable(0x08) == 0x8ad9_58cf
    ensures ByteTable(0x10) == 0x105e_c76f
    ensures ByteTable(0x20) == 0x20bd_8ede
    ensures ByteTable(0x40) == 0x417b_1dbc
    ensures ByteTable(0x80) == 0x82f6_3b78
  {
  }

  /** The entries of the byte table are sums of the entries at powers of two. */
  lemma ByteTableLinear(i: bv32, j: bv32)
    ensures ByteTable(Xor(i, j)) == Xor(ByteTable(i), ByteTable(j))
  {
    hide Zero1, Xor;
    Zero1Linear(i, j);
  }
}

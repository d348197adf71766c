/** Thirty-two bit words under exclusive or and shifts.  The operations have names so that proofs about sums
    can leave them closed. */
module Words {
  function Xor(x: bv32, y: bv32): bv32 {
    x ^ y
  }

  function Wide(b: bv8): bv32 {
    b as bv32
  }

  function LowByte(x: bv32): bv32 {
    x & 0xff
  }

  function HighBytes(x: bv32): bv32 {
    x & 0xffff_ff00
  }

  function DropByte(x: bv32): bv32 {
    x >> 8
  }

  /** A byte in the second, third and fourth place of a little-endian word. */
  function Second(b: bv8): bv32 {
    (b as bv32) << 8
  }

  function Third(b: bv8): bv32 {
    (b as bv32) << 16
  }

  function Fourth(b: bv8): bv32 {
    (b as bv32) << 24
  }

  lemma XorAssoc(a: bv32, b: bv32, c: bv32)
    ensures Xor(Xor(a, b), c) == Xor(a, Xor(b, c))
  {
  }

  lemma XorComm(a: bv32, b: bv32)
    ensures Xor(a, b) == Xor(b, a)
  {
  }

  lemma XorSelf(a: bv32)
    ensures Xor(a, a) == 0 && Xor(a, 0) == a
  {
  }

  lemma XorShift(x: bv32, y: bv32)
    ensures Xor(x, y) >> 1 == Xor(x >> 1, y >> 1)
  {
    calc {
      Xor(x, y) >> 1;
      (x ^ y) >> 1;
      (x >> 1) ^ (y >> 1);
    }
  }

  lemma XorOdd(x: bv32, y: bv32)
    ensures Xor(x, y) & 1 == 1 <==> (x & 1 == 1) != (y & 1 == 1)
  {
    assert Xor(x, y) & 1 == Xor(x & 1, y & 1);
    LowBit(x);
    LowBit(y);
  }

  lemma LowBit(x: bv32)
    ensures x & 1 == 0 || x & 1 == 1
  {
  }

  lemma LowAndHigh(l: bv32)
    ensures l == Xor(LowByte(l), HighBytes(l))
    ensures LowByte(HighBytes(l)) == 0 && DropByte(HighBytes(l)) == DropByte(l)
  {
  }

  lemma FourParts(x: bv32)
    ensures x == Xor(Xor(Xor(x & 0xff, ((x >> 8) & 0xff) << 8), ((x >> 16) & 0xff) << 16), (x >> 24) << 24)
  {
  }

  lemma DropXor(x: bv32, y: bv32)
    ensures DropByte(Xor(x, y)) == Xor(DropByte(x), DropByte(y))
  {
    calc {
      DropByte(Xor(x, y));
      (x ^ y) >> 8;
      (x >> 8) ^ (y >> 8);
    }
  }

  lemma LowXor(x: bv32, y: bv32)
    requires LowByte(x) == 0 && LowByte(y) == 0
    ensures LowByte(Xor(x, y)) == 0
  {
  }

  lemma Places(b: bv8)
    ensures LowByte(Second(b)) == 0 && DropByte(Second(b)) == Wide(b)
    ensures LowByte(Third(b)) == 0 && DropByte(Third(b)) == Second(b)
    ensures LowByte(Fourth(b)) == 0 && DropByte(Fourth(b)) == Third(b)
  {
  }

  /** Shifting the first byte out of the last three of a word. */
  lemma ThreeParts(b1: bv8, b2: bv8, b3: bv8)
    ensures var r := Xor(Xor(Second(b1), Third(b2)), Fourth(b3));
            LowByte(r) == 0 && DropByte(r) == Xor(Wide(b1), Xor(Second(b2), Third(b3)))
  {
    hide Xor, Wide, Second, Third, Fourth, LowByte, DropByte;
    Places(b1);
    Places(b2);
    Places(b3);
    LowXor(Second(b1), Third(b2));
    LowXor(Xor(Second(b1), Third(b2)), Fourth(b3));
    DropXor(Second(b1), Third(b2));
    DropXor(Xor(Second(b1), Third(b2)), Fourth(b3));
    XorAssoc(Wide(b1), Second(b2), Third(b3));
  }

  lemma TwoParts(b2: bv8, b3: bv8)
    ensures var r := Xor(Second(b2), Third(b3));
            LowByte(r) == 0 && DropByte(r) == Xor(Wide(b2), Second(b3))
  {
    hide Xor, Wide, Second, Third, LowByte, DropByte;
    Places(b2);
    Places(b3);
    LowXor(Second(b2), Third(b3));
    DropXor(Second(b2), Third(b3));
  }
}

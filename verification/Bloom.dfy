/** The Bloom filter policy.  The hash of a key is an arbitrary function. */
module Bloom {
  import opened Coding

  type Hash = seq<Byte> -> nat

  // ---- Bits of a byte

  function MaskOf(i: nat): bv8
    requires i < 8
  {
    if i == 0 then 0x01 else if i == 1 then 0x02 else if i == 2 then 0x04 else if i == 3 then 0x08
    else if i == 4 then 0x10 else if i == 5 then 0x20 else if i == 6 then 0x40 else 0x80
  }

  function FromBits(b: bv8): Byte {
    b as int as Byte
  }

  predicate Has(x: bv8, i: nat)
    requires i < 8
  {
    x & MaskOf(i) != 0
  }

  function With(x: bv8, i: nat): bv8
    requires i < 8
  {
    x | MaskOf(i)
  }

  predicate HasBit(b: Byte, i: nat)
    requires i < 8
  {
    Has(b as bv8, i)
  }

  function WithBit(b: Byte, i: nat): Byte
    requires i < 8
  {
    FromBits(With(b as bv8, i))
  }

  lemma FromBitsRoundTrip(b: bv8)
    ensures FromBits(b) as bv8 == b
  {
  }

  lemma MasksApart(x: bv8, i: nat, j: nat)
    requires i < 8 && j < 8
    ensures Has(With(x, i), j) <==> Has(x, j) || i == j
  {
  }

  lemma WithBitMeaning(b: Byte, i: nat, j: nat)
    requires i < 8 && j < 8
    ensures HasBit(WithBit(b, i), j) <==> HasBit(b, j) || i == j
  {
    hide MaskOf, FromBits, Has, With;
    FromBitsRoundTrip(With(b as bv8, i));
    MasksApart(b as bv8, i, j);
  }

  // ---- Bit arrays

  predicate BitAt(bitmap: seq<Byte>, p: nat)
    requires p < 8 * |bitmap|
  {
    HasBit(bitmap[p / 8], p % 8)
  }

  function SetBit(bitmap: seq<Byte>, p: nat): (r: seq<Byte>)
    requires p < 8 * |bitmap|
    ensures |r| == |bitmap|
  {
    bitmap[p / 8 := WithBit(bitmap[p / 8], p % 8)]
  }

  lemma SetBitMeaning(bitmap: seq<Byte>, p: nat, q: nat)
    requires p < 8 * |bitmap| && q < 8 * |bitmap|
    ensures BitAt(SetBit(bitmap, p), q) <==> BitAt(bitmap, q) || p == q
  {
    hide HasBit, WithBit;
    WithBitMeaning(bitmap[p / 8], p % 8, q % 8);
    assert p == q <==> p / 8 == q / 8 && p % 8 == q % 8;
  }

  lemma NoBits(n: nat, p: nat)
    requires p < 8 * n
    ensures !BitAt(seq(n, _ => 0), p)
  {
    assert (0 as bv8) & MaskOf(p % 8) == 0;
  }

  // ---- Probes: double hashing

  /** Rotation right by 17 of 32 bits. */
  function Rotate(h: nat): nat {
    h / 0x2_0000 + (h % 0x2_0000) * 0x8000
  }

  /** The hash value of probe `j`. */
  function Probe(h: nat, j: nat): nat {
    if j == 0 then h % TWO_32 else (Probe(h, j - 1) + Rotate(h % TWO_32)) % TWO_32
  }

  /** Some key probes bit `p` among its first `k` probes. */
  ghost predicate Probed(hash: Hash, keys: seq<seq<Byte>>, k: nat, bits: nat, p: nat)
    requires bits > 0
  {
    exists key, j :: key in keys && 0 <= j < k && Probe(hash(key), j) % bits == p
  }

  /** KeyMayMatch. */
  predicate KeyMayMatch(hash: Hash, key: seq<Byte>, filter: seq<Byte>) {
    if |filter| < 2 then false
    else
      var k := filter[|filter| - 1];
      k > 30 || forall j | 0 <= j < k as int :: BitAt(filter[..|filter| - 1], Probe(hash(key), j) % (8 * (|filter| - 1)))
  }

  /** The probe loop of KeyMayMatch. */
  method MayMatch(hash: Hash, key: seq<Byte>, filter: seq<Byte>) returns (r: bool)
    ensures r == KeyMayMatch(hash, key, filter)
  {
    var len := |filter|;
    if len < 2 {
      return false;
    }
    var bits := (len - 1) * 8;
    var k := filter[len - 1];
    if k > 30 {
      return true;
    }
    var h := hash(key) % TWO_32;
    var delta := Rotate(h);
    var bitmap := filter[..len - 1];
    for j := 0 to k as int
      invariant h == Probe(hash(key), j)
      invariant forall i | 0 <= i < j :: BitAt(bitmap, Probe(hash(key), i) % bits)
    {
      var bitpos := h % bits;
      if !BitAt(bitmap, bitpos) {
        return false;
      }
      h := (h + delta) % TWO_32;
    }
    r := true;
  }

  /** How many probes the policy makes for each key: 0.69 times its bits, rounded down, between 1 and 30. */
  function Probes(bitsPerKey: nat): (k: nat)
    ensures 1 <= k <= 30
    ensures k > 1 ==> 100 * k <= 69 * bitsPerKey
    ensures k < 30 ==> 69 * bitsPerKey < 100 * (k + 1)
  {
    var k := (bitsPerKey as real * 0.69).Floor;
    if k < 1 then 1 else if k > 30 then 30 else k
  }

  /** How many bytes the bits of a filter for `n` keys take. */
  function FilterBytes(n: nat, bitsPerKey: nat): (r: nat)
    ensures r >= 8
  {
    var bits := if n * bitsPerKey < 64 then 64 else n * bitsPerKey;
    (bits + 7) / 8
  }

  /** What CreateFilter appends for `keys`: bits that are set exactly where a key probes, and the number of probes. */
  ghost predicate IsFilter(hash: Hash, bitsPerKey: nat, k: nat, keys: seq<seq<Byte>>, filter: seq<Byte>) {
    var n := FilterBytes(|keys|, bitsPerKey);
    && |filter| == n + 1 && filter[n] as int == k
    && forall p | 0 <= p < 8 * n :: BitAt(filter[..n], p) <==> Probed(hash, keys, k, 8 * n, p)
  }

  /** CreateFilter. */
  method CreateFilter(hash: Hash, bitsPerKey: nat, k: nat, keys: seq<seq<Byte>>) returns (filter: seq<Byte>)
    requires 1 <= k <= 30
    ensures IsFilter(hash, bitsPerKey, k, keys, filter)
  {
    hide BitAt, SetBit, Probe, FilterBytes;
    var bytes := FilterBytes(|keys|, bitsPerKey);
    var bits := bytes * 8;
    var bitmap: seq<Byte> := seq(bytes, _ => 0);
    forall p | 0 <= p < bits
      ensures !BitAt(bitmap, p)
    {
      NoBits(bytes, p);
    }
    for i := 0 to |keys|
      invariant |bitmap| == bytes
      invariant forall p | 0 <= p < bits :: BitAt(bitmap, p) <==> Probed(hash, keys[..i], k, bits, p)
    {
      bitmap := AddProbes(hash, keys[..i], keys[i], k, bits, bitmap);
      assert keys[..i + 1] == keys[..i] + [keys[i]];
    }
    assert keys[..|keys|] == keys;
    filter := bitmap + [k as Byte];
    assert filter[..bytes] == bitmap;
  }

  /** The inner loop of CreateFilter. */
  method AddProbes(hash: Hash, ghost before: seq<seq<Byte>>, key: seq<Byte>, k: nat, bits: nat, was: seq<Byte>)
    returns (bitmap: seq<Byte>)
    requires bits == 8 * |was| && bits > 0
    requires forall p | 0 <= p < bits :: BitAt(was, p) <==> Probed(hash, before, k, bits, p)
    ensures |bitmap| == |was|
    ensures forall p | 0 <= p < bits :: BitAt(bitmap, p) <==> Probed(hash, before + [key], k, bits, p)
  {
    hide BitAt, SetBit, Probe, Rotate, Probed;
    bitmap := was;
    StartProbes(hash(key));
    var h := hash(key) % TWO_32;
    var delta := Rotate(h);
    for j := 0 to k
      invariant |bitmap| == |was| && h == Probe(hash(key), j)
      invariant forall p | 0 <= p < bits :: BitAt(bitmap, p) <==> Probed(hash, before, k, bits, p) || ProbedBy(hash(key), j, bits, p)
    {
      var bitpos := h % bits;
      forall p | 0 <= p < bits
        ensures BitAt(SetBit(bitmap, bitpos), p) <==> Probed(hash, before, k, bits, p) || ProbedBy(hash(key), j + 1, bits, p)
      {
        SetBitMeaning(bitmap, bitpos, p);
        OneMoreProbe(hash(key), j, bits, p);
      }
      bitmap := SetBit(bitmap, bitpos);
      NextProbe(hash(key), j);
      h := (h + delta) % TWO_32;
    }
    forall p | 0 <= p < bits
      ensures Probed(hash, before + [key], k, bits, p) <==> Probed(hash, before, k, bits, p) || ProbedBy(hash(key), k, bits, p)
    {
      OneMoreKey(hash, before, key, k, bits, p);
    }
  }

  ghost predicate ProbedBy(h: nat, k: nat, bits: nat, p: nat)
    requires bits > 0
  {
    exists j :: 0 <= j < k && Probe(h, j) % bits == p
  }

  lemma StartProbes(h: nat)
    ensures Probe(h, 0) == h % TWO_32
    ensures forall bits: nat, p | bits > 0 :: !ProbedBy(h, 0, bits, p)
  {
  }

  lemma NextProbe(h: nat, j: nat)
    ensures Probe(h, j + 1) == (Probe(h, j) + Rotate(h % TWO_32)) % TWO_32
  {
  }

  lemma OneMoreProbe(h: nat, j: nat, bits: nat, p: nat)
    requires bits > 0
    ensures ProbedBy(h, j + 1, bits, p) <==> ProbedBy(h, j, bits, p) || Probe(h, j) % bits == p
  {
    hide Probe;
    if ProbedBy(h, j, bits, p) {
      var i :| 0 <= i < j && Probe(h, i) % bits == p;
      assert 0 <= i < j + 1;
    }
  }

  lemma OneMoreKey(hash: Hash, before: seq<seq<Byte>>, key: seq<Byte>, k: nat, bits: nat, p: nat)
    requires bits > 0
    ensures Probed(hash, before + [key], k, bits, p) <==> Probed(hash, before, k, bits, p) || ProbedBy(hash(key), k, bits, p)
  {
    hide Probe;
    if Probed(hash, before, k, bits, p) {
      var x, j :| x in before && 0 <= j < k && Probe(hash(x), j) % bits == p;
      assert x in before + [key];
    }
    if ProbedBy(hash(key), k, bits, p) {
      var j :| 0 <= j < k && Probe(hash(key), j) % bits == p;
      assert key in before + [key];
    }
    if Probed(hash, before + [key], k, bits, p) {
      var x, j :| x in before + [key] && 0 <= j < k && Probe(hash(x), j) % bits == p;
    }
  }

  /** No false negatives: a filter matches every key it was made for. */
  lemma NoFalseNegatives(hash: Hash, bitsPerKey: nat, k: nat, keys: seq<seq<Byte>>, filter: seq<Byte>, key: seq<Byte>)
    requires IsFilter(hash, bitsPerKey, k, keys, filter) && key in keys
    ensures KeyMayMatch(hash, key, filter)
  {
    hide BitAt, Probe, FilterBytes;
    var bits := 8 * (|filter| - 1);
    forall j | 0 <= j < k
      ensures Probed(hash, keys, k, bits, Probe(hash(key), j) % bits)
    {
    }
  }
}

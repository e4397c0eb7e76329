/** The example of FIPS 197, appendix C.1: the block 00112233445566778899aabbccddeeff under the key 000102...0f.

    Each round is taken apart into the addition of its key, the substitution of the shifted bytes, two columns at a
    time, and the mixing, so that every piece is a lemma about constants in which the tables are simply evaluated.
 */
module AesVectors {
  import opened Aes
  import opened Bits

  /** The round keys of the example. */
  function Key(n: nat): Block
    requires n < 11
  {
    if n == 0 then Block(0x0302_0100, 0x0706_0504, 0x0b0a_0908, 0x0f0e_0d0c)
    else if n == 1 then Block(0xfd74_aad6, 0xfa72_afd2, 0xf178_a6da, 0xfe76_abd6)
    else if n == 2 then Block(0x0bcf_92b6, 0xf1bd_3d64, 0x00c5_9bbe, 0xfeb3_3068)
    else if n == 3 then Block(0x4e74_ffb6, 0xbfc9_c2d2, 0xbf0c_596c, 0x41bf_6904)
    else if n == 4 then Block(0xbcf7_f747, 0x033e_3595, 0xbc32_6cf9, 0xfd8d_05fd)
    else if n == 5 then Block(0xe8a3_aa3c, 0xeb9d_9fa9, 0x57af_f350, 0xaa22_f6ad)
    else if n == 6 then Block(0x7d0f_395e, 0x9692_a6f7, 0xc13d_55a7, 0x6b1f_a30a)
    else if n == 7 then Block(0x1a70_f914, 0x8ce2_5fe3, 0x4ddf_0a44, 0x26c0_a94e)
    else if n == 8 then Block(0x3587_4347, 0xb965_1ca4, 0xf4ba_16e0, 0xd27a_bfae)
    else if n == 9 then Block(0xd132_9954, 0x6857_85f0, 0x9ced_9310, 0x4e97_2cbe)
    else Block(0x7f1d_1113, 0x174a_94e3, 0x8ba7_07f3, 0xc530_2b4d)
  }

  function Keys(): (k: seq<Block>)
    ensures |k| == 11 && forall i :: 0 <= i < 11 ==> k[i] == Key(i)
  {
    seq(11, i requires 0 <= i < 11 => Key(i))
  }

  /** The states at the start of each round. */
  function Start(n: nat): Block
    requires n < 10
  {
    if n == 0 then Block(0x3322_1100, 0x7766_5544, 0xbbaa_9988, 0xffee_ddcc)
    else if n == 1 then Block(0x1564_725f, 0x92bc_f557, 0x293b_bef7, 0x1af9_b91d)
    else if n == 2 then Block(0x8496_87ff, 0x516a_d831, 0xfa51_5164, 0x09d0_3a77)
    else if n == 3 then Block(0x661e_9c4c, 0x76f0_71f7, 0x8e86_3f2c, 0x56f2_4d53)
    else if n == 4 then Block(0x9fb7_8563, 0xf98d_53fc, 0x8e47_be97, 0x91d6_4775)
    else if n == 5 then Block(0x54d4_bcf4, 0xd054_e532, 0xc5d6_f175, 0x3c3b_d01d)
    else if n == 6 then Block(0x74ee_1698, 0x557f_f800, 0x9c04_2c6b, 0x36d0_5a8e)
    else if n == 7 then Block(0x151c_7ec5, 0x86d2_9b9a, 0xe04b_5ff0, 0x3934_c698)
    else if n == 8 then Block(0xe73d_a0ba, 0x6eb5_f9a1, 0xba2c_51d5, 0x234d_415f)
    else Block(0xec4e_f7e9, 0xf620_3002, 0xf2cc_f21b, 0xc721_3c35)
  }

  function Turned(w0: bv32, w1: bv32, w2: bv32, w3: bv32): bv32 {
    Pack(SBox(B0(w0)), SBox(B1(w1)), SBox(B2(w2)), SBox(B3(w3)))
  }

  lemma Columns(b: Block)
    ensures SubShift(b) == Block(Turned(b.c0, b.c1, b.c2, b.c3), Turned(b.c1, b.c2, b.c3, b.c0),
                                 Turned(b.c2, b.c3, b.c0, b.c1), Turned(b.c3, b.c0, b.c1, b.c2))
  {
    hide Pack, SBox, B0, B1, B2, B3;
  }

  lemma Left0()
    ensures Turned(0x3020_1000, 0x7060_5040, 0xb0a0_9080, 0xf0e0_d0c0) == 0x8ce0_5363
    ensures Turned(0x7060_5040, 0xb0a0_9080, 0xf0e0_d0c0, 0x3020_1000) == 0x04e1_6009
  {}

  lemma Right0()
    ensures Turned(0xb0a0_9080, 0xf0e0_d0c0, 0x3020_1000, 0x7060_5040) == 0x51b7_70cd
    ensures Turned(0xf0e0_d0c0, 0x3020_1000, 0x7060_5040, 0xb0a0_9080) == 0xe7d0_caba
  {}

  lemma Round0()
    ensures Mix(SubShift(AddKey(Start(0), Key(0)))) == Start(1)
  {
    hide Turned, SubShift;
    Left0();
    Right0();
    Columns(AddKey(Start(0), Key(0)));
  }

  lemma Left1()
    ensures Turned(0xe810_d889, 0x68ce_5a85, 0xd843_182d, 0xe48f_12cb) == 0x691a_bea7
    ensures Turned(0x68ce_5a85, 0xd843_182d, 0xe48f_12cb, 0xe810_d889) == 0x9b73_ad97
  {}

  lemma Right1()
    ensures Turned(0xd843_182d, 0xe48f_12cb, 0xe810_d889, 0x68ce_5a85) == 0x45ca_c9d8
    ensures Turned(0xe48f_12cb, 0xe810_d889, 0x68ce_5a85, 0xd843_182d) == 0x618b_611f
  {}

  lemma Round1()
    ensures Mix(SubShift(AddKey(Start(1), Key(1)))) == Start(2)
  {
    hide Turned, SubShift;
    Left1();
    Right1();
    Columns(AddKey(Start(1), Key(1)));
  }

  lemma Left2()
    ensures Turned(0x8f59_1549, 0xa0d7_e555, 0xfa94_cada, 0xf763_0a1f) == 0x6822_d93b
    ensures Turned(0xa0d7_e555, 0xfa94_cada, 0xf763_0a1f, 0x8f59_1549) == 0x73fb_74fc
  {}

  lemma Right2()
    ensures Turned(0xfa94_cada, 0xf763_0a1f, 0x8f59_1549, 0xa0d7_e555) == 0xe0cb_6757
    ensures Turned(0xf763_0a1f, 0x8f59_1549, 0xa0d7_e555, 0xfa94_cada) == 0x2d0e_59c0
  {}

  lemma Round2()
    ensures Mix(SubShift(AddKey(Start(2), Key(2)))) == Start(3)
  {
    hide Turned, SubShift;
    Left2();
    Right2();
    Columns(AddKey(Start(2), Key(2)));
  }

  lemma Left3()
    ensures Turned(0x286a_63fa, 0xc939_b325, 0x318a_6640, 0x174d_2457) == 0xf07e_6d2d
    ensures Turned(0xc939_b325, 0x318a_6640, 0x174d_2457, 0x286a_63fa) == 0x34e3_333f
  {}

  lemma Right3()
    ensures Turned(0x318a_6640, 0x174d_2457, 0x286a_63fa, 0xc939_b325) == 0xdd02_3609
    ensures Turned(0x174d_2457, 0x286a_63fa, 0xc939_b325, 0x318a_6640) == 0xc712_fb5b
  {}

  lemma Round3()
    ensures Mix(SubShift(AddKey(Start(3), Key(3)))) == Start(4)
  {
    hide Turned, SubShift;
    Left3();
    Right3();
    Columns(AddKey(Start(3), Key(3)));
  }

  lemma Left4()
    ensures Turned(0x2340_7224, 0xfab3_6669, 0x3275_d26e, 0x6c5b_4288) == 0x509d_3336
    ensures Turned(0xfab3_6669, 0x3275_d26e, 0x6c5b_4288, 0x2340_7224) == 0x2639_b5f9
  {}

  lemma Right4()
    ensures Turned(0x3275_d26e, 0x6c5b_4288, 0x2340_7224, 0xfab3_6669) == 0x2d09_2c9f
    ensures Turned(0x6c5b_4288, 0x2340_7224, 0xfab3_6669, 0x3275_d26e) == 0x236d_40c4
  {}

  lemma Round4()
    ensures Mix(SubShift(AddKey(Start(4), Key(4)))) == Start(5)
  {
    hide Turned, SubShift;
    Left4();
    Right4();
    Columns(AddKey(Start(4), Key(4)));
  }

  lemma Left5()
    ensures Turned(0xbc77_16c8, 0x3bc9_7a9b, 0x9279_0225, 0x9619_26b0) == 0x90b6_dae8
    ensures Turned(0x3bc9_7a9b, 0x9279_0225, 0x9619_26b0, 0xbc77_16c8) == 0x65d4_7714
  {}

  lemma Right5()
    ensures Turned(0x9279_0225, 0x9619_26b0, 0xbc77_16c8, 0x3bc9_7a9b) == 0xe2f5_f73f
    ensures Turned(0x9619_26b0, 0xbc77_16c8, 0x3bc9_7a9b, 0x9279_0225) == 0x4fdd_47e7
  {}

  lemma Round5()
    ensures Mix(SubShift(AddKey(Start(5), Key(5)))) == Start(6)
  {
    hide Turned, SubShift;
    Left5();
    Right5();
    Columns(AddKey(Start(5), Key(5)));
  }

  lemma Left6()
    ensures Turned(0x09e1_2fc6, 0xc3ed_5ef7, 0x5d39_79cc, 0x5dcf_f984) == 0x4c12_58b4
    ensures Turned(0xc3ed_5ef7, 0x5d39_79cc, 0x5dcf_f984, 0x09e1_2fc6) == 0x018a_b668
  {}

  lemma Right6()
    ensures Turned(0x5d39_79cc, 0x5dcf_f984, 0x09e1_2fc6, 0xc3ed_5ef7) == 0x2ef8_994b
    ensures Turned(0x5dcf_f984, 0x09e1_2fc6, 0xc3ed_5ef7, 0x5d39_79cc) == 0x4c55_155f
  {}

  lemma Round6()
    ensures Mix(SubShift(AddKey(Start(6), Key(6)))) == Start(7)
  {
    hide Turned, SubShift;
    Left6();
    Right6();
    Columns(AddKey(Start(6), Key(6)));
  }

  lemma Left7()
    ensures Turned(0x0f6c_87d1, 0x0a30_c479, 0xad94_55b4, 0x1ff4_6fd6) == 0xc022_1c3e
    ensures Turned(0x0a30_c479, 0xad94_55b4, 0x1ff4_6fd6, 0x0f6c_87d1) == 0x76bf_fcb6
  {}

  lemma Right7()
    ensures Turned(0xad94_55b4, 0x1ff4_6fd6, 0x0f6c_87d1, 0x0a30_c479) == 0x6750_a88d
    ensures Turned(0x1ff4_6fd6, 0x0f6c_87d1, 0x0a30_c479, 0xad94_55b4) == 0x9504_17f6
  {}

  lemma Round7()
    ensures Mix(SubShift(AddKey(Start(7), Key(7)))) == Start(8)
  {
    hide Turned, SubShift;
    Left7();
    Right7();
    Columns(AddKey(Start(7), Key(7)));
  }

  lemma Left8()
    ensures Turned(0xd2ba_e3fd, 0xd7d0_e505, 0x4e96_4735, 0xf137_fef1) == 0xa190_d954
    ensures Turned(0xd7d0_e505, 0x4e96_4735, 0xf137_fef1, 0xd2ba_e3fd) == 0xb59a_a06b
  {}

  lemma Right8()
    ensures Turned(0x4e96_4735, 0xf137_fef1, 0xd2ba_e3fd, 0xd7d0_e505) == 0x0ef4_bb96
    ensures Turned(0xf137_fef1, 0xd2ba_e3fd, 0xd7d0_e505, 0x4e96_4735) == 0x2f70_11a1
  {}

  lemma Round8()
    ensures Mix(SubShift(AddKey(Start(8), Key(8)))) == Start(9)
  {
    hide Turned, SubShift;
    Left8();
    Right8();
    Columns(AddKey(Start(8), Key(8)));
  }

  lemma Left9()
    ensures Turned(0x3d7c_6ebd, 0x9e77_b5f2, 0x6e21_610b, 0x89b6_108b) == 0xa7fd_d57a
    ensures Turned(0x9e77_b5f2, 0x6e21_610b, 0x89b6_108b, 0x3d7c_6ebd) == 0x274e_ef89
  {}

  lemma Right9()
    ensures Turned(0x6e21_610b, 0x89b6_108b, 0x3d7c_6ebd, 0x9e77_b5f2) == 0x0b10_ca2b
    ensures Turned(0x89b6_108b, 0x3d7c_6ebd, 0x9e77_b5f2, 0x6e21_610b) == 0x9ff5_9f3d
  {}

  lemma Round9()
    ensures AddKey(SubShift(AddKey(Start(9), Key(9))), Key(10))
         == Block(0xd8e0_c469, 0x3004_7b6a, 0x80b7_cdd8, 0x5ac5_b470)
  {
    hide Turned, SubShift;
    Left9();
    Right9();
    Columns(AddKey(Start(9), Key(9)));
  }

  lemma OneRound(n: nat)
    requires n < 9
    ensures Mix(SubShift(AddKey(Start(n), Key(n)))) == Start(n + 1)
  {
    hide *;
    match n {
      case 0 => Round0();
      case 1 => Round1();
      case 2 => Round2();
      case 3 => Round3();
      case 4 => Round4();
      case 5 => Round5();
      case 6 => Round6();
      case 7 => Round7();
      case 8 => Round8();
    }
  }

  lemma {:induction false} After(n: nat)
    requires n < 10
    ensures Rounds(Start(0), Keys(), n) == Start(n)
  {
    hide SubShift, Mix, AddKey, Key, Start;
    if n > 0 {
      After(n - 1);
      OneRound(n - 1);
    }
  }

  /** The example comes out, and goes back. */
  lemma EncryptsTheExample()
    ensures var b, c := Block(0x3322_1100, 0x7766_5544, 0xbbaa_9988, 0xffee_ddcc),
                        Block(0xd8e0_c469, 0x3004_7b6a, 0x80b7_cdd8, 0x5ac5_b470);
      Encrypt(b, Keys()) == c && Decrypt(c, InvKeys(Keys())) == b
  {
    hide SubShift, Mix, AddKey, Key, Rounds, Decrypt, InvKeys;
    After(9);
    Round9();
    DecryptInvertsEncrypt(Start(0), Keys());
  }
}

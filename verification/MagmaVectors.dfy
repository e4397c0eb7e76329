/** The cipher on the zero block, from which the keys of the MAC are made, under the key of the source's own test
    (magma.c:199-210): it is not the one value for which the tag of the empty message is right.

    The sixteen turns of the two loops are taken one at a time. Each is a small lemma about constants in which the
    substitution is simply evaluated, and `Onward` chains them along the schedule, in two halves of eight turns. All
    that is used about the schedule is which key word stands where.
 */
module MagmaVectors {
  import opened Bits
  import opened Magma

  /** The key of the test, as the array holds it. */
  function Key(): seq<bv32> {
    [0xfcfd_feff, 0xf8f9_fafb, 0xf4f5_f6f7, 0xf0f1_f2f3, 0x3322_1100, 0x7766_5544, 0xbbaa_9988, 0xffee_ddcc]
  }

  /** What one turn of the loop makes of the halves. */
  predicate TwoRounds(k0: bv32, k1: bv32, n1: bv32, n2: bv32, m1: bv32, m2: bv32) {
    m2 == Xor(n2, G(k0, n1)) && m1 == Xor(n1, G(k1, m2))
  }

  lemma Onward(w: seq<bv32>, i: nat, k0: bv32, k1: bv32, n1: bv32, n2: bv32, m1: bv32, m2: bv32)
    requires |w| == 32 && i % 2 == 0 && i < 32 && w[i] == k0 && w[i + 1] == k1 && TwoRounds(k0, k1, n1, n2, m1, m2)
    ensures Rounds(w[i..], n1, n2) == Rounds(w[i + 2..], m1, m2)
  {
    hide G, Xor;
    RoundsStep(w, i, n1, n2);
  }

  lemma NoneLeft(w: seq<bv32>, n1: bv32, n2: bv32)
    requires |w| == 32
    ensures w[0..] == w && Rounds(w[32..], n1, n2) == (n1, n2)
  {}

  lemma Walk(w: seq<bv32>)
    requires w == Schedule(Key())
    ensures |w| == 32
    ensures w[0] == 0xffee_ddcc && w[1] == 0xbbaa_9988 && w[2] == 0x7766_5544 && w[3] == 0x3322_1100
    ensures w[4] == 0xf0f1_f2f3 && w[5] == 0xf4f5_f6f7 && w[6] == 0xf8f9_fafb && w[7] == 0xfcfd_feff
    ensures w[8] == 0xffee_ddcc && w[9] == 0xbbaa_9988 && w[10] == 0x7766_5544 && w[11] == 0x3322_1100
    ensures w[12] == 0xf0f1_f2f3 && w[13] == 0xf4f5_f6f7 && w[14] == 0xf8f9_fafb && w[15] == 0xfcfd_feff
    ensures w[16] == 0xffee_ddcc && w[17] == 0xbbaa_9988 && w[18] == 0x7766_5544 && w[19] == 0x3322_1100
    ensures w[20] == 0xf0f1_f2f3 && w[21] == 0xf4f5_f6f7 && w[22] == 0xf8f9_fafb && w[23] == 0xfcfd_feff
    ensures w[24] == 0xfcfd_feff && w[25] == 0xf8f9_fafb && w[26] == 0xf4f5_f6f7 && w[27] == 0xf0f1_f2f3
    ensures w[28] == 0x3322_1100 && w[29] == 0x7766_5544 && w[30] == 0xbbaa_9988 && w[31] == 0xffee_ddcc
  {
    hide Schedule, Key;
    KeyWords();
    forall i | 0 <= i < 32 ensures w[i] == if i < 24 then Key()[7 - i % 8] else Key()[i - 24] {
      ScheduleAt(Key(), i);
    }
  }

  lemma KeyWords()
    ensures |Key()| == 8
    ensures Key()[0] == 0xfcfd_feff && Key()[1] == 0xf8f9_fafb && Key()[2] == 0xf4f5_f6f7 && Key()[3] == 0xf0f1_f2f3
    ensures Key()[4] == 0x3322_1100 && Key()[5] == 0x7766_5544 && Key()[6] == 0xbbaa_9988 && Key()[7] == 0xffee_ddcc
  {}

  lemma Zero0() ensures TwoRounds(0xffee_ddcc, 0xbbaa_9988, 0x0000_0000, 0x0000_0000, 0x043d_ce10, 0x174d_813f) {}
  lemma Zero1() ensures TwoRounds(0x7766_5544, 0x3322_1100, 0x043d_ce10, 0x174d_813f, 0x98a6_7437, 0x5608_d0bb) {}
  lemma Zero2() ensures TwoRounds(0xf0f1_f2f3, 0xf4f5_f6f7, 0x98a6_7437, 0x5608_d0bb, 0x723e_f8be, 0xd1e1_ba98) {}
  lemma Zero3() ensures TwoRounds(0xf8f9_fafb, 0xfcfd_feff, 0x723e_f8be, 0xd1e1_ba98, 0xc971_96c9, 0xd422_7e9b) {}
  lemma Zero4() ensures TwoRounds(0xffee_ddcc, 0xbbaa_9988, 0xc971_96c9, 0xd422_7e9b, 0x2dd4_3b90, 0xef35_523d) {}
  lemma Zero5() ensures TwoRounds(0x7766_5544, 0x3322_1100, 0x2dd4_3b90, 0xef35_523d, 0x8da2_64cd, 0xf76b_8776) {}
  lemma Zero6() ensures TwoRounds(0xf0f1_f2f3, 0xf4f5_f6f7, 0x8da2_64cd, 0xf76b_8776, 0xd7ea_33ed, 0x3506_66ed) {}
  lemma Zero7() ensures TwoRounds(0xf8f9_fafb, 0xfcfd_feff, 0xd7ea_33ed, 0x3506_66ed, 0x91e8_721e, 0x7436_10aa) {}
  lemma Zero8() ensures TwoRounds(0xffee_ddcc, 0xbbaa_9988, 0x91e8_721e, 0x7436_10aa, 0xed98_6090, 0x9ab6_7f5b) {}
  lemma Zero9() ensures TwoRounds(0x7766_5544, 0x3322_1100, 0xed98_6090, 0x9ab6_7f5b, 0xf77a_db96, 0x8848_ab6b) {}
  lemma Zero10() ensures TwoRounds(0xf0f1_f2f3, 0xf4f5_f6f7, 0xf77a_db96, 0x8848_ab6b, 0xe082_5f19, 0xd1f8_6e95) {}
  lemma Zero11() ensures TwoRounds(0xf8f9_fafb, 0xfcfd_feff, 0xe082_5f19, 0xd1f8_6e95, 0xc868_5563, 0x8bc4_38b0) {}
  lemma Zero12() ensures TwoRounds(0xfcfd_feff, 0xf8f9_fafb, 0xc868_5563, 0x8bc4_38b0, 0x7386_1672, 0xb9d6_8c7e) {}
  lemma Zero13() ensures TwoRounds(0xf4f5_f6f7, 0xf0f1_f2f3, 0x7386_1672, 0xb9d6_8c7e, 0xe339_c80f, 0xe79c_4803) {}
  lemma Zero14() ensures TwoRounds(0x3322_1100, 0x7766_5544, 0xe339_c80f, 0xe79c_4803, 0xc34c_30ef, 0x9097_438a) {}
  lemma Zero15() ensures TwoRounds(0xbbaa_9988, 0xffee_ddcc, 0xc34c_30ef, 0x9097_438a, 0x2fa2_cd99, 0xa129_0a12) {}

  lemma ZeroFirstHalf(w: seq<bv32>)
    requires w == Schedule(Key())
    ensures |w| == 32
    ensures Rounds(w[0..], 0x0000_0000, 0x0000_0000) == Rounds(w[16..], 0x91e8_721e, 0x7436_10aa)
  {
    hide TwoRounds, Schedule, Rounds, Key;
    Walk(w);
    Zero0(); Onward(w, 0, 0xffee_ddcc, 0xbbaa_9988, 0x0000_0000, 0x0000_0000, 0x043d_ce10, 0x174d_813f);
    Zero1(); Onward(w, 2, 0x7766_5544, 0x3322_1100, 0x043d_ce10, 0x174d_813f, 0x98a6_7437, 0x5608_d0bb);
    Zero2(); Onward(w, 4, 0xf0f1_f2f3, 0xf4f5_f6f7, 0x98a6_7437, 0x5608_d0bb, 0x723e_f8be, 0xd1e1_ba98);
    Zero3(); Onward(w, 6, 0xf8f9_fafb, 0xfcfd_feff, 0x723e_f8be, 0xd1e1_ba98, 0xc971_96c9, 0xd422_7e9b);
    Zero4(); Onward(w, 8, 0xffee_ddcc, 0xbbaa_9988, 0xc971_96c9, 0xd422_7e9b, 0x2dd4_3b90, 0xef35_523d);
    Zero5(); Onward(w, 10, 0x7766_5544, 0x3322_1100, 0x2dd4_3b90, 0xef35_523d, 0x8da2_64cd, 0xf76b_8776);
    Zero6(); Onward(w, 12, 0xf0f1_f2f3, 0xf4f5_f6f7, 0x8da2_64cd, 0xf76b_8776, 0xd7ea_33ed, 0x3506_66ed);
    Zero7(); Onward(w, 14, 0xf8f9_fafb, 0xfcfd_feff, 0xd7ea_33ed, 0x3506_66ed, 0x91e8_721e, 0x7436_10aa);
  }

  lemma ZeroSecondHalf(w: seq<bv32>)
    requires w == Schedule(Key())
    ensures |w| == 32
    ensures Rounds(w[16..], 0x91e8_721e, 0x7436_10aa) == Rounds(w[32..], 0x2fa2_cd99, 0xa129_0a12)
  {
    hide TwoRounds, Schedule, Rounds, Key;
    Walk(w);
    Zero8(); Onward(w, 16, 0xffee_ddcc, 0xbbaa_9988, 0x91e8_721e, 0x7436_10aa, 0xed98_6090, 0x9ab6_7f5b);
    Zero9(); Onward(w, 18, 0x7766_5544, 0x3322_1100, 0xed98_6090, 0x9ab6_7f5b, 0xf77a_db96, 0x8848_ab6b);
    Zero10(); Onward(w, 20, 0xf0f1_f2f3, 0xf4f5_f6f7, 0xf77a_db96, 0x8848_ab6b, 0xe082_5f19, 0xd1f8_6e95);
    Zero11(); Onward(w, 22, 0xf8f9_fafb, 0xfcfd_feff, 0xe082_5f19, 0xd1f8_6e95, 0xc868_5563, 0x8bc4_38b0);
    Zero12(); Onward(w, 24, 0xfcfd_feff, 0xf8f9_fafb, 0xc868_5563, 0x8bc4_38b0, 0x7386_1672, 0xb9d6_8c7e);
    Zero13(); Onward(w, 26, 0xf4f5_f6f7, 0xf0f1_f2f3, 0x7386_1672, 0xb9d6_8c7e, 0xe339_c80f, 0xe79c_4803);
    Zero14(); Onward(w, 28, 0x3322_1100, 0x7766_5544, 0xe339_c80f, 0xe79c_4803, 0xc34c_30ef, 0x9097_438a);
    Zero15(); Onward(w, 30, 0xbbaa_9988, 0xffee_ddcc, 0xc34c_30ef, 0x9097_438a, 0x2fa2_cd99, 0xa129_0a12);
  }

  lemma ZeroBlock(w: seq<bv32>)
    requires w == Schedule(Key())
    ensures Rounds(w, 0x0000_0000, 0x0000_0000) == (0x2fa2_cd99, 0xa129_0a12)
  {
    hide Schedule, Rounds;
    ZeroFirstHalf(w);
    ZeroSecondHalf(w);
    NoneLeft(w, 0x2fa2_cd99, 0xa129_0a12);
  }

  /** Under that key the zero block and the keys of the MAC are those of GOST R 34.13-2015, appendix A.2.6. */
  lemma SubkeysAreTheStandards()
    ensures Encrypt(Key(), 0) == 0x2fa2_cd99_a129_0a12
    ensures K1(Key()) == 0x5f45_9b33_4252_1424 && K2(Key()) == 0xbe8b_3666_84a4_2848
  {
    assert Low(0) == 0 && High(0) == 0;
    ZeroBlock(Schedule(Key()));
    assert Join(0x2fa2_cd99, 0xa129_0a12) == 0x2fa2_cd99_a129_0a12;
    hide Rounds, Schedule;
  }

  /** Under that key the tag of the empty message is not the standard's. */
  lemma EmptyTagFails()
    ensures Encrypt(Key(), K1(Key())) != Cmac(Key(), [])
  {
    hide Rounds, Schedule, Cmac, K1;
    ZeroBlock(Schedule(Key()));
    assert Low(0) == 0 && High(0) == 0;
    EmptyTagIff(Key());
  }
}

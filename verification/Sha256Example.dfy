/** The first example of the standard, worked through its 64 rounds: the digest of the
    three bytes `abc`. */
module Sha256Example {
  import opened Sha256
  import opened Sha256Words

  const ABC: seq<Byte> := [0x61, 0x62, 0x63]

  // The only block of the padded message.
  const BLOCK: seq<Byte> := ABC + [0x80] + Zeros(52) + BigEndian(24, 8)

  function W(t: nat): bv32
    requires t < 64
  {
    Scheduled(BLOCK, 0, t)
  }

  function R(t: nat): Eight
    requires t <= 64
  {
    Rounds(BLOCK, 0, INITIAL, t)
  }

  lemma LastBytes()
    ensures BigEndian(24, 8)[..7] == Zeros(7) && BigEndian(24, 8)[7] == 24
  {
    BigEndianOfZero(7);
  }

  lemma {:induction false} BigEndianOfZero(n: nat)
    ensures BigEndian(0, n) == Zeros(n)
  {
    if n > 0 {
      BigEndianOfZero(n - 1);
    }
  }

  lemma BytesOfBlock(i: nat)
    requires i < 64
    ensures BLOCK[i] == if i == 0 then 0x61 else if i == 1 then 0x62 else if i == 2 then 0x63 else if i == 3 then 0x80
                        else if i < 63 then 0 else 24
  {
    hide BigEndian, Zeros;
    LastBytes();
    if 56 <= i < 63 {
      assert BLOCK[i] == BigEndian(24, 8)[..7][i - 56];
    }
  }

  lemma BlockIsPadded()
    ensures IsPadded(ABC, BLOCK) && |BLOCK| == 64
  {
    hide BigEndian, Zeros;
    assert LeavesRoom(3, 52);
    assert IsZeroCount(3, 52);
  }

  lemma WordOfBytes(bytes: seq<Byte>, t: nat, a: Byte, b: Byte, c: Byte, d: Byte)
    requires |bytes| == 64 && t < 16
    requires bytes[4 * t] == a && bytes[4 * t + 1] == b && bytes[4 * t + 2] == c && bytes[4 * t + 3] == d
    ensures Scheduled(bytes, 0, t) == Word(AsWord(a), AsWord(b), AsWord(c), AsWord(d))
  {
    hide Word, Scheduled, WordAt, AsWord;
    ScheduledUnfolds(bytes, 0, t);
    WordAtIs(bytes, 4 * t, a, b, c, d);
  }

  lemma FirstWord()
    ensures W(0) == 0x61626380
  {
    hide BigEndian, Zeros, Word, AsWord, Scheduled;
    BytesOfBlock(0);
    BytesOfBlock(1);
    BytesOfBlock(2);
    BytesOfBlock(3);
    WordOfBytes(BLOCK, 0, 0x61, 0x62, 0x63, 0x80);
    ThreeWords();
  }

  lemma ZeroWord(t: nat)
    requires 0 < t < 15
    ensures W(t) == 0
  {
    hide BigEndian, Zeros, Word, AsWord, Scheduled;
    BytesOfBlock(4 * t);
    BytesOfBlock(4 * t + 1);
    BytesOfBlock(4 * t + 2);
    BytesOfBlock(4 * t + 3);
    WordOfBytes(BLOCK, t, 0, 0, 0, 0);
    ThreeWords();
  }

  lemma LastWord()
    ensures W(15) == 24
  {
    hide BigEndian, Zeros, Word, AsWord, Scheduled;
    BytesOfBlock(60);
    BytesOfBlock(61);
    BytesOfBlock(62);
    BytesOfBlock(63);
    WordOfBytes(BLOCK, 15, 0, 0, 0, 24);
    ThreeWords();
  }

  lemma ThreeWords()
    ensures Word(AsWord(0x61), AsWord(0x62), AsWord(0x63), AsWord(0x80)) == 0x61626380
    ensures Word(AsWord(0), AsWord(0), AsWord(0), AsWord(0)) == 0
    ensures Word(AsWord(0), AsWord(0), AsWord(0), AsWord(24)) == 24
  {
  }

  lemma NextWord(t: nat)
    requires 16 <= t < 64
    ensures W(t) == ScheduleWord(W(t - 16), W(t - 15), W(t - 7), W(t - 2))
  {
    hide BigEndian, Zeros, ScheduleWord;
    ScheduledUnfolds(BLOCK, 0, t);
  }

  lemma NextRound(t: nat)
    requires t < 64
    ensures R(t + 1) == OneRound(R(t), K(t), W(t))
  {
    hide BigEndian, Zeros, OneRound, K, Scheduled;
  }

  predicate Follows(t: nat)
    requires 16 <= t < 64
  {
    W(t) == ScheduleWord(W(t - 16), W(t - 15), W(t - 7), W(t - 2))
  }

  lemma EightWords(t: nat)
    requires 16 <= t <= 56
    ensures Follows(t) && Follows(t + 1) && Follows(t + 2) && Follows(t + 3)
    ensures Follows(t + 4) && Follows(t + 5) && Follows(t + 6) && Follows(t + 7)
  {
    hide W, ScheduleWord;
    NextWord(t);
    NextWord(t + 1);
    NextWord(t + 2);
    NextWord(t + 3);
    NextWord(t + 4);
    NextWord(t + 5);
    NextWord(t + 6);
    NextWord(t + 7);
  }

  lemma EightRounds(t: nat)
    requires t <= 56
    ensures R(t + 8)
         == OneRound(OneRound(OneRound(OneRound(OneRound(OneRound(OneRound(OneRound(R(t),
              K(t), W(t)), K(t + 1), W(t + 1)), K(t + 2), W(t + 2)), K(t + 3), W(t + 3)),
              K(t + 4), W(t + 4)), K(t + 5), W(t + 5)), K(t + 6), W(t + 6)), K(t + 7), W(t + 7))
  {
    hide R, W, K, OneRound;
    NextRound(t);
    NextRound(t + 1);
    NextRound(t + 2);
    NextRound(t + 3);
    NextRound(t + 4);
    NextRound(t + 5);
    NextRound(t + 6);
    NextRound(t + 7);
  }

  // The working variables after each round, as the standard tabulates them.
  const S0 := Eight(0x6a09e667, 0xbb67ae85, 0x3c6ef372, 0xa54ff53a, 0x510e527f, 0x9b05688c, 0x1f83d9ab, 0x5be0cd19)
  const S1 := Eight(0x5d6aebcd, 0x6a09e667, 0xbb67ae85, 0x3c6ef372, 0xfa2a4622, 0x510e527f, 0x9b05688c, 0x1f83d9ab)
  const S2 := Eight(0x5a6ad9ad, 0x5d6aebcd, 0x6a09e667, 0xbb67ae85, 0x78ce7989, 0xfa2a4622, 0x510e527f, 0x9b05688c)
  const S3 := Eight(0xc8c347a7, 0x5a6ad9ad, 0x5d6aebcd, 0x6a09e667, 0xf92939eb, 0x78ce7989, 0xfa2a4622, 0x510e527f)
  const S4 := Eight(0xd550f666, 0xc8c347a7, 0x5a6ad9ad, 0x5d6aebcd, 0x24e00850, 0xf92939eb, 0x78ce7989, 0xfa2a4622)
  const S5 := Eight(0x04409a6a, 0xd550f666, 0xc8c347a7, 0x5a6ad9ad, 0x43ada245, 0x24e00850, 0xf92939eb, 0x78ce7989)
  const S6 := Eight(0x2b4209f5, 0x04409a6a, 0xd550f666, 0xc8c347a7, 0x714260ad, 0x43ada245, 0x24e00850, 0xf92939eb)
  const S7 := Eight(0xe5030380, 0x2b4209f5, 0x04409a6a, 0xd550f666, 0x9b27a401, 0x714260ad, 0x43ada245, 0x24e00850)
  const S8 := Eight(0x85a07b5f, 0xe5030380, 0x2b4209f5, 0x04409a6a, 0x0c657a79, 0x9b27a401, 0x714260ad, 0x43ada245)
  const S9 := Eight(0x8e04ecb9, 0x85a07b5f, 0xe5030380, 0x2b4209f5, 0x32ca2d8c, 0x0c657a79, 0x9b27a401, 0x714260ad)
  const S10 := Eight(0x8c87346b, 0x8e04ecb9, 0x85a07b5f, 0xe5030380, 0x1cc92596, 0x32ca2d8c, 0x0c657a79, 0x9b27a401)
  const S11 := Eight(0x4798a3f4, 0x8c87346b, 0x8e04ecb9, 0x85a07b5f, 0x436b23e8, 0x1cc92596, 0x32ca2d8c, 0x0c657a79)
  const S12 := Eight(0xf71fc5a9, 0x4798a3f4, 0x8c87346b, 0x8e04ecb9, 0x816fd6e9, 0x436b23e8, 0x1cc92596, 0x32ca2d8c)
  const S13 := Eight(0x87912990, 0xf71fc5a9, 0x4798a3f4, 0x8c87346b, 0x1e578218, 0x816fd6e9, 0x436b23e8, 0x1cc92596)
  const S14 := Eight(0xd932eb16, 0x87912990, 0xf71fc5a9, 0x4798a3f4, 0x745a48de, 0x1e578218, 0x816fd6e9, 0x436b23e8)
  const S15 := Eight(0xc0645fde, 0xd932eb16, 0x87912990, 0xf71fc5a9, 0x0b92f20c, 0x745a48de, 0x1e578218, 0x816fd6e9)
  const S16 := Eight(0xb0fa238e, 0xc0645fde, 0xd932eb16, 0x87912990, 0x07590dcd, 0x0b92f20c, 0x745a48de, 0x1e578218)
  const S17 := Eight(0x21da9a9b, 0xb0fa238e, 0xc0645fde, 0xd932eb16, 0x8034229c, 0x07590dcd, 0x0b92f20c, 0x745a48de)
  const S18 := Eight(0xc2fbd9d1, 0x21da9a9b, 0xb0fa238e, 0xc0645fde, 0x846ee454, 0x8034229c, 0x07590dcd, 0x0b92f20c)
  const S19 := Eight(0xfe777bbf, 0xc2fbd9d1, 0x21da9a9b, 0xb0fa238e, 0xcc899961, 0x846ee454, 0x8034229c, 0x07590dcd)
  const S20 := Eight(0xe1f20c33, 0xfe777bbf, 0xc2fbd9d1, 0x21da9a9b, 0xb0638179, 0xcc899961, 0x846ee454, 0x8034229c)
  const S21 := Eight(0x9dc68b63, 0xe1f20c33, 0xfe777bbf, 0xc2fbd9d1, 0x8ada8930, 0xb0638179, 0xcc899961, 0x846ee454)
  const S22 := Eight(0xc2606d6d, 0x9dc68b63, 0xe1f20c33, 0xfe777bbf, 0xe1257970, 0x8ada8930, 0xb0638179, 0xcc899961)
  const S23 := Eight(0xa7a3623f, 0xc2606d6d, 0x9dc68b63, 0xe1f20c33, 0x49f5114a, 0xe1257970, 0x8ada8930, 0xb0638179)
  const S24 := Eight(0xc5d53d8d, 0xa7a3623f, 0xc2606d6d, 0x9dc68b63, 0xaa47c347, 0x49f5114a, 0xe1257970, 0x8ada8930)
  const S25 := Eight(0x1c2c2838, 0xc5d53d8d, 0xa7a3623f, 0xc2606d6d, 0x2823ef91, 0xaa47c347, 0x49f5114a, 0xe1257970)
  const S26 := Eight(0xcde8037d, 0x1c2c2838, 0xc5d53d8d, 0xa7a3623f, 0x14383d8e, 0x2823ef91, 0xaa47c347, 0x49f5114a)
  const S27 := Eight(0xb62ec4bc, 0xcde8037d, 0x1c2c2838, 0xc5d53d8d, 0xc74c6516, 0x14383d8e, 0x2823ef91, 0xaa47c347)
  const S28 := Eight(0x77d37528, 0xb62ec4bc, 0xcde8037d, 0x1c2c2838, 0xedffbff8, 0xc74c6516, 0x14383d8e, 0x2823ef91)
  const S29 := Eight(0x363482c9, 0x77d37528, 0xb62ec4bc, 0xcde8037d, 0x6112a3b7, 0xedffbff8, 0xc74c6516, 0x14383d8e)
  const S30 := Eight(0xa0060b30, 0x363482c9, 0x77d37528, 0xb62ec4bc, 0xade79437, 0x6112a3b7, 0xedffbff8, 0xc74c6516)
  const S31 := Eight(0xea992a22, 0xa0060b30, 0x363482c9, 0x77d37528, 0x0109ab3a, 0xade79437, 0x6112a3b7, 0xedffbff8)
  const S32 := Eight(0x73b33bf5, 0xea992a22, 0xa0060b30, 0x363482c9, 0xba591112, 0x0109ab3a, 0xade79437, 0x6112a3b7)
  const S33 := Eight(0x98e12507, 0x73b33bf5, 0xea992a22, 0xa0060b30, 0x9cd9f5f6, 0xba591112, 0x0109ab3a, 0xade79437)
  const S34 := Eight(0xfe604df5, 0x98e12507, 0x73b33bf5, 0xea992a22, 0x59249dd3, 0x9cd9f5f6, 0xba591112, 0x0109ab3a)
  const S35 := Eight(0xa9a7738c, 0xfe604df5, 0x98e12507, 0x73b33bf5, 0x085f3833, 0x59249dd3, 0x9cd9f5f6, 0xba591112)
  const S36 := Eight(0x65a0cfe4, 0xa9a7738c, 0xfe604df5, 0x98e12507, 0xf4b002d6, 0x085f3833, 0x59249dd3, 0x9cd9f5f6)
  const S37 := Eight(0x41a65cb1, 0x65a0cfe4, 0xa9a7738c, 0xfe604df5, 0x0772a26b, 0xf4b002d6, 0x085f3833, 0x59249dd3)
  const S38 := Eight(0x34df1604, 0x41a65cb1, 0x65a0cfe4, 0xa9a7738c, 0xa507a53d, 0x0772a26b, 0xf4b002d6, 0x085f3833)
  const S39 := Eight(0x6dc57a8a, 0x34df1604, 0x41a65cb1, 0x65a0cfe4, 0xf0781bc8, 0xa507a53d, 0x0772a26b, 0xf4b002d6)
  const S40 := Eight(0x79ea687a, 0x6dc57a8a, 0x34df1604, 0x41a65cb1, 0x1efbc0a0, 0xf0781bc8, 0xa507a53d, 0x0772a26b)
  const S41 := Eight(0xd6670766, 0x79ea687a, 0x6dc57a8a, 0x34df1604, 0x26352d63, 0x1efbc0a0, 0xf0781bc8, 0xa507a53d)
  const S42 := Eight(0xdf46652f, 0xd6670766, 0x79ea687a, 0x6dc57a8a, 0x838b2711, 0x26352d63, 0x1efbc0a0, 0xf0781bc8)
  const S43 := Eight(0x17aa0dfe, 0xdf46652f, 0xd6670766, 0x79ea687a, 0xdecd4715, 0x838b2711, 0x26352d63, 0x1efbc0a0)
  const S44 := Eight(0x9d4baf93, 0x17aa0dfe, 0xdf46652f, 0xd6670766, 0xfda24c2e, 0xdecd4715, 0x838b2711, 0x26352d63)
  const S45 := Eight(0x26628815, 0x9d4baf93, 0x17aa0dfe, 0xdf46652f, 0xa80f11f0, 0xfda24c2e, 0xdecd4715, 0x838b2711)
  const S46 := Eight(0x72ab4b91, 0x26628815, 0x9d4baf93, 0x17aa0dfe, 0xb7755da1, 0xa80f11f0, 0xfda24c2e, 0xdecd4715)
  const S47 := Eight(0xa14c14b0, 0x72ab4b91, 0x26628815, 0x9d4baf93, 0xd57b94a9, 0xb7755da1, 0xa80f11f0, 0xfda24c2e)
  const S48 := Eight(0x4172328d, 0xa14c14b0, 0x72ab4b91, 0x26628815, 0xfecf0bc6, 0xd57b94a9, 0xb7755da1, 0xa80f11f0)
  const S49 := Eight(0x05757ceb, 0x4172328d, 0xa14c14b0, 0x72ab4b91, 0xbd714038, 0xfecf0bc6, 0xd57b94a9, 0xb7755da1)
  const S50 := Eight(0xf11bfaa8, 0x05757ceb, 0x4172328d, 0xa14c14b0, 0x6e5c390c, 0xbd714038, 0xfecf0bc6, 0xd57b94a9)
  const S51 := Eight(0x7a0508a1, 0xf11bfaa8, 0x05757ceb, 0x4172328d, 0x52f1ccf7, 0x6e5c390c, 0xbd714038, 0xfecf0bc6)
  const S52 := Eight(0x886e7a22, 0x7a0508a1, 0xf11bfaa8, 0x05757ceb, 0x49231c1e, 0x52f1ccf7, 0x6e5c390c, 0xbd714038)
  const S53 := Eight(0x101fd28f, 0x886e7a22, 0x7a0508a1, 0xf11bfaa8, 0x529e7d00, 0x49231c1e, 0x52f1ccf7, 0x6e5c390c)
  const S54 := Eight(0xf5702fdb, 0x101fd28f, 0x886e7a22, 0x7a0508a1, 0x9f4787c3, 0x529e7d00, 0x49231c1e, 0x52f1ccf7)
  const S55 := Eight(0x3ec45cdb, 0xf5702fdb, 0x101fd28f, 0x886e7a22, 0xe50e1b4f, 0x9f4787c3, 0x529e7d00, 0x49231c1e)
  const S56 := Eight(0x38cc9913, 0x3ec45cdb, 0xf5702fdb, 0x101fd28f, 0x54cb266b, 0xe50e1b4f, 0x9f4787c3, 0x529e7d00)
  const S57 := Eight(0xfcd1887b, 0x38cc9913, 0x3ec45cdb, 0xf5702fdb, 0x9b5e906c, 0x54cb266b, 0xe50e1b4f, 0x9f4787c3)
  const S58 := Eight(0xc062d46f, 0xfcd1887b, 0x38cc9913, 0x3ec45cdb, 0x7e44008e, 0x9b5e906c, 0x54cb266b, 0xe50e1b4f)
  const S59 := Eight(0xffb70472, 0xc062d46f, 0xfcd1887b, 0x38cc9913, 0x6d83bfc6, 0x7e44008e, 0x9b5e906c, 0x54cb266b)
  const S60 := Eight(0xb6ae8fff, 0xffb70472, 0xc062d46f, 0xfcd1887b, 0xb21bad3d, 0x6d83bfc6, 0x7e44008e, 0x9b5e906c)
  const S61 := Eight(0xb85e2ce9, 0xb6ae8fff, 0xffb70472, 0xc062d46f, 0x961f4894, 0xb21bad3d, 0x6d83bfc6, 0x7e44008e)
  const S62 := Eight(0x04d24d6c, 0xb85e2ce9, 0xb6ae8fff, 0xffb70472, 0x948d25b6, 0x961f4894, 0xb21bad3d, 0x6d83bfc6)
  const S63 := Eight(0xd39a2165, 0x04d24d6c, 0xb85e2ce9, 0xb6ae8fff, 0xfb121210, 0x948d25b6, 0x961f4894, 0xb21bad3d)
  const S64 := Eight(0x506e3058, 0xd39a2165, 0x04d24d6c, 0xb85e2ce9, 0x5ef50f24, 0xfb121210, 0x948d25b6, 0x961f4894)

  lemma Sums16To23()
    ensures ScheduleWord(0x61626380, 0x00000000, 0x00000000, 0x00000000) == 0x61626380
    ensures ScheduleWord(0x00000000, 0x00000000, 0x00000000, 0x00000018) == 0x000f0000
    ensures ScheduleWord(0x00000000, 0x00000000, 0x00000000, 0x61626380) == 0x7da86405
    ensures ScheduleWord(0x00000000, 0x00000000, 0x00000000, 0x000f0000) == 0x600003c6
    ensures ScheduleWord(0x00000000, 0x00000000, 0x00000000, 0x7da86405) == 0x3e9d7b78
    ensures ScheduleWord(0x00000000, 0x00000000, 0x00000000, 0x600003c6) == 0x0183fc00
    ensures ScheduleWord(0x00000000, 0x00000000, 0x00000018, 0x3e9d7b78) == 0x12dcbfdb
    ensures ScheduleWord(0x00000000, 0x00000000, 0x61626380, 0x0183fc00) == 0xe2e2c38e
  {
  }

  lemma Sums24To31()
    ensures ScheduleWord(0x00000000, 0x00000000, 0x000f0000, 0x12dcbfdb) == 0xc8215c1a
    ensures ScheduleWord(0x00000000, 0x00000000, 0x7da86405, 0xe2e2c38e) == 0xb73679a2
    ensures ScheduleWord(0x00000000, 0x00000000, 0x600003c6, 0xc8215c1a) == 0xe5bc3909
    ensures ScheduleWord(0x00000000, 0x00000000, 0x3e9d7b78, 0xb73679a2) == 0x32663c5b
    ensures ScheduleWord(0x00000000, 0x00000000, 0x0183fc00, 0xe5bc3909) == 0x9d209d67
    ensures ScheduleWord(0x00000000, 0x00000000, 0x12dcbfdb, 0x32663c5b) == 0xec8726cb
    ensures ScheduleWord(0x00000000, 0x00000018, 0xe2e2c38e, 0x9d209d67) == 0x702138a4
    ensures ScheduleWord(0x00000018, 0x61626380, 0xc8215c1a, 0xec8726cb) == 0xd3b7973b
  {
  }

  lemma Sums32To39()
    ensures ScheduleWord(0x61626380, 0x000f0000, 0xb73679a2, 0x702138a4) == 0x93f5997f
    ensures ScheduleWord(0x000f0000, 0x7da86405, 0xe5bc3909, 0xd3b7973b) == 0x3b68ba73
    ensures ScheduleWord(0x7da86405, 0x600003c6, 0x32663c5b, 0x93f5997f) == 0xaff4ffc1
    ensures ScheduleWord(0x600003c6, 0x3e9d7b78, 0x9d209d67, 0x3b68ba73) == 0xf10a5c62
    ensures ScheduleWord(0x3e9d7b78, 0x0183fc00, 0xec8726cb, 0xaff4ffc1) == 0x0a8b3996
    ensures ScheduleWord(0x0183fc00, 0x12dcbfdb, 0x702138a4, 0xf10a5c62) == 0x72af830a
    ensures ScheduleWord(0x12dcbfdb, 0xe2e2c38e, 0xd3b7973b, 0x0a8b3996) == 0x9409e33e
    ensures ScheduleWord(0xe2e2c38e, 0xc8215c1a, 0x93f5997f, 0x72af830a) == 0x24641522
  {
  }

  lemma Sums40To47()
    ensures ScheduleWord(0xc8215c1a, 0xb73679a2, 0x3b68ba73, 0x9409e33e) == 0x9f47bf94
    ensures ScheduleWord(0xb73679a2, 0xe5bc3909, 0xaff4ffc1, 0x24641522) == 0xf0a64f5a
    ensures ScheduleWord(0xe5bc3909, 0x32663c5b, 0xf10a5c62, 0x9f47bf94) == 0x3e246a79
    ensures ScheduleWord(0x32663c5b, 0x9d209d67, 0x0a8b3996, 0xf0a64f5a) == 0x27333ba3
    ensures ScheduleWord(0x9d209d67, 0xec8726cb, 0x72af830a, 0x3e246a79) == 0x0c4763f2
    ensures ScheduleWord(0xec8726cb, 0x702138a4, 0x9409e33e, 0x27333ba3) == 0x840abf27
    ensures ScheduleWord(0x702138a4, 0xd3b7973b, 0x24641522, 0x0c4763f2) == 0x7a290d5d
    ensures ScheduleWord(0xd3b7973b, 0x93f5997f, 0x9f47bf94, 0x840abf27) == 0x065c43da
  {
  }

  lemma Sums48To55()
    ensures ScheduleWord(0x93f5997f, 0x3b68ba73, 0xf0a64f5a, 0x7a290d5d) == 0xfb3e89cb
    ensures ScheduleWord(0x3b68ba73, 0xaff4ffc1, 0x3e246a79, 0x065c43da) == 0xcc7617db
    ensures ScheduleWord(0xaff4ffc1, 0xf10a5c62, 0x27333ba3, 0xfb3e89cb) == 0xb9e66c34
    ensures ScheduleWord(0xf10a5c62, 0x0a8b3996, 0x0c4763f2, 0xcc7617db) == 0xa9993667
    ensures ScheduleWord(0x0a8b3996, 0x72af830a, 0x840abf27, 0xb9e66c34) == 0x84badedd
    ensures ScheduleWord(0x72af830a, 0x9409e33e, 0x7a290d5d, 0xa9993667) == 0xc21462bc
    ensures ScheduleWord(0x9409e33e, 0x24641522, 0x065c43da, 0x84badedd) == 0x1487472c
    ensures ScheduleWord(0x24641522, 0x9f47bf94, 0xfb3e89cb, 0xc21462bc) == 0xb20f7a99
  {
  }

  lemma Sums56To63()
    ensures ScheduleWord(0x9f47bf94, 0xf0a64f5a, 0xcc7617db, 0x1487472c) == 0xef57b9cd
    ensures ScheduleWord(0xf0a64f5a, 0x3e246a79, 0xb9e66c34, 0xb20f7a99) == 0xebe6b238
    ensures ScheduleWord(0x3e246a79, 0x27333ba3, 0xa9993667, 0xef57b9cd) == 0x9fe3095e
    ensures ScheduleWord(0x27333ba3, 0x0c4763f2, 0x84badedd, 0xebe6b238) == 0x78bc8d4b
    ensures ScheduleWord(0x0c4763f2, 0x840abf27, 0xc21462bc, 0x9fe3095e) == 0xa43fcf15
    ensures ScheduleWord(0x840abf27, 0x7a290d5d, 0x1487472c, 0x78bc8d4b) == 0x668b2ff8
    ensures ScheduleWord(0x7a290d5d, 0x065c43da, 0xb20f7a99, 0xa43fcf15) == 0xeeaba2cc
    ensures ScheduleWord(0x065c43da, 0xfb3e89cb, 0xef57b9cd, 0x668b2ff8) == 0x12b1edeb
  {
  }

  lemma Words0To15()
    ensures W(0) == 0x61626380 && W(15) == 24
    ensures W(1) == 0 && W(2) == 0 && W(3) == 0 && W(4) == 0 && W(5) == 0 && W(6) == 0 && W(7) == 0
    ensures W(8) == 0 && W(9) == 0 && W(10) == 0 && W(11) == 0 && W(12) == 0 && W(13) == 0 && W(14) == 0
  {
    hide W;
    FirstWord();
    forall t | 0 < t < 15
      ensures W(t) == 0
    {
      ZeroWord(t);
    }
    LastWord();
  }

  lemma Words16To23()
    ensures W(16) == 0x61626380 && W(17) == 0x000f0000 && W(18) == 0x7da86405 && W(19) == 0x600003c6
    ensures W(20) == 0x3e9d7b78 && W(21) == 0x0183fc00 && W(22) == 0x12dcbfdb && W(23) == 0xe2e2c38e
  {
    hide W, ScheduleWord;
    Words0To15();
    Sums16To23();
    EightWords(16);
  }

  lemma Words24To31()
    ensures W(24) == 0xc8215c1a && W(25) == 0xb73679a2 && W(26) == 0xe5bc3909 && W(27) == 0x32663c5b
    ensures W(28) == 0x9d209d67 && W(29) == 0xec8726cb && W(30) == 0x702138a4 && W(31) == 0xd3b7973b
  {
    hide W, ScheduleWord;
    Words0To15();
    Words16To23();
    Sums24To31();
    EightWords(24);
  }

  lemma Words32To39()
    ensures W(32) == 0x93f5997f && W(33) == 0x3b68ba73 && W(34) == 0xaff4ffc1 && W(35) == 0xf10a5c62
    ensures W(36) == 0x0a8b3996 && W(37) == 0x72af830a && W(38) == 0x9409e33e && W(39) == 0x24641522
  {
    hide W, ScheduleWord;
    Words16To23();
    Words24To31();
    Sums32To39();
    EightWords(32);
  }

  lemma Words40To47()
    ensures W(40) == 0x9f47bf94 && W(41) == 0xf0a64f5a && W(42) == 0x3e246a79 && W(43) == 0x27333ba3
    ensures W(44) == 0x0c4763f2 && W(45) == 0x840abf27 && W(46) == 0x7a290d5d && W(47) == 0x065c43da
  {
    hide W, ScheduleWord;
    Words24To31();
    Words32To39();
    Sums40To47();
    EightWords(40);
  }

  lemma Words48To55()
    ensures W(48) == 0xfb3e89cb && W(49) == 0xcc7617db && W(50) == 0xb9e66c34 && W(51) == 0xa9993667
    ensures W(52) == 0x84badedd && W(53) == 0xc21462bc && W(54) == 0x1487472c && W(55) == 0xb20f7a99
  {
    hide W, ScheduleWord;
    Words32To39();
    Words40To47();
    Sums48To55();
    EightWords(48);
  }

  lemma Words56To63()
    ensures W(56) == 0xef57b9cd && W(57) == 0xebe6b238 && W(58) == 0x9fe3095e && W(59) == 0x78bc8d4b
    ensures W(60) == 0xa43fcf15 && W(61) == 0x668b2ff8 && W(62) == 0xeeaba2cc && W(63) == 0x12b1edeb
  {
    hide W, ScheduleWord;
    Words40To47();
    Words48To55();
    Sums56To63();
    EightWords(56);
  }

  lemma Constants0To7()
    ensures K(0) == 0x428a2f98 && K(1) == 0x71374491 && K(2) == 0xb5c0fbcf && K(3) == 0xe9b5dba5
    ensures K(4) == 0x3956c25b && K(5) == 0x59f111f1 && K(6) == 0x923f82a4 && K(7) == 0xab1c5ed5
  {
  }

  lemma Constants8To15()
    ensures K(8) == 0xd807aa98 && K(9) == 0x12835b01 && K(10) == 0x243185be && K(11) == 0x550c7dc3
    ensures K(12) == 0x72be5d74 && K(13) == 0x80deb1fe && K(14) == 0x9bdc06a7 && K(15) == 0xc19bf174
  {
  }

  lemma Constants16To23()
    ensures K(16) == 0xe49b69c1 && K(17) == 0xefbe4786 && K(18) == 0x0fc19dc6 && K(19) == 0x240ca1cc
    ensures K(20) == 0x2de92c6f && K(21) == 0x4a7484aa && K(22) == 0x5cb0a9dc && K(23) == 0x76f988da
  {
  }

  lemma Constants24To31()
    ensures K(24) == 0x983e5152 && K(25) == 0xa831c66d && K(26) == 0xb00327c8 && K(27) == 0xbf597fc7
    ensures K(28) == 0xc6e00bf3 && K(29) == 0xd5a79147 && K(30) == 0x06ca6351 && K(31) == 0x14292967
  {
  }

  lemma Constants32To39()
    ensures K(32) == 0x27b70a85 && K(33) == 0x2e1b2138 && K(34) == 0x4d2c6dfc && K(35) == 0x53380d13
    ensures K(36) == 0x650a7354 && K(37) == 0x766a0abb && K(38) == 0x81c2c92e && K(39) == 0x92722c85
  {
  }

  lemma Constants40To47()
    ensures K(40) == 0xa2bfe8a1 && K(41) == 0xa81a664b && K(42) == 0xc24b8b70 && K(43) == 0xc76c51a3
    ensures K(44) == 0xd192e819 && K(45) == 0xd6990624 && K(46) == 0xf40e3585 && K(47) == 0x106aa070
  {
  }

  lemma Constants48To55()
    ensures K(48) == 0x19a4c116 && K(49) == 0x1e376c08 && K(50) == 0x2748774c && K(51) == 0x34b0bcb5
    ensures K(52) == 0x391c0cb3 && K(53) == 0x4ed8aa4a && K(54) == 0x5b9cca4f && K(55) == 0x682e6ff3
  {
  }

  lemma Constants56To63()
    ensures K(56) == 0x748f82ee && K(57) == 0x78a5636f && K(58) == 0x84c87814 && K(59) == 0x8cc70208
    ensures K(60) == 0x90befffa && K(61) == 0xa4506ceb && K(62) == 0xbef9a3f7 && K(63) == 0xc67178f2
  {
  }

  lemma Steps0To3()
    ensures OneRound(S0, 0x428a2f98, 0x61626380) == S1
    ensures OneRound(S1, 0x71374491, 0x00000000) == S2
    ensures OneRound(S2, 0xb5c0fbcf, 0x00000000) == S3
    ensures OneRound(S3, 0xe9b5dba5, 0x00000000) == S4
  {
  }

  lemma Steps4To7()
    ensures OneRound(S4, 0x3956c25b, 0x00000000) == S5
    ensures OneRound(S5, 0x59f111f1, 0x00000000) == S6
    ensures OneRound(S6, 0x923f82a4, 0x00000000) == S7
    ensures OneRound(S7, 0xab1c5ed5, 0x00000000) == S8
  {
  }

  lemma Steps8To11()
    ensures OneRound(S8, 0xd807aa98, 0x00000000) == S9
    ensures OneRound(S9, 0x12835b01, 0x00000000) == S10
    ensures OneRound(S10, 0x243185be, 0x00000000) == S11
    ensures OneRound(S11, 0x550c7dc3, 0x00000000) == S12
  {
  }

  lemma Steps12To15()
    ensures OneRound(S12, 0x72be5d74, 0x00000000) == S13
    ensures OneRound(S13, 0x80deb1fe, 0x00000000) == S14
    ensures OneRound(S14, 0x9bdc06a7, 0x00000000) == S15
    ensures OneRound(S15, 0xc19bf174, 0x00000018) == S16
  {
  }

  lemma Steps16To19()
    ensures OneRound(S16, 0xe49b69c1, 0x61626380) == S17
    ensures OneRound(S17, 0xefbe4786, 0x000f0000) == S18
    ensures OneRound(S18, 0x0fc19dc6, 0x7da86405) == S19
    ensures OneRound(S19, 0x240ca1cc, 0x600003c6) == S20
  {
  }

  lemma Steps20To23()
    ensures OneRound(S20, 0x2de92c6f, 0x3e9d7b78) == S21
    ensures OneRound(S21, 0x4a7484aa, 0x0183fc00) == S22
    ensures OneRound(S22, 0x5cb0a9dc, 0x12dcbfdb) == S23
    ensures OneRound(S23, 0x76f988da, 0xe2e2c38e) == S24
  {
  }

  lemma Steps24To27()
    ensures OneRound(S24, 0x983e5152, 0xc8215c1a) == S25
    ensures OneRound(S25, 0xa831c66d, 0xb73679a2) == S26
    ensures OneRound(S26, 0xb00327c8, 0xe5bc3909) == S27
    ensures OneRound(S27, 0xbf597fc7, 0x32663c5b) == S28
  {
  }

  lemma Steps28To31()
    ensures OneRound(S28, 0xc6e00bf3, 0x9d209d67) == S29
    ensures OneRound(S29, 0xd5a79147, 0xec8726cb) == S30
    ensures OneRound(S30, 0x06ca6351, 0x702138a4) == S31
    ensures OneRound(S31, 0x14292967, 0xd3b7973b) == S32
  {
  }

  lemma Steps32To35()
    ensures OneRound(S32, 0x27b70a85, 0x93f5997f) == S33
    ensures OneRound(S33, 0x2e1b2138, 0x3b68ba73) == S34
    ensures OneRound(S34, 0x4d2c6dfc, 0xaff4ffc1) == S35
    ensures OneRound(S35, 0x53380d13, 0xf10a5c62) == S36
  {
  }

  lemma Steps36To39()
    ensures OneRound(S36, 0x650a7354, 0x0a8b3996) == S37
    ensures OneRound(S37, 0x766a0abb, 0x72af830a) == S38
    ensures OneRound(S38, 0x81c2c92e, 0x9409e33e) == S39
    ensures OneRound(S39, 0x92722c85, 0x24641522) == S40
  {
  }

  lemma Steps40To43()
    ensures OneRound(S40, 0xa2bfe8a1, 0x9f47bf94) == S41
    ensures OneRound(S41, 0xa81a664b, 0xf0a64f5a) == S42
    ensures OneRound(S42, 0xc24b8b70, 0x3e246a79) == S43
    ensures OneRound(S43, 0xc76c51a3, 0x27333ba3) == S44
  {
  }

  lemma Steps44To47()
    ensures OneRound(S44, 0xd192e819, 0x0c4763f2) == S45
    ensures OneRound(S45, 0xd6990624, 0x840abf27) == S46
    ensures OneRound(S46, 0xf40e3585, 0x7a290d5d) == S47
    ensures OneRound(S47, 0x106aa070, 0x065c43da) == S48
  {
  }

  lemma Steps48To51()
    ensures OneRound(S48, 0x19a4c116, 0xfb3e89cb) == S49
    ensures OneRound(S49, 0x1e376c08, 0xcc7617db) == S50
    ensures OneRound(S50, 0x2748774c, 0xb9e66c34) == S51
    ensures OneRound(S51, 0x34b0bcb5, 0xa9993667) == S52
  {
  }

  lemma Steps52To55()
    ensures OneRound(S52, 0x391c0cb3, 0x84badedd) == S53
    ensures OneRound(S53, 0x4ed8aa4a, 0xc21462bc) == S54
    ensures OneRound(S54, 0x5b9cca4f, 0x1487472c) == S55
    ensures OneRound(S55, 0x682e6ff3, 0xb20f7a99) == S56
  {
  }

  lemma Steps56To59()
    ensures OneRound(S56, 0x748f82ee, 0xef57b9cd) == S57
    ensures OneRound(S57, 0x78a5636f, 0xebe6b238) == S58
    ensures OneRound(S58, 0x84c87814, 0x9fe3095e) == S59
    ensures OneRound(S59, 0x8cc70208, 0x78bc8d4b) == S60
  {
  }

  lemma Steps60To63()
    ensures OneRound(S60, 0x90befffa, 0xa43fcf15) == S61
    ensures OneRound(S61, 0xa4506ceb, 0x668b2ff8) == S62
    ensures OneRound(S62, 0xbef9a3f7, 0xeeaba2cc) == S63
    ensures OneRound(S63, 0xc67178f2, 0x12b1edeb) == S64
  {
  }

  lemma Rounds8()
    ensures R(8) == S8
  {
    hide R, W, K, OneRound;
    NoRounds();
    Words0To15();
    Constants0To7();
    Steps0To3();
    Steps4To7();
    EightRounds(0);
  }

  lemma Rounds16()
    ensures R(16) == S16
  {
    hide R, W, K, OneRound;
    Rounds8();
    Words0To15();
    Constants8To15();
    Steps8To11();
    Steps12To15();
    EightRounds(8);
  }

  lemma Rounds24()
    ensures R(24) == S24
  {
    hide R, W, K, OneRound;
    Rounds16();
    Words16To23();
    Constants16To23();
    Steps16To19();
    Steps20To23();
    EightRounds(16);
  }

  lemma Rounds32()
    ensures R(32) == S32
  {
    hide R, W, K, OneRound;
    Rounds24();
    Words24To31();
    Constants24To31();
    Steps24To27();
    Steps28To31();
    EightRounds(24);
  }

  lemma Rounds40()
    ensures R(40) == S40
  {
    hide R, W, K, OneRound;
    Rounds32();
    Words32To39();
    Constants32To39();
    Steps32To35();
    Steps36To39();
    EightRounds(32);
  }

  lemma Rounds48()
    ensures R(48) == S48
  {
    hide R, W, K, OneRound;
    Rounds40();
    Words40To47();
    Constants40To47();
    Steps40To43();
    Steps44To47();
    EightRounds(40);
  }

  lemma Rounds56()
    ensures R(56) == S56
  {
    hide R, W, K, OneRound;
    Rounds48();
    Words48To55();
    Constants48To55();
    Steps48To51();
    Steps52To55();
    EightRounds(48);
  }

  lemma Rounds64()
    ensures R(64) == S64
  {
    hide R, W, K, OneRound;
    Rounds56();
    Words56To63();
    Constants56To63();
    Steps56To59();
    Steps60To63();
    EightRounds(56);
  }

  lemma NoRounds()
    ensures R(0) == S0
  {
    hide BigEndian, Zeros;
  }

  const DIGEST := Eight(0xba7816bf, 0x8f01cfea, 0x414140de, 0x5dae2223, 0xb00361a3, 0x96177a9c, 0xb410ff61, 0xf20015ad)

  lemma BlockHashes()
    ensures Hashed(BLOCK, 1) == DIGEST
  {
    hide BigEndian, Zeros, Rounds;
    Rounds64();
    assert Hashed(BLOCK, 0) == INITIAL;
    FinalSum();
  }

  lemma FinalSum()
    ensures Sum(INITIAL, S64) == DIGEST
  {
  }

  lemma FromNext(text: string, n: nat)
    requires n < |text|
    ensures FromHex(text[..n + 1]) == FromHex(text[..n]) * 16 + HexDigitValue(text[n])
  {
    assert text[..n + 1][..n] == text[..n];
  }

  lemma FromFourDigits(text: string)
    requires |text| >= 4
    ensures var d := seq(4, i requires 0 <= i < 4 => HexDigitValue(text[i]));
            FromHex(text[..4]) == ((d[0] * 16 + d[1]) * 16 + d[2]) * 16 + d[3]
  {
    hide HexDigitValue;
    FromNext(text, 3);
    FromNext(text, 2);
    FromNext(text, 1);
    FromNext(text, 0);
    assert text[..0] == "";
  }

  lemma FromEight(text: string)
    requires |text| == 8
    ensures var d := seq(8, i requires 0 <= i < 8 => HexDigitValue(text[i]));
            FromHex(text) == (((((((d[0] * 16 + d[1]) * 16 + d[2]) * 16 + d[3]) * 16 + d[4]) * 16 + d[5]) * 16 + d[6])
                              * 16 + d[7])
  {
    hide HexDigitValue, FromHex;
    FromFourDigits(text);
    FromNext(text, 4);
    FromNext(text, 5);
    FromNext(text, 6);
    FromNext(text, 7);
    assert text[..8] == text;
  }

  lemma Text0()
    ensures Hex(0xba7816bf, 8) == "ba7816bf"
  {
    hide Hex, FromHex;
    FromEight("ba7816bf");
    HexShows("ba7816bf");
  }

  lemma Text1()
    ensures Hex(0x8f01cfea, 8) == "8f01cfea"
  {
    hide Hex, FromHex;
    FromEight("8f01cfea");
    HexShows("8f01cfea");
  }

  lemma Text2()
    ensures Hex(0x414140de, 8) == "414140de"
  {
    hide Hex, FromHex;
    FromEight("414140de");
    HexShows("414140de");
  }

  lemma Text3()
    ensures Hex(0x5dae2223, 8) == "5dae2223"
  {
    hide Hex, FromHex;
    FromEight("5dae2223");
    HexShows("5dae2223");
  }

  lemma Text4()
    ensures Hex(0xb00361a3, 8) == "b00361a3"
  {
    hide Hex, FromHex;
    FromEight("b00361a3");
    HexShows("b00361a3");
  }

  lemma Text5()
    ensures Hex(0x96177a9c, 8) == "96177a9c"
  {
    hide Hex, FromHex;
    FromEight("96177a9c");
    HexShows("96177a9c");
  }

  lemma Text6()
    ensures Hex(0xb410ff61, 8) == "b410ff61"
  {
    hide Hex, FromHex;
    FromEight("b410ff61");
    HexShows("b410ff61");
  }

  lemma Text7()
    ensures Hex(0xf20015ad, 8) == "f20015ad"
  {
    hide Hex, FromHex;
    FromEight("f20015ad");
    HexShows("f20015ad");
  }

  const TEXT: string := "ba7816bf" + "8f01cfea" + "414140de" + "5dae2223" + "b00361a3" + "96177a9c" + "b410ff61"
      + "f20015ad"

  lemma DigestText()
    ensures HexOf(DIGEST) == TEXT
  {
    hide Hex, WordsText;
    var words, text := DIGEST.Words(), HexOf(DIGEST);
    WordsTextAt(words, 0);
    WordsTextAt(words, 1);
    WordsTextAt(words, 2);
    WordsTextAt(words, 3);
    WordsTextAt(words, 4);
    WordsTextAt(words, 5);
    WordsTextAt(words, 6);
    WordsTextAt(words, 7);
    EightSlices(text);

    Text0();
    Text1();
    Text2();
    Text3();
    Text4();
    Text5();
    Text6();
    Text7();
  }

  lemma EightSlices(t: string)
    requires |t| == 64
    ensures t == t[8 * 0..8 * 0 + 8] + t[8 * 1..8 * 1 + 8] + t[8 * 2..8 * 2 + 8] + t[8 * 3..8 * 3 + 8]
               + t[8 * 4..8 * 4 + 8] + t[8 * 5..8 * 5 + 8] + t[8 * 6..8 * 6 + 8] + t[8 * 7..8 * 7 + 8]
  {
  }

  /** The digest that the standard gives for its example. */
  lemma AbcDigest(text: string)
    ensures IsSha256(ABC, text) <==> text == TEXT
  {
    hide IsPadded, Hashed, HexOf;
    BlockIsPadded();
    BlockHashes();
    DigestText();
    if IsSha256(ABC, text) {
      DigestIsUnique(ABC, text, TEXT);
    }
  }
}

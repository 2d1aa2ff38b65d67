/** A known answer of SHA-256, through all 64 rounds: the message "abc" of FIPS 180-4's examples. */
module Sha256Answer {
  import opened Bytes
  import opened Sha256

  const ABC: seq<Byte> := [0x61, 0x62, 0x63]

  const BLOCK: MessageBlock := ABC + [0x80] + Zeros(52) + [0, 0, 0, 0, 0, 0, 0, 0x18]

  // ---- The working variables before round 0 and after each round

  const V0 := Words(0x6a09e667, 0xbb67ae85, 0x3c6ef372, 0xa54ff53a, 0x510e527f, 0x9b05688c, 0x1f83d9ab, 0x5be0cd19)
  const V1 := Words(0x5d6aebcd, 0x6a09e667, 0xbb67ae85, 0x3c6ef372, 0xfa2a4622, 0x510e527f, 0x9b05688c, 0x1f83d9ab)
  const V2 := Words(0x5a6ad9ad, 0x5d6aebcd, 0x6a09e667, 0xbb67ae85, 0x78ce7989, 0xfa2a4622, 0x510e527f, 0x9b05688c)
  const V3 := Words(0xc8c347a7, 0x5a6ad9ad, 0x5d6aebcd, 0x6a09e667, 0xf92939eb, 0x78ce7989, 0xfa2a4622, 0x510e527f)
  const V4 := Words(0xd550f666, 0xc8c347a7, 0x5a6ad9ad, 0x5d6aebcd, 0x24e00850, 0xf92939eb, 0x78ce7989, 0xfa2a4622)
  const V5 := Words(0x04409a6a, 0xd550f666, 0xc8c347a7, 0x5a6ad9ad, 0x43ada245, 0x24e00850, 0xf92939eb, 0x78ce7989)
  const V6 := Words(0x2b4209f5, 0x04409a6a, 0xd550f666, 0xc8c347a7, 0x714260ad, 0x43ada245, 0x24e00850, 0xf92939eb)
  const V7 := Words(0xe5030380, 0x2b4209f5, 0x04409a6a, 0xd550f666, 0x9b27a401, 0x714260ad, 0x43ada245, 0x24e00850)
  const V8 := Words(0x85a07b5f, 0xe5030380, 0x2b4209f5, 0x04409a6a, 0x0c657a79, 0x9b27a401, 0x714260ad, 0x43ada245)
  const V9 := Words(0x8e04ecb9, 0x85a07b5f, 0xe5030380, 0x2b4209f5, 0x32ca2d8c, 0x0c657a79, 0x9b27a401, 0x714260ad)
  const V10 := Words(0x8c87346b, 0x8e04ecb9, 0x85a07b5f, 0xe5030380, 0x1cc92596, 0x32ca2d8c, 0x0c657a79, 0x9b27a401)
  const V11 := Words(0x4798a3f4, 0x8c87346b, 0x8e04ecb9, 0x85a07b5f, 0x436b23e8, 0x1cc92596, 0x32ca2d8c, 0x0c657a79)
  const V12 := Words(0xf71fc5a9, 0x4798a3f4, 0x8c87346b, 0x8e04ecb9, 0x816fd6e9, 0x436b23e8, 0x1cc92596, 0x32ca2d8c)
  const V13 := Words(0x87912990, 0xf71fc5a9, 0x4798a3f4, 0x8c87346b, 0x1e578218, 0x816fd6e9, 0x436b23e8, 0x1cc92596)
  const V14 := Words(0xd932eb16, 0x87912990, 0xf71fc5a9, 0x4798a3f4, 0x745a48de, 0x1e578218, 0x816fd6e9, 0x436b23e8)
  const V15 := Words(0xc0645fde, 0xd932eb16, 0x87912990, 0xf71fc5a9, 0x0b92f20c, 0x745a48de, 0x1e578218, 0x816fd6e9)
  const V16 := Words(0xb0fa238e, 0xc0645fde, 0xd932eb16, 0x87912990, 0x07590dcd, 0x0b92f20c, 0x745a48de, 0x1e578218)
  const V17 := Words(0x21da9a9b, 0xb0fa238e, 0xc0645fde, 0xd932eb16, 0x8034229c, 0x07590dcd, 0x0b92f20c, 0x745a48de)
  const V18 := Words(0xc2fbd9d1, 0x21da9a9b, 0xb0fa238e, 0xc0645fde, 0x846ee454, 0x8034229c, 0x07590dcd, 0x0b92f20c)
  const V19 := Words(0xfe777bbf, 0xc2fbd9d1, 0x21da9a9b, 0xb0fa238e, 0xcc899961, 0x846ee454, 0x8034229c, 0x07590dcd)
  const V20 := Words(0xe1f20c33, 0xfe777bbf, 0xc2fbd9d1, 0x21da9a9b, 0xb0638179, 0xcc899961, 0x846ee454, 0x8034229c)
  const V21 := Words(0x9dc68b63, 0xe1f20c33, 0xfe777bbf, 0xc2fbd9d1, 0x8ada8930, 0xb0638179, 0xcc899961, 0x846ee454)
  const V22 := Words(0xc2606d6d, 0x9dc68b63, 0xe1f20c33, 0xfe777bbf, 0xe1257970, 0x8ada8930, 0xb0638179, 0xcc899961)
  const V23 := Words(0xa7a3623f, 0xc2606d6d, 0x9dc68b63, 0xe1f20c33, 0x49f5114a, 0xe1257970, 0x8ada8930, 0xb0638179)
  const V24 := Words(0xc5d53d8d, 0xa7a3623f, 0xc2606d6d, 0x9dc68b63, 0xaa47c347, 0x49f5114a, 0xe1257970, 0x8ada8930)
  const V25 := Words(0x1c2c2838, 0xc5d53d8d, 0xa7a3623f, 0xc2606d6d, 0x2823ef91, 0xaa47c347, 0x49f5114a, 0xe1257970)
  const V26 := Words(0xcde8037d, 0x1c2c2838, 0xc5d53d8d, 0xa7a3623f, 0x14383d8e, 0x2823ef91, 0xaa47c347, 0x49f5114a)
  const V27 := Words(0xb62ec4bc, 0xcde8037d, 0x1c2c2838, 0xc5d53d8d, 0xc74c6516, 0x14383d8e, 0x2823ef91, 0xaa47c347)
  const V28 := Words(0x77d37528, 0xb62ec4bc, 0xcde8037d, 0x1c2c2838, 0xedffbff8, 0xc74c6516, 0x14383d8e, 0x2823ef91)
  const V29 := Words(0x363482c9, 0x77d37528, 0xb62ec4bc, 0xcde8037d, 0x6112a3b7, 0xedffbff8, 0xc74c6516, 0x14383d8e)
  const V30 := Words(0xa0060b30, 0x363482c9, 0x77d37528, 0xb62ec4bc, 0xade79437, 0x6112a3b7, 0xedffbff8, 0xc74c6516)
  const V31 := Words(0xea992a22, 0xa0060b30, 0x363482c9, 0x77d37528, 0x0109ab3a, 0xade79437, 0x6112a3b7, 0xedffbff8)
  const V32 := Words(0x73b33bf5, 0xea992a22, 0xa0060b30, 0x363482c9, 0xba591112, 0x0109ab3a, 0xade79437, 0x6112a3b7)
  const V33 := Words(0x98e12507, 0x73b33bf5, 0xea992a22, 0xa0060b30, 0x9cd9f5f6, 0xba591112, 0x0109ab3a, 0xade79437)
  const V34 := Words(0xfe604df5, 0x98e12507, 0x73b33bf5, 0xea992a22, 0x59249dd3, 0x9cd9f5f6, 0xba591112, 0x0109ab3a)
  const V35 := Words(0xa9a7738c, 0xfe604df5, 0x98e12507, 0x73b33bf5, 0x085f3833, 0x59249dd3, 0x9cd9f5f6, 0xba591112)
  const V36 := Words(0x65a0cfe4, 0xa9a7738c, 0xfe604df5, 0x98e12507, 0xf4b002d6, 0x085f3833, 0x59249dd3, 0x9cd9f5f6)
  const V37 := Words(0x41a65cb1, 0x65a0cfe4, 0xa9a7738c, 0xfe604df5, 0x0772a26b, 0xf4b002d6, 0x085f3833, 0x59249dd3)
  const V38 := Words(0x34df1604, 0x41a65cb1, 0x65a0cfe4, 0xa9a7738c, 0xa507a53d, 0x0772a26b, 0xf4b002d6, 0x085f3833)
  const V39 := Words(0x6dc57a8a, 0x34df1604, 0x41a65cb1, 0x65a0cfe4, 0xf0781bc8, 0xa507a53d, 0x0772a26b, 0xf4b002d6)
  const V40 := Words(0x79ea687a, 0x6dc57a8a, 0x34df1604, 0x41a65cb1, 0x1efbc0a0, 0xf0781bc8, 0xa507a53d, 0x0772a26b)
  const V41 := Words(0xd6670766, 0x79ea687a, 0x6dc57a8a, 0x34df1604, 0x26352d63, 0x1efbc0a0, 0xf0781bc8, 0xa507a53d)
  const V42 := Words(0xdf46652f, 0xd6670766, 0x79ea687a, 0x6dc57a8a, 0x838b2711, 0x26352d63, 0x1efbc0a0, 0xf0781bc8)
  const V43 := Words(0x17aa0dfe, 0xdf46652f, 0xd6670766, 0x79ea687a, 0xdecd4715, 0x838b2711, 0x26352d63, 0x1efbc0a0)
  const V44 := Words(0x9d4baf93, 0x17aa0dfe, 0xdf46652f, 0xd6670766, 0xfda24c2e, 0xdecd4715, 0x838b2711, 0x26352d63)
  const V45 := Words(0x26628815, 0x9d4baf93, 0x17aa0dfe, 0xdf46652f, 0xa80f11f0, 0xfda24c2e, 0xdecd4715, 0x838b2711)
  const V46 := Words(0x72ab4b91, 0x26628815, 0x9d4baf93, 0x17aa0dfe, 0xb7755da1, 0xa80f11f0, 0xfda24c2e, 0xdecd4715)
  const V47 := Words(0xa14c14b0, 0x72ab4b91, 0x26628815, 0x9d4baf93, 0xd57b94a9, 0xb7755da1, 0xa80f11f0, 0xfda24c2e)
  const V48 := Words(0x4172328d, 0xa14c14b0, 0x72ab4b91, 0x26628815, 0xfecf0bc6, 0xd57b94a9, 0xb7755da1, 0xa80f11f0)
  const V49 := Words(0x05757ceb, 0x4172328d, 0xa14c14b0, 0x72ab4b91, 0xbd714038, 0xfecf0bc6, 0xd57b94a9, 0xb7755da1)
  const V50 := Words(0xf11bfaa8, 0x05757ceb, 0x4172328d, 0xa14c14b0, 0x6e5c390c, 0xbd714038, 0xfecf0bc6, 0xd57b94a9)
  const V51 := Words(0x7a0508a1, 0xf11bfaa8, 0x05757ceb, 0x4172328d, 0x52f1ccf7, 0x6e5c390c, 0xbd714038, 0xfecf0bc6)
  const V52 := Words(0x886e7a22, 0x7a0508a1, 0xf11bfaa8, 0x05757ceb, 0x49231c1e, 0x52f1ccf7, 0x6e5c390c, 0xbd714038)
  const V53 := Words(0x101fd28f, 0x886e7a22, 0x7a0508a1, 0xf11bfaa8, 0x529e7d00, 0x49231c1e, 0x52f1ccf7, 0x6e5c390c)
  const V54 := Words(0xf5702fdb, 0x101fd28f, 0x886e7a22, 0x7a0508a1, 0x9f4787c3, 0x529e7d00, 0x49231c1e, 0x52f1ccf7)
  const V55 := Words(0x3ec45cdb, 0xf5702fdb, 0x101fd28f, 0x886e7a22, 0xe50e1b4f, 0x9f4787c3, 0x529e7d00, 0x49231c1e)
  const V56 := Words(0x38cc9913, 0x3ec45cdb, 0xf5702fdb, 0x101fd28f, 0x54cb266b, 0xe50e1b4f, 0x9f4787c3, 0x529e7d00)
  const V57 := Words(0xfcd1887b, 0x38cc9913, 0x3ec45cdb, 0xf5702fdb, 0x9b5e906c, 0x54cb266b, 0xe50e1b4f, 0x9f4787c3)
  const V58 := Words(0xc062d46f, 0xfcd1887b, 0x38cc9913, 0x3ec45cdb, 0x7e44008e, 0x9b5e906c, 0x54cb266b, 0xe50e1b4f)
  const V59 := Words(0xffb70472, 0xc062d46f, 0xfcd1887b, 0x38cc9913, 0x6d83bfc6, 0x7e44008e, 0x9b5e906c, 0x54cb266b)
  const V60 := Words(0xb6ae8fff, 0xffb70472, 0xc062d46f, 0xfcd1887b, 0xb21bad3d, 0x6d83bfc6, 0x7e44008e, 0x9b5e906c)
  const V61 := Words(0xb85e2ce9, 0xb6ae8fff, 0xffb70472, 0xc062d46f, 0x961f4894, 0xb21bad3d, 0x6d83bfc6, 0x7e44008e)
  const V62 := Words(0x04d24d6c, 0xb85e2ce9, 0xb6ae8fff, 0xffb70472, 0x948d25b6, 0x961f4894, 0xb21bad3d, 0x6d83bfc6)
  const V63 := Words(0xd39a2165, 0x04d24d6c, 0xb85e2ce9, 0xb6ae8fff, 0xfb121210, 0x948d25b6, 0x961f4894, 0xb21bad3d)
  const V64 := Words(0x506e3058, 0xd39a2165, 0x04d24d6c, 0xb85e2ce9, 0x5ef50f24, 0xfb121210, 0x948d25b6, 0x961f4894)

  // ---- The message schedule

  lemma PaddedAbc()
    ensures Pad(ABC) == BLOCK
  {
    hide BigEndian;
    BigEndianOf24();
  }

  lemma BigEndianOf24()
    ensures BigEndian(24, 8) == [0, 0, 0, 0, 0, 0, 0, 24]
  {
    assert BigEndian(0, 1) == [0] && BigEndian(0, 2) == [0, 0] && BigEndian(0, 3) == [0, 0, 0] && BigEndian(0, 4) == [0, 0, 0, 0];
    assert BigEndian(0, 5) == [0, 0, 0, 0, 0] && BigEndian(0, 6) == [0, 0, 0, 0, 0, 0] && BigEndian(0, 7) == [0, 0, 0, 0, 0, 0, 0];
  }

  lemma Schedule0()
    ensures Schedule(BLOCK, 0) == 0x61626380 && Schedule(BLOCK, 1) == 0x00000000 && Schedule(BLOCK, 2) == 0x00000000 && Schedule(BLOCK, 3) == 0x00000000
    ensures Schedule(BLOCK, 4) == 0x00000000 && Schedule(BLOCK, 5) == 0x00000000 && Schedule(BLOCK, 6) == 0x00000000 && Schedule(BLOCK, 7) == 0x00000000
    ensures Schedule(BLOCK, 8) == 0x00000000 && Schedule(BLOCK, 9) == 0x00000000 && Schedule(BLOCK, 10) == 0x00000000 && Schedule(BLOCK, 11) == 0x00000000
    ensures Schedule(BLOCK, 12) == 0x00000000 && Schedule(BLOCK, 13) == 0x00000000 && Schedule(BLOCK, 14) == 0x00000000 && Schedule(BLOCK, 15) == 0x00000018
  {
    ScheduleStart(BLOCK, 0);
    ScheduleStart(BLOCK, 1);
    ScheduleStart(BLOCK, 2);
    ScheduleStart(BLOCK, 3);
    ScheduleStart(BLOCK, 4);
    ScheduleStart(BLOCK, 5);
    ScheduleStart(BLOCK, 6);
    ScheduleStart(BLOCK, 7);
    ScheduleStart(BLOCK, 8);
    ScheduleStart(BLOCK, 9);
    ScheduleStart(BLOCK, 10);
    ScheduleStart(BLOCK, 11);
    ScheduleStart(BLOCK, 12);
    ScheduleStart(BLOCK, 13);
    ScheduleStart(BLOCK, 14);
    ScheduleStart(BLOCK, 15);
  }

  lemma Schedule16()
    ensures Schedule(BLOCK, 0) == 0x61626380 && Schedule(BLOCK, 1) == 0x00000000 && Schedule(BLOCK, 2) == 0x00000000 && Schedule(BLOCK, 3) == 0x00000000
    ensures Schedule(BLOCK, 4) == 0x00000000 && Schedule(BLOCK, 5) == 0x00000000 && Schedule(BLOCK, 6) == 0x00000000 && Schedule(BLOCK, 7) == 0x00000000
    ensures Schedule(BLOCK, 8) == 0x00000000 && Schedule(BLOCK, 9) == 0x00000000 && Schedule(BLOCK, 10) == 0x00000000 && Schedule(BLOCK, 11) == 0x00000000
    ensures Schedule(BLOCK, 12) == 0x00000000 && Schedule(BLOCK, 13) == 0x00000000 && Schedule(BLOCK, 14) == 0x00000000 && Schedule(BLOCK, 15) == 0x00000018
    ensures Schedule(BLOCK, 16) == 0x61626380 && Schedule(BLOCK, 17) == 0x000f0000 && Schedule(BLOCK, 18) == 0x7da86405 && Schedule(BLOCK, 19) == 0x600003c6
    ensures Schedule(BLOCK, 20) == 0x3e9d7b78 && Schedule(BLOCK, 21) == 0x0183fc00 && Schedule(BLOCK, 22) == 0x12dcbfdb && Schedule(BLOCK, 23) == 0xe2e2c38e
  {
    hide Schedule;
    Schedule0();
    ScheduleStep(BLOCK, 16);
    ScheduleStep(BLOCK, 17);
    ScheduleStep(BLOCK, 18);
    ScheduleStep(BLOCK, 19);
    ScheduleStep(BLOCK, 20);
    ScheduleStep(BLOCK, 21);
    ScheduleStep(BLOCK, 22);
    ScheduleStep(BLOCK, 23);
  }

  lemma Schedule24()
    ensures Schedule(BLOCK, 8) == 0x00000000 && Schedule(BLOCK, 9) == 0x00000000 && Schedule(BLOCK, 10) == 0x00000000 && Schedule(BLOCK, 11) == 0x00000000
    ensures Schedule(BLOCK, 12) == 0x00000000 && Schedule(BLOCK, 13) == 0x00000000 && Schedule(BLOCK, 14) == 0x00000000 && Schedule(BLOCK, 15) == 0x00000018
    ensures Schedule(BLOCK, 16) == 0x61626380 && Schedule(BLOCK, 17) == 0x000f0000 && Schedule(BLOCK, 18) == 0x7da86405 && Schedule(BLOCK, 19) == 0x600003c6
    ensures Schedule(BLOCK, 20) == 0x3e9d7b78 && Schedule(BLOCK, 21) == 0x0183fc00 && Schedule(BLOCK, 22) == 0x12dcbfdb && Schedule(BLOCK, 23) == 0xe2e2c38e
    ensures Schedule(BLOCK, 24) == 0xc8215c1a && Schedule(BLOCK, 25) == 0xb73679a2 && Schedule(BLOCK, 26) == 0xe5bc3909 && Schedule(BLOCK, 27) == 0x32663c5b
    ensures Schedule(BLOCK, 28) == 0x9d209d67 && Schedule(BLOCK, 29) == 0xec8726cb && Schedule(BLOCK, 30) == 0x702138a4 && Schedule(BLOCK, 31) == 0xd3b7973b
  {
    hide Schedule;
    Schedule16();
    ScheduleStep(BLOCK, 24);
    ScheduleStep(BLOCK, 25);
    ScheduleStep(BLOCK, 26);
    ScheduleStep(BLOCK, 27);
    ScheduleStep(BLOCK, 28);
    ScheduleStep(BLOCK, 29);
    ScheduleStep(BLOCK, 30);
    ScheduleStep(BLOCK, 31);
  }

  lemma Schedule32()
    ensures Schedule(BLOCK, 16) == 0x61626380 && Schedule(BLOCK, 17) == 0x000f0000 && Schedule(BLOCK, 18) == 0x7da86405 && Schedule(BLOCK, 19) == 0x600003c6
    ensures Schedule(BLOCK, 20) == 0x3e9d7b78 && Schedule(BLOCK, 21) == 0x0183fc00 && Schedule(BLOCK, 22) == 0x12dcbfdb && Schedule(BLOCK, 23) == 0xe2e2c38e
    ensures Schedule(BLOCK, 24) == 0xc8215c1a && Schedule(BLOCK, 25) == 0xb73679a2 && Schedule(BLOCK, 26) == 0xe5bc3909 && Schedule(BLOCK, 27) == 0x32663c5b
    ensures Schedule(BLOCK, 28) == 0x9d209d67 && Schedule(BLOCK, 29) == 0xec8726cb && Schedule(BLOCK, 30) == 0x702138a4 && Schedule(BLOCK, 31) == 0xd3b7973b
    ensures Schedule(BLOCK, 32) == 0x93f5997f && Schedule(BLOCK, 33) == 0x3b68ba73 && Schedule(BLOCK, 34) == 0xaff4ffc1 && Schedule(BLOCK, 35) == 0xf10a5c62
    ensures Schedule(BLOCK, 36) == 0x0a8b3996 && Schedule(BLOCK, 37) == 0x72af830a && Schedule(BLOCK, 38) == 0x9409e33e && Schedule(BLOCK, 39) == 0x24641522
  {
    hide Schedule;
    Schedule24();
    ScheduleStep(BLOCK, 32);
    ScheduleStep(BLOCK, 33);
    ScheduleStep(BLOCK, 34);
    ScheduleStep(BLOCK, 35);
    ScheduleStep(BLOCK, 36);
    ScheduleStep(BLOCK, 37);
    ScheduleStep(BLOCK, 38);
    ScheduleStep(BLOCK, 39);
  }

  lemma Schedule40()
    ensures Schedule(BLOCK, 24) == 0xc8215c1a && Schedule(BLOCK, 25) == 0xb73679a2 && Schedule(BLOCK, 26) == 0xe5bc3909 && Schedule(BLOCK, 27) == 0x32663c5b
    ensures Schedule(BLOCK, 28) == 0x9d209d67 && Schedule(BLOCK, 29) == 0xec8726cb && Schedule(BLOCK, 30) == 0x702138a4 && Schedule(BLOCK, 31) == 0xd3b7973b
    ensures Schedule(BLOCK, 32) == 0x93f5997f && Schedule(BLOCK, 33) == 0x3b68ba73 && Schedule(BLOCK, 34) == 0xaff4ffc1 && Schedule(BLOCK, 35) == 0xf10a5c62
    ensures Schedule(BLOCK, 36) == 0x0a8b3996 && Schedule(BLOCK, 37) == 0x72af830a && Schedule(BLOCK, 38) == 0x9409e33e && Schedule(BLOCK, 39) == 0x24641522
    ensures Schedule(BLOCK, 40) == 0x9f47bf94 && Schedule(BLOCK, 41) == 0xf0a64f5a && Schedule(BLOCK, 42) == 0x3e246a79 && Schedule(BLOCK, 43) == 0x27333ba3
    ensures Schedule(BLOCK, 44) == 0x0c4763f2 && Schedule(BLOCK, 45) == 0x840abf27 && Schedule(BLOCK, 46) == 0x7a290d5d && Schedule(BLOCK, 47) == 0x065c43da
  {
    hide Schedule;
    Schedule32();
    ScheduleStep(BLOCK, 40);
    ScheduleStep(BLOCK, 41);
    ScheduleStep(BLOCK, 42);
    ScheduleStep(BLOCK, 43);
    ScheduleStep(BLOCK, 44);
    ScheduleStep(BLOCK, 45);
    ScheduleStep(BLOCK, 46);
    ScheduleStep(BLOCK, 47);
  }

  lemma Schedule48()
    ensures Schedule(BLOCK, 32) == 0x93f5997f && Schedule(BLOCK, 33) == 0x3b68ba73 && Schedule(BLOCK, 34) == 0xaff4ffc1 && Schedule(BLOCK, 35) == 0xf10a5c62
    ensures Schedule(BLOCK, 36) == 0x0a8b3996 && Schedule(BLOCK, 37) == 0x72af830a && Schedule(BLOCK, 38) == 0x9409e33e && Schedule(BLOCK, 39) == 0x24641522
    ensures Schedule(BLOCK, 40) == 0x9f47bf94 && Schedule(BLOCK, 41) == 0xf0a64f5a && Schedule(BLOCK, 42) == 0x3e246a79 && Schedule(BLOCK, 43) == 0x27333ba3
    ensures Schedule(BLOCK, 44) == 0x0c4763f2 && Schedule(BLOCK, 45) == 0x840abf27 && Schedule(BLOCK, 46) == 0x7a290d5d && Schedule(BLOCK, 47) == 0x065c43da
    ensures Schedule(BLOCK, 48) == 0xfb3e89cb && Schedule(BLOCK, 49) == 0xcc7617db && Schedule(BLOCK, 50) == 0xb9e66c34 && Schedule(BLOCK, 51) == 0xa9993667
    ensures Schedule(BLOCK, 52) == 0x84badedd && Schedule(BLOCK, 53) == 0xc21462bc && Schedule(BLOCK, 54) == 0x1487472c && Schedule(BLOCK, 55) == 0xb20f7a99
  {
    hide Schedule;
    Schedule40();
    ScheduleStep(BLOCK, 48);
    ScheduleStep(BLOCK, 49);
    ScheduleStep(BLOCK, 50);
    ScheduleStep(BLOCK, 51);
    ScheduleStep(BLOCK, 52);
    ScheduleStep(BLOCK, 53);
    ScheduleStep(BLOCK, 54);
    ScheduleStep(BLOCK, 55);
  }

  lemma Schedule56()
    ensures Schedule(BLOCK, 40) == 0x9f47bf94 && Schedule(BLOCK, 41) == 0xf0a64f5a && Schedule(BLOCK, 42) == 0x3e246a79 && Schedule(BLOCK, 43) == 0x27333ba3
    ensures Schedule(BLOCK, 44) == 0x0c4763f2 && Schedule(BLOCK, 45) == 0x840abf27 && Schedule(BLOCK, 46) == 0x7a290d5d && Schedule(BLOCK, 47) == 0x065c43da
    ensures Schedule(BLOCK, 48) == 0xfb3e89cb && Schedule(BLOCK, 49) == 0xcc7617db && Schedule(BLOCK, 50) == 0xb9e66c34 && Schedule(BLOCK, 51) == 0xa9993667
    ensures Schedule(BLOCK, 52) == 0x84badedd && Schedule(BLOCK, 53) == 0xc21462bc && Schedule(BLOCK, 54) == 0x1487472c && Schedule(BLOCK, 55) == 0xb20f7a99
    ensures Schedule(BLOCK, 56) == 0xef57b9cd && Schedule(BLOCK, 57) == 0xebe6b238 && Schedule(BLOCK, 58) == 0x9fe3095e && Schedule(BLOCK, 59) == 0x78bc8d4b
    ensures Schedule(BLOCK, 60) == 0xa43fcf15 && Schedule(BLOCK, 61) == 0x668b2ff8 && Schedule(BLOCK, 62) == 0xeeaba2cc && Schedule(BLOCK, 63) == 0x12b1edeb
  {
    hide Schedule;
    Schedule48();
    ScheduleStep(BLOCK, 56);
    ScheduleStep(BLOCK, 57);
    ScheduleStep(BLOCK, 58);
    ScheduleStep(BLOCK, 59);
    ScheduleStep(BLOCK, 60);
    ScheduleStep(BLOCK, 61);
    ScheduleStep(BLOCK, 62);
    ScheduleStep(BLOCK, 63);
  }

  // ---- The rounds

  lemma Rounds0()
    ensures Round(V0, 0x428a2f98, 0x61626380) == V1
    ensures Round(V1, 0x71374491, 0x00000000) == V2
    ensures Round(V2, 0xb5c0fbcf, 0x00000000) == V3
    ensures Round(V3, 0xe9b5dba5, 0x00000000) == V4
    ensures Round(V4, 0x3956c25b, 0x00000000) == V5
    ensures Round(V5, 0x59f111f1, 0x00000000) == V6
    ensures Round(V6, 0x923f82a4, 0x00000000) == V7
    ensures Round(V7, 0xab1c5ed5, 0x00000000) == V8
  {
  }

  lemma Rounds8()
    ensures Round(V8, 0xd807aa98, 0x00000000) == V9
    ensures Round(V9, 0x12835b01, 0x00000000) == V10
    ensures Round(V10, 0x243185be, 0x00000000) == V11
    ensures Round(V11, 0x550c7dc3, 0x00000000) == V12
    ensures Round(V12, 0x72be5d74, 0x00000000) == V13
    ensures Round(V13, 0x80deb1fe, 0x00000000) == V14
    ensures Round(V14, 0x9bdc06a7, 0x00000000) == V15
    ensures Round(V15, 0xc19bf174, 0x00000018) == V16
  {
  }

  lemma Rounds16()
    ensures Round(V16, 0xe49b69c1, 0x61626380) == V17
    ensures Round(V17, 0xefbe4786, 0x000f0000) == V18
    ensures Round(V18, 0x0fc19dc6, 0x7da86405) == V19
    ensures Round(V19, 0x240ca1cc, 0x600003c6) == V20
    ensures Round(V20, 0x2de92c6f, 0x3e9d7b78) == V21
    ensures Round(V21, 0x4a7484aa, 0x0183fc00) == V22
    ensures Round(V22, 0x5cb0a9dc, 0x12dcbfdb) == V23
    ensures Round(V23, 0x76f988da, 0xe2e2c38e) == V24
  {
  }

  lemma Rounds24()
    ensures Round(V24, 0x983e5152, 0xc8215c1a) == V25
    ensures Round(V25, 0xa831c66d, 0xb73679a2) == V26
    ensures Round(V26, 0xb00327c8, 0xe5bc3909) == V27
    ensures Round(V27, 0xbf597fc7, 0x32663c5b) == V28
    ensures Round(V28, 0xc6e00bf3, 0x9d209d67) == V29
    ensures Round(V29, 0xd5a79147, 0xec8726cb) == V30
    ensures Round(V30, 0x06ca6351, 0x702138a4) == V31
    ensures Round(V31, 0x14292967, 0xd3b7973b) == V32
  {
  }

  lemma Rounds32()
    ensures Round(V32, 0x27b70a85, 0x93f5997f) == V33
    ensures Round(V33, 0x2e1b2138, 0x3b68ba73) == V34
    ensures Round(V34, 0x4d2c6dfc, 0xaff4ffc1) == V35
    ensures Round(V35, 0x53380d13, 0xf10a5c62) == V36
    ensures Round(V36, 0x650a7354, 0x0a8b3996) == V37
    ensures Round(V37, 0x766a0abb, 0x72af830a) == V38
    ensures Round(V38, 0x81c2c92e, 0x9409e33e) == V39
    ensures Round(V39, 0x92722c85, 0x24641522) == V40
  {
  }

  lemma Rounds40()
    ensures Round(V40, 0xa2bfe8a1, 0x9f47bf94) == V41
    ensures Round(V41, 0xa81a664b, 0xf0a64f5a) == V42
    ensures Round(V42, 0xc24b8b70, 0x3e246a79) == V43
    ensures Round(V43, 0xc76c51a3, 0x27333ba3) == V44
    ensures Round(V44, 0xd192e819, 0x0c4763f2) == V45
    ensures Round(V45, 0xd6990624, 0x840abf27) == V46
    ensures Round(V46, 0xf40e3585, 0x7a290d5d) == V47
    ensures Round(V47, 0x106aa070, 0x065c43da) == V48
  {
  }

  lemma Rounds48()
    ensures Round(V48, 0x19a4c116, 0xfb3e89cb) == V49
    ensures Round(V49, 0x1e376c08, 0xcc7617db) == V50
    ensures Round(V50, 0x2748774c, 0xb9e66c34) == V51
    ensures Round(V51, 0x34b0bcb5, 0xa9993667) == V52
    ensures Round(V52, 0x391c0cb3, 0x84badedd) == V53
    ensures Round(V53, 0x4ed8aa4a, 0xc21462bc) == V54
    ensures Round(V54, 0x5b9cca4f, 0x1487472c) == V55
    ensures Round(V55, 0x682e6ff3, 0xb20f7a99) == V56
  {
  }

  lemma Rounds56()
    ensures Round(V56, 0x748f82ee, 0xef57b9cd) == V57
    ensures Round(V57, 0x78a5636f, 0xebe6b238) == V58
    ensures Round(V58, 0x84c87814, 0x9fe3095e) == V59
    ensures Round(V59, 0x8cc70208, 0x78bc8d4b) == V60
    ensures Round(V60, 0x90befffa, 0xa43fcf15) == V61
    ensures Round(V61, 0xa4506ceb, 0x668b2ff8) == V62
    ensures Round(V62, 0xbef9a3f7, 0xeeaba2cc) == V63
    ensures Round(V63, 0xc67178f2, 0x12b1edeb) == V64
  {
  }

  // ---- All rounds, with the constants from their table

  lemma RoundStep(t: nat, v: Words, w: Words, constant: bv32, word: bv32)
    requires t < 64 && Rounds(BLOCK, V0, t) == v
    requires RoundConstant(t) == constant && Schedule(BLOCK, t) == word && Round(v, constant, word) == w
    ensures Rounds(BLOCK, V0, t + 1) == w
  {
    hide Round, Schedule, RoundConstant;
  }

  lemma Constants0()
    ensures RoundConstant(0) == 0x428a2f98 && RoundConstant(1) == 0x71374491 && RoundConstant(2) == 0xb5c0fbcf && RoundConstant(3) == 0xe9b5dba5
    ensures RoundConstant(4) == 0x3956c25b && RoundConstant(5) == 0x59f111f1 && RoundConstant(6) == 0x923f82a4 && RoundConstant(7) == 0xab1c5ed5
  {
  }

  lemma Constants8()
    ensures RoundConstant(8) == 0xd807aa98 && RoundConstant(9) == 0x12835b01 && RoundConstant(10) == 0x243185be && RoundConstant(11) == 0x550c7dc3
    ensures RoundConstant(12) == 0x72be5d74 && RoundConstant(13) == 0x80deb1fe && RoundConstant(14) == 0x9bdc06a7 && RoundConstant(15) == 0xc19bf174
  {
  }

  lemma Constants16()
    ensures RoundConstant(16) == 0xe49b69c1 && RoundConstant(17) == 0xefbe4786 && RoundConstant(18) == 0x0fc19dc6 && RoundConstant(19) == 0x240ca1cc
    ensures RoundConstant(20) == 0x2de92c6f && RoundConstant(21) == 0x4a7484aa && RoundConstant(22) == 0x5cb0a9dc && RoundConstant(23) == 0x76f988da
  {
  }

  lemma Constants24()
    ensures RoundConstant(24) == 0x983e5152 && RoundConstant(25) == 0xa831c66d && RoundConstant(26) == 0xb00327c8 && RoundConstant(27) == 0xbf597fc7
    ensures RoundConstant(28) == 0xc6e00bf3 && RoundConstant(29) == 0xd5a79147 && RoundConstant(30) == 0x06ca6351 && RoundConstant(31) == 0x14292967
  {
  }

  lemma Constants32()
    ensures RoundConstant(32) == 0x27b70a85 && RoundConstant(33) == 0x2e1b2138 && RoundConstant(34) == 0x4d2c6dfc && RoundConstant(35) == 0x53380d13
    ensures RoundConstant(36) == 0x650a7354 && RoundConstant(37) == 0x766a0abb && RoundConstant(38) == 0x81c2c92e && RoundConstant(39) == 0x92722c85
  {
  }

  lemma Constants40()
    ensures RoundConstant(40) == 0xa2bfe8a1 && RoundConstant(41) == 0xa81a664b && RoundConstant(42) == 0xc24b8b70 && RoundConstant(43) == 0xc76c51a3
    ensures RoundConstant(44) == 0xd192e819 && RoundConstant(45) == 0xd6990624 && RoundConstant(46) == 0xf40e3585 && RoundConstant(47) == 0x106aa070
  {
  }

  lemma Constants48()
    ensures RoundConstant(48) == 0x19a4c116 && RoundConstant(49) == 0x1e376c08 && RoundConstant(50) == 0x2748774c && RoundConstant(51) == 0x34b0bcb5
    ensures RoundConstant(52) == 0x391c0cb3 && RoundConstant(53) == 0x4ed8aa4a && RoundConstant(54) == 0x5b9cca4f && RoundConstant(55) == 0x682e6ff3
  {
  }

  lemma Constants56()
    ensures RoundConstant(56) == 0x748f82ee && RoundConstant(57) == 0x78a5636f && RoundConstant(58) == 0x84c87814 && RoundConstant(59) == 0x8cc70208
    ensures RoundConstant(60) == 0x90befffa && RoundConstant(61) == 0xa4506ceb && RoundConstant(62) == 0xbef9a3f7 && RoundConstant(63) == 0xc67178f2
  {
  }

  lemma Through8()
    ensures Rounds(BLOCK, V0, 8) == V8
  {
    hide Rounds, Round, Schedule, RoundConstant;
    NoRounds();
    Schedule0();
    Constants0();
    Rounds0();
    RoundStep(0, V0, V1, 0x428a2f98, 0x61626380);
    RoundStep(1, V1, V2, 0x71374491, 0x00000000);
    RoundStep(2, V2, V3, 0xb5c0fbcf, 0x00000000);
    RoundStep(3, V3, V4, 0xe9b5dba5, 0x00000000);
    RoundStep(4, V4, V5, 0x3956c25b, 0x00000000);
    RoundStep(5, V5, V6, 0x59f111f1, 0x00000000);
    RoundStep(6, V6, V7, 0x923f82a4, 0x00000000);
    RoundStep(7, V7, V8, 0xab1c5ed5, 0x00000000);
  }

  lemma Through16()
    ensures Rounds(BLOCK, V0, 16) == V16
  {
    hide Rounds, Round, Schedule, RoundConstant;
    Through8();
    Schedule0();
    Constants8();
    Rounds8();
    RoundStep(8, V8, V9, 0xd807aa98, 0x00000000);
    RoundStep(9, V9, V10, 0x12835b01, 0x00000000);
    RoundStep(10, V10, V11, 0x243185be, 0x00000000);
    RoundStep(11, V11, V12, 0x550c7dc3, 0x00000000);
    RoundStep(12, V12, V13, 0x72be5d74, 0x00000000);
    RoundStep(13, V13, V14, 0x80deb1fe, 0x00000000);
    RoundStep(14, V14, V15, 0x9bdc06a7, 0x00000000);
    RoundStep(15, V15, V16, 0xc19bf174, 0x00000018);
  }

  lemma Through24()
    ensures Rounds(BLOCK, V0, 24) == V24
  {
    hide Rounds, Round, Schedule, RoundConstant;
    Through16();
    Schedule16();
    Constants16();
    Rounds16();
    RoundStep(16, V16, V17, 0xe49b69c1, 0x61626380);
    RoundStep(17, V17, V18, 0xefbe4786, 0x000f0000);
    RoundStep(18, V18, V19, 0x0fc19dc6, 0x7da86405);
    RoundStep(19, V19, V20, 0x240ca1cc, 0x600003c6);
    RoundStep(20, V20, V21, 0x2de92c6f, 0x3e9d7b78);
    RoundStep(21, V21, V22, 0x4a7484aa, 0x0183fc00);
    RoundStep(22, V22, V23, 0x5cb0a9dc, 0x12dcbfdb);
    RoundStep(23, V23, V24, 0x76f988da, 0xe2e2c38e);
  }

  lemma Through32()
    ensures Rounds(BLOCK, V0, 32) == V32
  {
    hide Rounds, Round, Schedule, RoundConstant;
    Through24();
    Schedule24();
    Constants24();
    Rounds24();
    RoundStep(24, V24, V25, 0x983e5152, 0xc8215c1a);
    RoundStep(25, V25, V26, 0xa831c66d, 0xb73679a2);
    RoundStep(26, V26, V27, 0xb00327c8, 0xe5bc3909);
    RoundStep(27, V27, V28, 0xbf597fc7, 0x32663c5b);
    RoundStep(28, V28, V29, 0xc6e00bf3, 0x9d209d67);
    RoundStep(29, V29, V30, 0xd5a79147, 0xec8726cb);
    RoundStep(30, V30, V31, 0x06ca6351, 0x702138a4);
    RoundStep(31, V31, V32, 0x14292967, 0xd3b7973b);
  }

  lemma Through40()
    ensures Rounds(BLOCK, V0, 40) == V40
  {
    hide Rounds, Round, Schedule, RoundConstant;
    Through32();
    Schedule32();
    Constants32();
    Rounds32();
    RoundStep(32, V32, V33, 0x27b70a85, 0x93f5997f);
    RoundStep(33, V33, V34, 0x2e1b2138, 0x3b68ba73);
    RoundStep(34, V34, V35, 0x4d2c6dfc, 0xaff4ffc1);
    RoundStep(35, V35, V36, 0x53380d13, 0xf10a5c62);
    RoundStep(36, V36, V37, 0x650a7354, 0x0a8b3996);
    RoundStep(37, V37, V38, 0x766a0abb, 0x72af830a);
    RoundStep(38, V38, V39, 0x81c2c92e, 0x9409e33e);
    RoundStep(39, V39, V40, 0x92722c85, 0x24641522);
  }

  lemma Through48()
    ensures Rounds(BLOCK, V0, 48) == V48
  {
    hide Rounds, Round, Schedule, RoundConstant;
    Through40();
    Schedule40();
    Constants40();
    Rounds40();
    RoundStep(40, V40, V41, 0xa2bfe8a1, 0x9f47bf94);
    RoundStep(41, V41, V42, 0xa81a664b, 0xf0a64f5a);
    RoundStep(42, V42, V43, 0xc24b8b70, 0x3e246a79);
    RoundStep(43, V43, V44, 0xc76c51a3, 0x27333ba3);
    RoundStep(44, V44, V45, 0xd192e819, 0x0c4763f2);
    RoundStep(45, V45, V46, 0xd6990624, 0x840abf27);
    RoundStep(46, V46, V47, 0xf40e3585, 0x7a290d5d);
    RoundStep(47, V47, V48, 0x106aa070, 0x065c43da);
  }

  lemma Through56()
    ensures Rounds(BLOCK, V0, 56) == V56
  {
    hide Rounds, Round, Schedule, RoundConstant;
    Through48();
    Schedule48();
    Constants48();
    Rounds48();
    RoundStep(48, V48, V49, 0x19a4c116, 0xfb3e89cb);
    RoundStep(49, V49, V50, 0x1e376c08, 0xcc7617db);
    RoundStep(50, V50, V51, 0x2748774c, 0xb9e66c34);
    RoundStep(51, V51, V52, 0x34b0bcb5, 0xa9993667);
    RoundStep(52, V52, V53, 0x391c0cb3, 0x84badedd);
    RoundStep(53, V53, V54, 0x4ed8aa4a, 0xc21462bc);
    RoundStep(54, V54, V55, 0x5b9cca4f, 0x1487472c);
    RoundStep(55, V55, V56, 0x682e6ff3, 0xb20f7a99);
  }

  lemma Through64()
    ensures Rounds(BLOCK, V0, 64) == V64
  {
    hide Rounds, Round, Schedule, RoundConstant;
    Through56();
    Schedule56();
    Constants56();
    Rounds56();
    RoundStep(56, V56, V57, 0x748f82ee, 0xef57b9cd);
    RoundStep(57, V57, V58, 0x78a5636f, 0xebe6b238);
    RoundStep(58, V58, V59, 0x84c87814, 0x9fe3095e);
    RoundStep(59, V59, V60, 0x8cc70208, 0x78bc8d4b);
    RoundStep(60, V60, V61, 0x90befffa, 0xa43fcf15);
    RoundStep(61, V61, V62, 0xa4506ceb, 0x668b2ff8);
    RoundStep(62, V62, V63, 0xbef9a3f7, 0xeeaba2cc);
    RoundStep(63, V63, V64, 0xc67178f2, 0x12b1edeb);
  }

  lemma NoRounds()
    ensures Rounds(BLOCK, V0, 0) == V0 && V0 == INITIAL
  {
  }

  lemma DigestOf(v: Words)
    requires v == V64
    ensures Digest(AddWords(V0, v)) == ABC_HASH
  {
  }

  /** The 32 bytes that FIPS 180-4 has for "abc". */
  const ABC_HASH: seq<Byte> := [
    0xba, 0x78, 0x16, 0xbf, 0x8f, 0x01, 0xcf, 0xea, 0x41, 0x41, 0x40, 0xde, 0x5d, 0xae, 0x22, 0x23,
    0xb0, 0x03, 0x61, 0xa3, 0x96, 0x17, 0x7a, 0x9c, 0xb4, 0x10, 0xff, 0x61, 0xf2, 0x00, 0x15, 0xad
  ]

  lemma HashOfAbc()
    ensures Hash([0x61, 0x62, 0x63]) == ABC_HASH
  {
    hide Rounds, Digest, AddWords, Pad, HashBlocks;
    PaddedAbc();
    Through64();
    NoRounds();
    CompressIs(INITIAL, BLOCK);
    NoBlocks();
    OneMoreBlock([], BLOCK);
    assert [] + BLOCK == BLOCK;
    DigestOf(V64);
  }
}

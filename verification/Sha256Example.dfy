/**
 The one-block example of FIPS 180-4, the digest of "abc", worked through the padding, the message
 schedule, the 64 rounds, the final addition and the byte order.
 */
module Sha256Example {
  import opened Common
  import opened Sha256Spec
  import Sha256Facts

  const ABC: seq<Byte> := [97, 98, 99]

  function Block(): (block: seq<Byte>)
    ensures |block| == 64
  {
    ABC + [0x80] + Zeros(52) + [0, 0, 0, 0, 0, 0, 0, 24]
  }

  lemma LengthBytes()
    ensures BigEndian(24, 8) == [0, 0, 0, 0, 0, 0, 0, 24]
  {
    assert BigEndian(0, 6) == [0, 0, 0, 0, 0, 0];
  }

  lemma Padded()
    ensures Pad(ABC) == Block()
  {
    LengthBytes();
  }

  lemma Packs()
    ensures Pack(97, 98, 99, 0x80) == 0x61626380 && Pack(0, 0, 0, 0) == 0 && Pack(0, 0, 0, 24) == 0x18
  {
  }

  // ---------- Schedule ----------

  function Words(): (w: seq<bv32>)
    ensures |w| == 64
  {
    Schedule(Block(), 64)
  }

  lemma BlockAt(i: nat)
    requires i < 64
    ensures Block()[i] == if i < 3 then 97 + i else if i == 3 then 0x80 else if i == 63 then 24 else 0
  {
  }

  lemma BlockWords(t: nat)
    requires t < 16
    ensures Words()[t] == if t == 0 then 0x61626380 else if t == 15 then 0x18 else 0
  {
    hide Mix, Pack, Block, Schedule;
    ScheduleWord(Block(), 64, t);
    BlockAt(4 * t);
    BlockAt(4 * t + 1);
    BlockAt(4 * t + 2);
    BlockAt(4 * t + 3);
    Packs();
  }

  lemma Words0()
    ensures
      && Words()[0] == 0x61626380 && Words()[1] == 0x00000000 && Words()[2] == 0x00000000
      && Words()[3] == 0x00000000 && Words()[4] == 0x00000000 && Words()[5] == 0x00000000
      && Words()[6] == 0x00000000 && Words()[7] == 0x00000000
  {
    hide Words;
    BlockWords(0); BlockWords(1); BlockWords(2); BlockWords(3);
    BlockWords(4); BlockWords(5); BlockWords(6); BlockWords(7);
  }

  lemma Words1()
    ensures
      && Words()[8] == 0x00000000 && Words()[9] == 0x00000000 && Words()[10] == 0x00000000
      && Words()[11] == 0x00000000 && Words()[12] == 0x00000000 && Words()[13] == 0x00000000
      && Words()[14] == 0x00000000 && Words()[15] == 0x00000018
  {
    hide Words;
    BlockWords(8); BlockWords(9); BlockWords(10); BlockWords(11);
    BlockWords(12); BlockWords(13); BlockWords(14); BlockWords(15);
  }

  lemma Recurrence(t: nat)
    requires 16 <= t < 64
    ensures Words()[t] == Mix(Words()[t - 16], Words()[t - 15], Words()[t - 7], Words()[t - 2])
  {
    hide Mix;
    ScheduleWord(Block(), 64, t);
  }

  lemma Mixes2()
    ensures
      && Mix(0x61626380, 0x00000000, 0x00000000, 0x00000000) == 0x61626380
      && Mix(0x00000000, 0x00000000, 0x00000000, 0x00000018) == 0x000f0000
      && Mix(0x00000000, 0x00000000, 0x00000000, 0x61626380) == 0x7da86405
      && Mix(0x00000000, 0x00000000, 0x00000000, 0x000f0000) == 0x600003c6
      && Mix(0x00000000, 0x00000000, 0x00000000, 0x7da86405) == 0x3e9d7b78
      && Mix(0x00000000, 0x00000000, 0x00000000, 0x600003c6) == 0x0183fc00
      && Mix(0x00000000, 0x00000000, 0x00000018, 0x3e9d7b78) == 0x12dcbfdb
      && Mix(0x00000000, 0x00000000, 0x61626380, 0x0183fc00) == 0xe2e2c38e
  {
  }

  lemma Words2()
    ensures
      && Words()[16] == 0x61626380 && Words()[17] == 0x000f0000 && Words()[18] == 0x7da86405
      && Words()[19] == 0x600003c6 && Words()[20] == 0x3e9d7b78 && Words()[21] == 0x0183fc00
      && Words()[22] == 0x12dcbfdb && Words()[23] == 0xe2e2c38e
  {
    hide Words, Mix, Schedule;
    Words0();
    Words1();
    Mixes2();
    Recurrence(16); Recurrence(17); Recurrence(18); Recurrence(19);
    Recurrence(20); Recurrence(21); Recurrence(22); Recurrence(23);
  }

  lemma Mixes3()
    ensures
      && Mix(0x00000000, 0x00000000, 0x000f0000, 0x12dcbfdb) == 0xc8215c1a
      && Mix(0x00000000, 0x00000000, 0x7da86405, 0xe2e2c38e) == 0xb73679a2
      && Mix(0x00000000, 0x00000000, 0x600003c6, 0xc8215c1a) == 0xe5bc3909
      && Mix(0x00000000, 0x00000000, 0x3e9d7b78, 0xb73679a2) == 0x32663c5b
      && Mix(0x00000000, 0x00000000, 0x0183fc00, 0xe5bc3909) == 0x9d209d67
      && Mix(0x00000000, 0x00000000, 0x12dcbfdb, 0x32663c5b) == 0xec8726cb
      && Mix(0x00000000, 0x00000018, 0xe2e2c38e, 0x9d209d67) == 0x702138a4
      && Mix(0x00000018, 0x61626380, 0xc8215c1a, 0xec8726cb) == 0xd3b7973b
  {
  }

  lemma Words3()
    ensures
      && Words()[24] == 0xc8215c1a && Words()[25] == 0xb73679a2 && Words()[26] == 0xe5bc3909
      && Words()[27] == 0x32663c5b && Words()[28] == 0x9d209d67 && Words()[29] == 0xec8726cb
      && Words()[30] == 0x702138a4 && Words()[31] == 0xd3b7973b
  {
    hide Words, Mix, Schedule;
    Words1();
    Words2();
    Mixes3();
    Recurrence(24); Recurrence(25); Recurrence(26); Recurrence(27);
    Recurrence(28); Recurrence(29); Recurrence(30); Recurrence(31);
  }

  lemma Mixes4()
    ensures
      && Mix(0x61626380, 0x000f0000, 0xb73679a2, 0x702138a4) == 0x93f5997f
      && Mix(0x000f0000, 0x7da86405, 0xe5bc3909, 0xd3b7973b) == 0x3b68ba73
      && Mix(0x7da86405, 0x600003c6, 0x32663c5b, 0x93f5997f) == 0xaff4ffc1
      && Mix(0x600003c6, 0x3e9d7b78, 0x9d209d67, 0x3b68ba73) == 0xf10a5c62
      && Mix(0x3e9d7b78, 0x0183fc00, 0xec8726cb, 0xaff4ffc1) == 0x0a8b3996
      && Mix(0x0183fc00, 0x12dcbfdb, 0x702138a4, 0xf10a5c62) == 0x72af830a
      && Mix(0x12dcbfdb, 0xe2e2c38e, 0xd3b7973b, 0x0a8b3996) == 0x9409e33e
      && Mix(0xe2e2c38e, 0xc8215c1a, 0x93f5997f, 0x72af830a) == 0x24641522
  {
  }

  lemma Words4()
    ensures
      && Words()[32] == 0x93f5997f && Words()[33] == 0x3b68ba73 && Words()[34] == 0xaff4ffc1
      && Words()[35] == 0xf10a5c62 && Words()[36] == 0x0a8b3996 && Words()[37] == 0x72af830a
      && Words()[38] == 0x9409e33e && Words()[39] == 0x24641522
  {
    hide Words, Mix, Schedule;
    Words2();
    Words3();
    Mixes4();
    Recurrence(32); Recurrence(33); Recurrence(34); Recurrence(35);
    Recurrence(36); Recurrence(37); Recurrence(38); Recurrence(39);
  }

  lemma Mixes5()
    ensures
      && Mix(0xc8215c1a, 0xb73679a2, 0x3b68ba73, 0x9409e33e) == 0x9f47bf94
      && Mix(0xb73679a2, 0xe5bc3909, 0xaff4ffc1, 0x24641522) == 0xf0a64f5a
      && Mix(0xe5bc3909, 0x32663c5b, 0xf10a5c62, 0x9f47bf94) == 0x3e246a79
      && Mix(0x32663c5b, 0x9d209d67, 0x0a8b3996, 0xf0a64f5a) == 0x27333ba3
      && Mix(0x9d209d67, 0xec8726cb, 0x72af830a, 0x3e246a79) == 0x0c4763f2
      && Mix(0xec8726cb, 0x702138a4, 0x9409e33e, 0x27333ba3) == 0x840abf27
      && Mix(0x702138a4, 0xd3b7973b, 0x24641522, 0x0c4763f2) == 0x7a290d5d
      && Mix(0xd3b7973b, 0x93f5997f, 0x9f47bf94, 0x840abf27) == 0x065c43da
  {
  }

  lemma Words5()
    ensures
      && Words()[40] == 0x9f47bf94 && Words()[41] == 0xf0a64f5a && Words()[42] == 0x3e246a79
      && Words()[43] == 0x27333ba3 && Words()[44] == 0x0c4763f2 && Words()[45] == 0x840abf27
      && Words()[46] == 0x7a290d5d && Words()[47] == 0x065c43da
  {
    hide Words, Mix, Schedule;
    Words3();
    Words4();
    Mixes5();
    Recurrence(40); Recurrence(41); Recurrence(42); Recurrence(43);
    Recurrence(44); Recurrence(45); Recurrence(46); Recurrence(47);
  }

  lemma Mixes6()
    ensures
      && Mix(0x93f5997f, 0x3b68ba73, 0xf0a64f5a, 0x7a290d5d) == 0xfb3e89cb
      && Mix(0x3b68ba73, 0xaff4ffc1, 0x3e246a79, 0x065c43da) == 0xcc7617db
      && Mix(0xaff4ffc1, 0xf10a5c62, 0x27333ba3, 0xfb3e89cb) == 0xb9e66c34
      && Mix(0xf10a5c62, 0x0a8b3996, 0x0c4763f2, 0xcc7617db) == 0xa9993667
      && Mix(0x0a8b3996, 0x72af830a, 0x840abf27, 0xb9e66c34) == 0x84badedd
      && Mix(0x72af830a, 0x9409e33e, 0x7a290d5d, 0xa9993667) == 0xc21462bc
      && Mix(0x9409e33e, 0x24641522, 0x065c43da, 0x84badedd) == 0x1487472c
      && Mix(0x24641522, 0x9f47bf94, 0xfb3e89cb, 0xc21462bc) == 0xb20f7a99
  {
  }

  lemma Words6()
    ensures
      && Words()[48] == 0xfb3e89cb && Words()[49] == 0xcc7617db && Words()[50] == 0xb9e66c34
      && Words()[51] == 0xa9993667 && Words()[52] == 0x84badedd && Words()[53] == 0xc21462bc
      && Words()[54] == 0x1487472c && Words()[55] == 0xb20f7a99
  {
    hide Words, Mix, Schedule;
    Words4();
    Words5();
    Mixes6();
    Recurrence(48); Recurrence(49); Recurrence(50); Recurrence(51);
    Recurrence(52); Recurrence(53); Recurrence(54); Recurrence(55);
  }

  lemma Mixes7()
    ensures
      && Mix(0x9f47bf94, 0xf0a64f5a, 0xcc7617db, 0x1487472c) == 0xef57b9cd
      && Mix(0xf0a64f5a, 0x3e246a79, 0xb9e66c34, 0xb20f7a99) == 0xebe6b238
      && Mix(0x3e246a79, 0x27333ba3, 0xa9993667, 0xef57b9cd) == 0x9fe3095e
      && Mix(0x27333ba3, 0x0c4763f2, 0x84badedd, 0xebe6b238) == 0x78bc8d4b
      && Mix(0x0c4763f2, 0x840abf27, 0xc21462bc, 0x9fe3095e) == 0xa43fcf15
      && Mix(0x840abf27, 0x7a290d5d, 0x1487472c, 0x78bc8d4b) == 0x668b2ff8
      && Mix(0x7a290d5d, 0x065c43da, 0xb20f7a99, 0xa43fcf15) == 0xeeaba2cc
      && Mix(0x065c43da, 0xfb3e89cb, 0xef57b9cd, 0x668b2ff8) == 0x12b1edeb
  {
  }

  lemma Words7()
    ensures
      && Words()[56] == 0xef57b9cd && Words()[57] == 0xebe6b238 && Words()[58] == 0x9fe3095e
      && Words()[59] == 0x78bc8d4b && Words()[60] == 0xa43fcf15 && Words()[61] == 0x668b2ff8
      && Words()[62] == 0xeeaba2cc && Words()[63] == 0x12b1edeb
  {
    hide Words, Mix, Schedule;
    Words5();
    Words6();
    Mixes7();
    Recurrence(56); Recurrence(57); Recurrence(58); Recurrence(59);
    Recurrence(60); Recurrence(61); Recurrence(62); Recurrence(63);
  }

  // ---------- Rounds ----------

  function After(t: nat): Vars
    requires t <= 64
  {
    Rounds(VarsOf(INITIAL), Words(), t)
  }

  lemma Steps0()
    ensures
      && Round(Vars(0x6a09e667, 0xbb67ae85, 0x3c6ef372, 0xa54ff53a, 0x510e527f, 0x9b05688c, 0x1f83d9ab, 0x5be0cd19),
               0x428a2f98, 0x61626380)
         == Vars(0x5d6aebcd, 0x6a09e667, 0xbb67ae85, 0x3c6ef372, 0xfa2a4622, 0x510e527f, 0x9b05688c, 0x1f83d9ab)
      && Round(Vars(0x5d6aebcd, 0x6a09e667, 0xbb67ae85, 0x3c6ef372, 0xfa2a4622, 0x510e527f, 0x9b05688c, 0x1f83d9ab),
               0x71374491, 0x00000000)
         == Vars(0x5a6ad9ad, 0x5d6aebcd, 0x6a09e667, 0xbb67ae85, 0x78ce7989, 0xfa2a4622, 0x510e527f, 0x9b05688c)
      && Round(Vars(0x5a6ad9ad, 0x5d6aebcd, 0x6a09e667, 0xbb67ae85, 0x78ce7989, 0xfa2a4622, 0x510e527f, 0x9b05688c),
               0xb5c0fbcf, 0x00000000)
         == Vars(0xc8c347a7, 0x5a6ad9ad, 0x5d6aebcd, 0x6a09e667, 0xf92939eb, 0x78ce7989, 0xfa2a4622, 0x510e527f)
      && Round(Vars(0xc8c347a7, 0x5a6ad9ad, 0x5d6aebcd, 0x6a09e667, 0xf92939eb, 0x78ce7989, 0xfa2a4622, 0x510e527f),
               0xe9b5dba5, 0x00000000)
         == Vars(0xd550f666, 0xc8c347a7, 0x5a6ad9ad, 0x5d6aebcd, 0x24e00850, 0xf92939eb, 0x78ce7989, 0xfa2a4622)
      && Round(Vars(0xd550f666, 0xc8c347a7, 0x5a6ad9ad, 0x5d6aebcd, 0x24e00850, 0xf92939eb, 0x78ce7989, 0xfa2a4622),
               0x3956c25b, 0x00000000)
         == Vars(0x04409a6a, 0xd550f666, 0xc8c347a7, 0x5a6ad9ad, 0x43ada245, 0x24e00850, 0xf92939eb, 0x78ce7989)
      && Round(Vars(0x04409a6a, 0xd550f666, 0xc8c347a7, 0x5a6ad9ad, 0x43ada245, 0x24e00850, 0xf92939eb, 0x78ce7989),
               0x59f111f1, 0x00000000)
         == Vars(0x2b4209f5, 0x04409a6a, 0xd550f666, 0xc8c347a7, 0x714260ad, 0x43ada245, 0x24e00850, 0xf92939eb)
      && Round(Vars(0x2b4209f5, 0x04409a6a, 0xd550f666, 0xc8c347a7, 0x714260ad, 0x43ada245, 0x24e00850, 0xf92939eb),
               0x923f82a4, 0x00000000)
         == Vars(0xe5030380, 0x2b4209f5, 0x04409a6a, 0xd550f666, 0x9b27a401, 0x714260ad, 0x43ada245, 0x24e00850)
      && Round(Vars(0xe5030380, 0x2b4209f5, 0x04409a6a, 0xd550f666, 0x9b27a401, 0x714260ad, 0x43ada245, 0x24e00850),
               0xab1c5ed5, 0x00000000)
         == Vars(0x85a07b5f, 0xe5030380, 0x2b4209f5, 0x04409a6a, 0x0c657a79, 0x9b27a401, 0x714260ad, 0x43ada245)
  {
  }

  lemma Rounds0()
    ensures After(8) ==
            Vars(0x85a07b5f, 0xe5030380, 0x2b4209f5, 0x04409a6a, 0x0c657a79, 0x9b27a401, 0x714260ad, 0x43ada245)
  {
    hide Round, Words, K;
    assert After(0) == VarsOf(INITIAL);
    Words0();
    Sha256Facts.Constants0();
    Steps0();
  }

  lemma Steps1()
    ensures
      && Round(Vars(0x85a07b5f, 0xe5030380, 0x2b4209f5, 0x04409a6a, 0x0c657a79, 0x9b27a401, 0x714260ad, 0x43ada245),
               0xd807aa98, 0x00000000)
         == Vars(0x8e04ecb9, 0x85a07b5f, 0xe5030380, 0x2b4209f5, 0x32ca2d8c, 0x0c657a79, 0x9b27a401, 0x714260ad)
      && Round(Vars(0x8e04ecb9, 0x85a07b5f, 0xe5030380, 0x2b4209f5, 0x32ca2d8c, 0x0c657a79, 0x9b27a401, 0x714260ad),
               0x12835b01, 0x00000000)
         == Vars(0x8c87346b, 0x8e04ecb9, 0x85a07b5f, 0xe5030380, 0x1cc92596, 0x32ca2d8c, 0x0c657a79, 0x9b27a401)
      && Round(Vars(0x8c87346b, 0x8e04ecb9, 0x85a07b5f, 0xe5030380, 0x1cc92596, 0x32ca2d8c, 0x0c657a79, 0x9b27a401),
               0x243185be, 0x00000000)
         == Vars(0x4798a3f4, 0x8c87346b, 0x8e04ecb9, 0x85a07b5f, 0x436b23e8, 0x1cc92596, 0x32ca2d8c, 0x0c657a79)
      && Round(Vars(0x4798a3f4, 0x8c87346b, 0x8e04ecb9, 0x85a07b5f, 0x436b23e8, 0x1cc92596, 0x32ca2d8c, 0x0c657a79),
               0x550c7dc3, 0x00000000)
         == Vars(0xf71fc5a9, 0x4798a3f4, 0x8c87346b, 0x8e04ecb9, 0x816fd6e9, 0x436b23e8, 0x1cc92596, 0x32ca2d8c)
      && Round(Vars(0xf71fc5a9, 0x4798a3f4, 0x8c87346b, 0x8e04ecb9, 0x816fd6e9, 0x436b23e8, 0x1cc92596, 0x32ca2d8c),
               0x72be5d74, 0x00000000)
         == Vars(0x87912990, 0xf71fc5a9, 0x4798a3f4, 0x8c87346b, 0x1e578218, 0x816fd6e9, 0x436b23e8, 0x1cc92596)
      && Round(Vars(0x87912990, 0xf71fc5a9, 0x4798a3f4, 0x8c87346b, 0x1e578218, 0x816fd6e9, 0x436b23e8, 0x1cc92596),
               0x80deb1fe, 0x00000000)
         == Vars(0xd932eb16, 0x87912990, 0xf71fc5a9, 0x4798a3f4, 0x745a48de, 0x1e578218, 0x816fd6e9, 0x436b23e8)
      && Round(Vars(0xd932eb16, 0x87912990, 0xf71fc5a9, 0x4798a3f4, 0x745a48de, 0x1e578218, 0x816fd6e9, 0x436b23e8),
               0x9bdc06a7, 0x00000000)
         == Vars(0xc0645fde, 0xd932eb16, 0x87912990, 0xf71fc5a9, 0x0b92f20c, 0x745a48de, 0x1e578218, 0x816fd6e9)
      && Round(Vars(0xc0645fde, 0xd932eb16, 0x87912990, 0xf71fc5a9, 0x0b92f20c, 0x745a48de, 0x1e578218, 0x816fd6e9),
               0xc19bf174, 0x00000018)
         == Vars(0xb0fa238e, 0xc0645fde, 0xd932eb16, 0x87912990, 0x07590dcd, 0x0b92f20c, 0x745a48de, 0x1e578218)
  {
  }

  lemma Rounds1()
    ensures After(16) ==
            Vars(0xb0fa238e, 0xc0645fde, 0xd932eb16, 0x87912990, 0x07590dcd, 0x0b92f20c, 0x745a48de, 0x1e578218)
  {
    hide Round, Words, K;
    Rounds0();
    Words1();
    Sha256Facts.Constants1();
    Steps1();
  }

  lemma Steps2()
    ensures
      && Round(Vars(0xb0fa238e, 0xc0645fde, 0xd932eb16, 0x87912990, 0x07590dcd, 0x0b92f20c, 0x745a48de, 0x1e578218),
               0xe49b69c1, 0x61626380)
         == Vars(0x21da9a9b, 0xb0fa238e, 0xc0645fde, 0xd932eb16, 0x8034229c, 0x07590dcd, 0x0b92f20c, 0x745a48de)
      && Round(Vars(0x21da9a9b, 0xb0fa238e, 0xc0645fde, 0xd932eb16, 0x8034229c, 0x07590dcd, 0x0b92f20c, 0x745a48de),
               0xefbe4786, 0x000f0000)
         == Vars(0xc2fbd9d1, 0x21da9a9b, 0xb0fa238e, 0xc0645fde, 0x846ee454, 0x8034229c, 0x07590dcd, 0x0b92f20c)
      && Round(Vars(0xc2fbd9d1, 0x21da9a9b, 0xb0fa238e, 0xc0645fde, 0x846ee454, 0x8034229c, 0x07590dcd, 0x0b92f20c),
               0x0fc19dc6, 0x7da86405)
         == Vars(0xfe777bbf, 0xc2fbd9d1, 0x21da9a9b, 0xb0fa238e, 0xcc899961, 0x846ee454, 0x8034229c, 0x07590dcd)
      && Round(Vars(0xfe777bbf, 0xc2fbd9d1, 0x21da9a9b, 0xb0fa238e, 0xcc899961, 0x846ee454, 0x8034229c, 0x07590dcd),
               0x240ca1cc, 0x600003c6)
         == Vars(0xe1f20c33, 0xfe777bbf, 0xc2fbd9d1, 0x21da9a9b, 0xb0638179, 0xcc899961, 0x846ee454, 0x8034229c)
      && Round(Vars(0xe1f20c33, 0xfe777bbf, 0xc2fbd9d1, 0x21da9a9b, 0xb0638179, 0xcc899961, 0x846ee454, 0x8034229c),
               0x2de92c6f, 0x3e9d7b78)
         == Vars(0x9dc68b63, 0xe1f20c33, 0xfe777bbf, 0xc2fbd9d1, 0x8ada8930, 0xb0638179, 0xcc899961, 0x846ee454)
      && Round(Vars(0x9dc68b63, 0xe1f20c33, 0xfe777bbf, 0xc2fbd9d1, 0x8ada8930, 0xb0638179, 0xcc899961, 0x846ee454),
               0x4a7484aa, 0x0183fc00)
         == Vars(0xc2606d6d, 0x9dc68b63, 0xe1f20c33, 0xfe777bbf, 0xe1257970, 0x8ada8930, 0xb0638179, 0xcc899961)
      && Round(Vars(0xc2606d6d, 0x9dc68b63, 0xe1f20c33, 0xfe777bbf, 0xe1257970, 0x8ada8930, 0xb0638179, 0xcc899961),
               0x5cb0a9dc, 0x12dcbfdb)
         == Vars(0xa7a3623f, 0xc2606d6d, 0x9dc68b63, 0xe1f20c33, 0x49f5114a, 0xe1257970, 0x8ada8930, 0xb0638179)
      && Round(Vars(0xa7a3623f, 0xc2606d6d, 0x9dc68b63, 0xe1f20c33, 0x49f5114a, 0xe1257970, 0x8ada8930, 0xb0638179),
               0x76f988da, 0xe2e2c38e)
         == Vars(0xc5d53d8d, 0xa7a3623f, 0xc2606d6d, 0x9dc68b63, 0xaa47c347, 0x49f5114a, 0xe1257970, 0x8ada8930)
  {
  }

  lemma Rounds2()
    ensures After(24) ==
            Vars(0xc5d53d8d, 0xa7a3623f, 0xc2606d6d, 0x9dc68b63, 0xaa47c347, 0x49f5114a, 0xe1257970, 0x8ada8930)
  {
    hide Round, Words, K;
    Rounds1();
    Words2();
    Sha256Facts.Constants2();
    Steps2();
  }

  lemma Steps3()
    ensures
      && Round(Vars(0xc5d53d8d, 0xa7a3623f, 0xc2606d6d, 0x9dc68b63, 0xaa47c347, 0x49f5114a, 0xe1257970, 0x8ada8930),
               0x983e5152, 0xc8215c1a)
         == Vars(0x1c2c2838, 0xc5d53d8d, 0xa7a3623f, 0xc2606d6d, 0x2823ef91, 0xaa47c347, 0x49f5114a, 0xe1257970)
      && Round(Vars(0x1c2c2838, 0xc5d53d8d, 0xa7a3623f, 0xc2606d6d, 0x2823ef91, 0xaa47c347, 0x49f5114a, 0xe1257970),
               0xa831c66d, 0xb73679a2)
         == Vars(0xcde8037d, 0x1c2c2838, 0xc5d53d8d, 0xa7a3623f, 0x14383d8e, 0x2823ef91, 0xaa47c347, 0x49f5114a)
      && Round(Vars(0xcde8037d, 0x1c2c2838, 0xc5d53d8d, 0xa7a3623f, 0x14383d8e, 0x2823ef91, 0xaa47c347, 0x49f5114a),
               0xb00327c8, 0xe5bc3909)
         == Vars(0xb62ec4bc, 0xcde8037d, 0x1c2c2838, 0xc5d53d8d, 0xc74c6516, 0x14383d8e, 0x2823ef91, 0xaa47c347)
      && Round(Vars(0xb62ec4bc, 0xcde8037d, 0x1c2c2838, 0xc5d53d8d, 0xc74c6516, 0x14383d8e, 0x2823ef91, 0xaa47c347),
               0xbf597fc7, 0x32663c5b)
         == Vars(0x77d37528, 0xb62ec4bc, 0xcde8037d, 0x1c2c2838, 0xedffbff8, 0xc74c6516, 0x14383d8e, 0x2823ef91)
      && Round(Vars(0x77d37528, 0xb62ec4bc, 0xcde8037d, 0x1c2c2838, 0xedffbff8, 0xc74c6516, 0x14383d8e, 0x2823ef91),
               0xc6e00bf3, 0x9d209d67)
         == Vars(0x363482c9, 0x77d37528, 0xb62ec4bc, 0xcde8037d, 0x6112a3b7, 0xedffbff8, 0xc74c6516, 0x14383d8e)
      && Round(Vars(0x363482c9, 0x77d37528, 0xb62ec4bc, 0xcde8037d, 0x6112a3b7, 0xedffbff8, 0xc74c6516, 0x14383d8e),
               0xd5a79147, 0xec8726cb)
         == Vars(0xa0060b30, 0x363482c9, 0x77d37528, 0xb62ec4bc, 0xade79437, 0x6112a3b7, 0xedffbff8, 0xc74c6516)
      && Round(Vars(0xa0060b30, 0x363482c9, 0x77d37528, 0xb62ec4bc, 0xade79437, 0x6112a3b7, 0xedffbff8, 0xc74c6516),
               0x06ca6351, 0x702138a4)
         == Vars(0xea992a22, 0xa0060b30, 0x363482c9, 0x77d37528, 0x0109ab3a, 0xade79437, 0x6112a3b7, 0xedffbff8)
      && Round(Vars(0xea992a22, 0xa0060b30, 0x363482c9, 0x77d37528, 0x0109ab3a, 0xade79437, 0x6112a3b7, 0xedffbff8),
               0x14292967, 0xd3b7973b)
         == Vars(0x73b33bf5, 0xea992a22, 0xa0060b30, 0x363482c9, 0xba591112, 0x0109ab3a, 0xade79437, 0x6112a3b7)
  {
  }

  lemma Rounds3()
    ensures After(32) ==
            Vars(0x73b33bf5, 0xea992a22, 0xa0060b30, 0x363482c9, 0xba591112, 0x0109ab3a, 0xade79437, 0x6112a3b7)
  {
    hide Round, Words, K;
    Rounds2();
    Words3();
    Sha256Facts.Constants3();
    Steps3();
  }

  lemma Steps4()
    ensures
      && Round(Vars(0x73b33bf5, 0xea992a22, 0xa0060b30, 0x363482c9, 0xba591112, 0x0109ab3a, 0xade79437, 0x6112a3b7),
               0x27b70a85, 0x93f5997f)
         == Vars(0x98e12507, 0x73b33bf5, 0xea992a22, 0xa0060b30, 0x9cd9f5f6, 0xba591112, 0x0109ab3a, 0xade79437)
      && Round(Vars(0x98e12507, 0x73b33bf5, 0xea992a22, 0xa0060b30, 0x9cd9f5f6, 0xba591112, 0x0109ab3a, 0xade79437),
               0x2e1b2138, 0x3b68ba73)
         == Vars(0xfe604df5, 0x98e12507, 0x73b33bf5, 0xea992a22, 0x59249dd3, 0x9cd9f5f6, 0xba591112, 0x0109ab3a)
      && Round(Vars(0xfe604df5, 0x98e12507, 0x73b33bf5, 0xea992a22, 0x59249dd3, 0x9cd9f5f6, 0xba591112, 0x0109ab3a),
               0x4d2c6dfc, 0xaff4ffc1)
         == Vars(0xa9a7738c, 0xfe604df5, 0x98e12507, 0x73b33bf5, 0x085f3833, 0x59249dd3, 0x9cd9f5f6, 0xba591112)
      && Round(Vars(0xa9a7738c, 0xfe604df5, 0x98e12507, 0x73b33bf5, 0x085f3833, 0x59249dd3, 0x9cd9f5f6, 0xba591112),
               0x53380d13, 0xf10a5c62)
         == Vars(0x65a0cfe4, 0xa9a7738c, 0xfe604df5, 0x98e12507, 0xf4b002d6, 0x085f3833, 0x59249dd3, 0x9cd9f5f6)
      && Round(Vars(0x65a0cfe4, 0xa9a7738c, 0xfe604df5, 0x98e12507, 0xf4b002d6, 0x085f3833, 0x59249dd3, 0x9cd9f5f6),
               0x650a7354, 0x0a8b3996)
         == Vars(0x41a65cb1, 0x65a0cfe4, 0xa9a7738c, 0xfe604df5, 0x0772a26b, 0xf4b002d6, 0x085f3833, 0x59249dd3)
      && Round(Vars(0x41a65cb1, 0x65a0cfe4, 0xa9a7738c, 0xfe604df5, 0x0772a26b, 0xf4b002d6, 0x085f3833, 0x59249dd3),
               0x766a0abb, 0x72af830a)
         == Vars(0x34df1604, 0x41a65cb1, 0x65a0cfe4, 0xa9a7738c, 0xa507a53d, 0x0772a26b, 0xf4b002d6, 0x085f3833)
      && Round(Vars(0x34df1604, 0x41a65cb1, 0x65a0cfe4, 0xa9a7738c, 0xa507a53d, 0x0772a26b, 0xf4b002d6, 0x085f3833),
               0x81c2c92e, 0x9409e33e)
         == Vars(0x6dc57a8a, 0x34df1604, 0x41a65cb1, 0x65a0cfe4, 0xf0781bc8, 0xa507a53d, 0x0772a26b, 0xf4b002d6)
      && Round(Vars(0x6dc57a8a, 0x34df1604, 0x41a65cb1, 0x65a0cfe4, 0xf0781bc8, 0xa507a53d, 0x0772a26b, 0xf4b002d6),
               0x92722c85, 0x24641522)
         == Vars(0x79ea687a, 0x6dc57a8a, 0x34df1604, 0x41a65cb1, 0x1efbc0a0, 0xf0781bc8, 0xa507a53d, 0x0772a26b)
  {
  }

  lemma Rounds4()
    ensures After(40) ==
            Vars(0x79ea687a, 0x6dc57a8a, 0x34df1604, 0x41a65cb1, 0x1efbc0a0, 0xf0781bc8, 0xa507a53d, 0x0772a26b)
  {
    hide Round, Words, K;
    Rounds3();
    Words4();
    Sha256Facts.Constants4();
    Steps4();
  }

  lemma Steps5()
    ensures
      && Round(Vars(0x79ea687a, 0x6dc57a8a, 0x34df1604, 0x41a65cb1, 0x1efbc0a0, 0xf0781bc8, 0xa507a53d, 0x0772a26b),
               0xa2bfe8a1, 0x9f47bf94)
         == Vars(0xd6670766, 0x79ea687a, 0x6dc57a8a, 0x34df1604, 0x26352d63, 0x1efbc0a0, 0xf0781bc8, 0xa507a53d)
      && Round(Vars(0xd6670766, 0x79ea687a, 0x6dc57a8a, 0x34df1604, 0x26352d63, 0x1efbc0a0, 0xf0781bc8, 0xa507a53d),
               0xa81a664b, 0xf0a64f5a)
         == Vars(0xdf46652f, 0xd6670766, 0x79ea687a, 0x6dc57a8a, 0x838b2711, 0x26352d63, 0x1efbc0a0, 0xf0781bc8)
      && Round(Vars(0xdf46652f, 0xd6670766, 0x79ea687a, 0x6dc57a8a, 0x838b2711, 0x26352d63, 0x1efbc0a0, 0xf0781bc8),
               0xc24b8b70, 0x3e246a79)
         == Vars(0x17aa0dfe, 0xdf46652f, 0xd6670766, 0x79ea687a, 0xdecd4715, 0x838b2711, 0x26352d63, 0x1efbc0a0)
      && Round(Vars(0x17aa0dfe, 0xdf46652f, 0xd6670766, 0x79ea687a, 0xdecd4715, 0x838b2711, 0x26352d63, 0x1efbc0a0),
               0xc76c51a3, 0x27333ba3)
         == Vars(0x9d4baf93, 0x17aa0dfe, 0xdf46652f, 0xd6670766, 0xfda24c2e, 0xdecd4715, 0x838b2711, 0x26352d63)
      && Round(Vars(0x9d4baf93, 0x17aa0dfe, 0xdf46652f, 0xd6670766, 0xfda24c2e, 0xdecd4715, 0x838b2711, 0x26352d63),
               0xd192e819, 0x0c4763f2)
         == Vars(0x26628815, 0x9d4baf93, 0x17aa0dfe, 0xdf46652f, 0xa80f11f0, 0xfda24c2e, 0xdecd4715, 0x838b2711)
      && Round(Vars(0x26628815, 0x9d4baf93, 0x17aa0dfe, 0xdf46652f, 0xa80f11f0, 0xfda24c2e, 0xdecd4715, 0x838b2711),
               0xd6990624, 0x840abf27)
         == Vars(0x72ab4b91, 0x26628815, 0x9d4baf93, 0x17aa0dfe, 0xb7755da1, 0xa80f11f0, 0xfda24c2e, 0xdecd4715)
      && Round(Vars(0x72ab4b91, 0x26628815, 0x9d4baf93, 0x17aa0dfe, 0xb7755da1, 0xa80f11f0, 0xfda24c2e, 0xdecd4715),
               0xf40e3585, 0x7a290d5d)
         == Vars(0xa14c14b0, 0x72ab4b91, 0x26628815, 0x9d4baf93, 0xd57b94a9, 0xb7755da1, 0xa80f11f0, 0xfda24c2e)
      && Round(Vars(0xa14c14b0, 0x72ab4b91, 0x26628815, 0x9d4baf93, 0xd57b94a9, 0xb7755da1, 0xa80f11f0, 0xfda24c2e),
               0x106aa070, 0x065c43da)
         == Vars(0x4172328d, 0xa14c14b0, 0x72ab4b91, 0x26628815, 0xfecf0bc6, 0xd57b94a9, 0xb7755da1, 0xa80f11f0)
  {
  }

  lemma Rounds5()
    ensures After(48) ==
            Vars(0x4172328d, 0xa14c14b0, 0x72ab4b91, 0x26628815, 0xfecf0bc6, 0xd57b94a9, 0xb7755da1, 0xa80f11f0)
  {
    hide Round, Words, K;
    Rounds4();
    Words5();
    Sha256Facts.Constants5();
    Steps5();
  }

  lemma Steps6()
    ensures
      && Round(Vars(0x4172328d, 0xa14c14b0, 0x72ab4b91, 0x26628815, 0xfecf0bc6, 0xd57b94a9, 0xb7755da1, 0xa80f11f0),
               0x19a4c116, 0xfb3e89cb)
         == Vars(0x05757ceb, 0x4172328d, 0xa14c14b0, 0x72ab4b91, 0xbd714038, 0xfecf0bc6, 0xd57b94a9, 0xb7755da1)
      && Round(Vars(0x05757ceb, 0x4172328d, 0xa14c14b0, 0x72ab4b91, 0xbd714038, 0xfecf0bc6, 0xd57b94a9, 0xb7755da1),
               0x1e376c08, 0xcc7617db)
         == Vars(0xf11bfaa8, 0x05757ceb, 0x4172328d, 0xa14c14b0, 0x6e5c390c, 0xbd714038, 0xfecf0bc6, 0xd57b94a9)
      && Round(Vars(0xf11bfaa8, 0x05757ceb, 0x4172328d, 0xa14c14b0, 0x6e5c390c, 0xbd714038, 0xfecf0bc6, 0xd57b94a9),
               0x2748774c, 0xb9e66c34)
         == Vars(0x7a0508a1, 0xf11bfaa8, 0x05757ceb, 0x4172328d, 0x52f1ccf7, 0x6e5c390c, 0xbd714038, 0xfecf0bc6)
      && Round(Vars(0x7a0508a1, 0xf11bfaa8, 0x05757ceb, 0x4172328d, 0x52f1ccf7, 0x6e5c390c, 0xbd714038, 0xfecf0bc6),
               0x34b0bcb5, 0xa9993667)
         == Vars(0x886e7a22, 0x7a0508a1, 0xf11bfaa8, 0x05757ceb, 0x49231c1e, 0x52f1ccf7, 0x6e5c390c, 0xbd714038)
      && Round(Vars(0x886e7a22, 0x7a0508a1, 0xf11bfaa8, 0x05757ceb, 0x49231c1e, 0x52f1ccf7, 0x6e5c390c, 0xbd714038),
               0x391c0cb3, 0x84badedd)
         == Vars(0x101fd28f, 0x886e7a22, 0x7a0508a1, 0xf11bfaa8, 0x529e7d00, 0x49231c1e, 0x52f1ccf7, 0x6e5c390c)
      && Round(Vars(0x101fd28f, 0x886e7a22, 0x7a0508a1, 0xf11bfaa8, 0x529e7d00, 0x49231c1e, 0x52f1ccf7, 0x6e5c390c),
               0x4ed8aa4a, 0xc21462bc)
         == Vars(0xf5702fdb, 0x101fd28f, 0x886e7a22, 0x7a0508a1, 0x9f4787c3, 0x529e7d00, 0x49231c1e, 0x52f1ccf7)
      && Round(Vars(0xf5702fdb, 0x101fd28f, 0x886e7a22, 0x7a0508a1, 0x9f4787c3, 0x529e7d00, 0x49231c1e, 0x52f1ccf7),
               0x5b9cca4f, 0x1487472c)
         == Vars(0x3ec45cdb, 0xf5702fdb, 0x101fd28f, 0x886e7a22, 0xe50e1b4f, 0x9f4787c3, 0x529e7d00, 0x49231c1e)
      && Round(Vars(0x3ec45cdb, 0xf5702fdb, 0x101fd28f, 0x886e7a22, 0xe50e1b4f, 0x9f4787c3, 0x529e7d00, 0x49231c1e),
               0x682e6ff3, 0xb20f7a99)
         == Vars(0x38cc9913, 0x3ec45cdb, 0xf5702fdb, 0x101fd28f, 0x54cb266b, 0xe50e1b4f, 0x9f4787c3, 0x529e7d00)
  {
  }

  lemma Rounds6()
    ensures After(56) ==
            Vars(0x38cc9913, 0x3ec45cdb, 0xf5702fdb, 0x101fd28f, 0x54cb266b, 0xe50e1b4f, 0x9f4787c3, 0x529e7d00)
  {
    hide Round, Words, K;
    Rounds5();
    Words6();
    Sha256Facts.Constants6();
    Steps6();
  }

  lemma Steps7()
    ensures
      && Round(Vars(0x38cc9913, 0x3ec45cdb, 0xf5702fdb, 0x101fd28f, 0x54cb266b, 0xe50e1b4f, 0x9f4787c3, 0x529e7d00),
               0x748f82ee, 0xef57b9cd)
         == Vars(0xfcd1887b, 0x38cc9913, 0x3ec45cdb, 0xf5702fdb, 0x9b5e906c, 0x54cb266b, 0xe50e1b4f, 0x9f4787c3)
      && Round(Vars(0xfcd1887b, 0x38cc9913, 0x3ec45cdb, 0xf5702fdb, 0x9b5e906c, 0x54cb266b, 0xe50e1b4f, 0x9f4787c3),
               0x78a5636f, 0xebe6b238)
         == Vars(0xc062d46f, 0xfcd1887b, 0x38cc9913, 0x3ec45cdb, 0x7e44008e, 0x9b5e906c, 0x54cb266b, 0xe50e1b4f)
      && Round(Vars(0xc062d46f, 0xfcd1887b, 0x38cc9913, 0x3ec45cdb, 0x7e44008e, 0x9b5e906c, 0x54cb266b, 0xe50e1b4f),
               0x84c87814, 0x9fe3095e)
         == Vars(0xffb70472, 0xc062d46f, 0xfcd1887b, 0x38cc9913, 0x6d83bfc6, 0x7e44008e, 0x9b5e906c, 0x54cb266b)
      && Round(Vars(0xffb70472, 0xc062d46f, 0xfcd1887b, 0x38cc9913, 0x6d83bfc6, 0x7e44008e, 0x9b5e906c, 0x54cb266b),
               0x8cc70208, 0x78bc8d4b)
         == Vars(0xb6ae8fff, 0xffb70472, 0xc062d46f, 0xfcd1887b, 0xb21bad3d, 0x6d83bfc6, 0x7e44008e, 0x9b5e906c)
      && Round(Vars(0xb6ae8fff, 0xffb70472, 0xc062d46f, 0xfcd1887b, 0xb21bad3d, 0x6d83bfc6, 0x7e44008e, 0x9b5e906c),
               0x90befffa, 0xa43fcf15)
         == Vars(0xb85e2ce9, 0xb6ae8fff, 0xffb70472, 0xc062d46f, 0x961f4894, 0xb21bad3d, 0x6d83bfc6, 0x7e44008e)
      && Round(Vars(0xb85e2ce9, 0xb6ae8fff, 0xffb70472, 0xc062d46f, 0x961f4894, 0xb21bad3d, 0x6d83bfc6, 0x7e44008e),
               0xa4506ceb, 0x668b2ff8)
         == Vars(0x04d24d6c, 0xb85e2ce9, 0xb6ae8fff, 0xffb70472, 0x948d25b6, 0x961f4894, 0xb21bad3d, 0x6d83bfc6)
      && Round(Vars(0x04d24d6c, 0xb85e2ce9, 0xb6ae8fff, 0xffb70472, 0x948d25b6, 0x961f4894, 0xb21bad3d, 0x6d83bfc6),
               0xbef9a3f7, 0xeeaba2cc)
         == Vars(0xd39a2165, 0x04d24d6c, 0xb85e2ce9, 0xb6ae8fff, 0xfb121210, 0x948d25b6, 0x961f4894, 0xb21bad3d)
      && Round(Vars(0xd39a2165, 0x04d24d6c, 0xb85e2ce9, 0xb6ae8fff, 0xfb121210, 0x948d25b6, 0x961f4894, 0xb21bad3d),
               0xc67178f2, 0x12b1edeb)
         == Vars(0x506e3058, 0xd39a2165, 0x04d24d6c, 0xb85e2ce9, 0x5ef50f24, 0xfb121210, 0x948d25b6, 0x961f4894)
  {
  }

  lemma Rounds7()
    ensures After(64) ==
            Vars(0x506e3058, 0xd39a2165, 0x04d24d6c, 0xb85e2ce9, 0x5ef50f24, 0xfb121210, 0x948d25b6, 0x961f4894)
  {
    hide Round, Words, K;
    Rounds6();
    Words7();
    Sha256Facts.Constants7();
    Steps7();
  }

  // ---------- Digest ----------

  lemma Sums()
    ensures
      && Add(0x6a09e667, 0x506e3058) == 0xba7816bf
      && Add(0xbb67ae85, 0xd39a2165) == 0x8f01cfea
      && Add(0x3c6ef372, 0x04d24d6c) == 0x414140de
      && Add(0xa54ff53a, 0xb85e2ce9) == 0x5dae2223
      && Add(0x510e527f, 0x5ef50f24) == 0xb00361a3
      && Add(0x9b05688c, 0xfb121210) == 0x96177a9c
      && Add(0x1f83d9ab, 0x948d25b6) == 0xb410ff61
      && Add(0x5be0cd19, 0x961f4894) == 0xf20015ad
  {
  }

  lemma Hash()
    ensures HashBlocks(Pad(ABC)) == [0xba7816bf, 0x8f01cfea, 0x414140de, 0x5dae2223,
                                     0xb00361a3, 0x96177a9c, 0xb410ff61, 0xf20015ad]
  {
    hide Add, Rounds, Schedule, Block;
    Padded();
    Rounds7();
    Sums();
    assert Block()[..0] == [] && Block()[0..] == Block();
    assert Compress(INITIAL, Block()) == AddTo(INITIAL, After(64));
  }

  function WordBytes(w: bv32): (bytes: seq<Byte>)
    ensures |bytes| == 4
  {
    [WordByte(w, 0), WordByte(w, 1), WordByte(w, 2), WordByte(w, 3)]
  }

  /** The digest is the words in order, each most significant byte first. */
  lemma WordAt(hash: seq<bv32>, i: nat)
    requires |hash| == 8 && i < 8
    ensures Serialize(hash)[4 * i..4 * i + 4] == WordBytes(hash[i])
  {
    hide WordByte;
  }

  lemma Quarters(s: seq<Byte>)
    requires |s| == 16
    ensures s == s[0..4] + s[4..8] + s[8..12] + s[12..16]
  {
  }

  lemma Bytes()
    ensures
      && WordBytes(0xba7816bf) == [0xba, 0x78, 0x16, 0xbf]
      && WordBytes(0x8f01cfea) == [0x8f, 0x01, 0xcf, 0xea]
      && WordBytes(0x414140de) == [0x41, 0x41, 0x40, 0xde]
      && WordBytes(0x5dae2223) == [0x5d, 0xae, 0x22, 0x23]
      && WordBytes(0xb00361a3) == [0xb0, 0x03, 0x61, 0xa3]
      && WordBytes(0x96177a9c) == [0x96, 0x17, 0x7a, 0x9c]
      && WordBytes(0xb410ff61) == [0xb4, 0x10, 0xff, 0x61]
      && WordBytes(0xf20015ad) == [0xf2, 0x00, 0x15, 0xad]
  {
  }

  /** The published digest. */
  lemma DigestOfAbc()
    ensures Sha256([97, 98, 99])
      == [0xba, 0x78, 0x16, 0xbf] + [0x8f, 0x01, 0xcf, 0xea] + [0x41, 0x41, 0x40, 0xde] + [0x5d, 0xae, 0x22, 0x23]
       + [0xb0, 0x03, 0x61, 0xa3] + [0x96, 0x17, 0x7a, 0x9c] + [0xb4, 0x10, 0xff, 0x61] + [0xf2, 0x00, 0x15, 0xad]
  {
    hide WordBytes, HashBlocks, Serialize;
    Hash();
    Bytes();
    var hash := HashBlocks(Pad(ABC));
    var digest := Serialize(hash);
    WordAt(hash, 0); WordAt(hash, 1); WordAt(hash, 2); WordAt(hash, 3);
    WordAt(hash, 4); WordAt(hash, 5); WordAt(hash, 6); WordAt(hash, 7);
    Quarters(digest[..16]);
    Quarters(digest[16..]);
    assert digest == digest[..16] + digest[16..];
  }
}

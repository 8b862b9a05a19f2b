/** SHA-1 of "abc", the one-block example of FIPS 180, round by round. What is proved of all messages says how the parts
    of the standard and of the code hang together; the example fixes the constants. */
module Sha1Sample {
  import opened Sha1
  import opened Sha1Stream

  /** The block of the padded message: its three octets, the one bit, and the length of 24 bits. */
  const ABC: seq<word> := [0x61626380, 0, 0, 0, 0, 0, 0, 0, 0, 0, 0, 0, 0, 0, 0, 0x18]

  predicate IsWord(t: nat, w: word) { Schedule(ABC, t) == w }

  /** One round more. */
  lemma Next(t: nat, w: word, s: Five)
    requires IsWord(t, w) && Round(Rounds(IV, ABC, t), t, w) == s
    ensures Rounds(IV, ABC, t + 1) == s
  {
    hide Round, Schedule;
  }

  lemma Words0()
    ensures IsWord(0, 0x61626380) && IsWord(1, 0x00000000) && IsWord(2, 0x00000000) && IsWord(3, 0x00000000)
    ensures IsWord(4, 0x00000000) && IsWord(5, 0x00000000) && IsWord(6, 0x00000000) && IsWord(7, 0x00000000)
  {
  }

  lemma Words8()
    ensures IsWord(8, 0x00000000) && IsWord(9, 0x00000000) && IsWord(10, 0x00000000) && IsWord(11, 0x00000000)
    ensures IsWord(12, 0x00000000) && IsWord(13, 0x00000000) && IsWord(14, 0x00000000) && IsWord(15, 0x00000018)
  {
    Words0();
  }

  lemma Words16()
    ensures IsWord(16, 0xc2c4c700) && IsWord(17, 0x00000000) && IsWord(18, 0x00000030) && IsWord(19, 0x85898e01)
    ensures IsWord(20, 0x00000000) && IsWord(21, 0x00000060) && IsWord(22, 0x0b131c03) && IsWord(23, 0x00000030)
    ensures IsWord(24, 0x85898ec1) && IsWord(25, 0x16263806) && IsWord(26, 0x00000000) && IsWord(27, 0x00000180)
    ensures IsWord(28, 0x2c4c700c) && IsWord(29, 0x000000f0) && IsWord(30, 0x93afb507) && IsWord(31, 0x5898e048)
    ensures IsWord(32, 0x8e9a9202) && IsWord(33, 0x00000600) && IsWord(34, 0xb131c0f0) && IsWord(35, 0x16263bc6)
    ensures IsWord(36, 0x4ebed41e) && IsWord(37, 0x626380a1) && IsWord(38, 0x16263806) && IsWord(39, 0x000018c0)
    ensures IsWord(40, 0xd2e138c4) && IsWord(41, 0x00000f00) && IsWord(42, 0x3afb5079) && IsWord(43, 0x898e04e5)
    ensures IsWord(44, 0xe2ba3c2b) && IsWord(45, 0x000060c0) && IsWord(46, 0x053a37cd) && IsWord(47, 0x74458547)
  {
    Words0();
    Words8();
  }

  lemma Words48()
    ensures IsWord(48, 0xda9415ed) && IsWord(49, 0x26380a16) && IsWord(50, 0x626383a1) && IsWord(51, 0x4ebf54de)
    ensures IsWord(52, 0x3835b44b) && IsWord(53, 0x0000f600) && IsWord(54, 0x1e84c7a3) && IsWord(55, 0x98e04d98)
    ensures IsWord(56, 0x651d16a0) && IsWord(57, 0x62658ca1) && IsWord(58, 0x458544d6) && IsWord(59, 0x44584cb7)
    ensures IsWord(60, 0x7ba06619) && IsWord(61, 0x6380aea2) && IsWord(62, 0x0ae55269) && IsWord(63, 0x627b49a1)
    ensures IsWord(64, 0x7cd45c9d) && IsWord(65, 0x000f0000) && IsWord(66, 0xfb50753a) && IsWord(67, 0xec6765e8)
    ensures IsWord(68, 0xba3c2be2) && IsWord(69, 0x0060c000) && IsWord(70, 0x3a37cd05) && IsWord(71, 0x458546f4)
    ensures IsWord(72, 0xb8599dd6) && IsWord(73, 0x380a1a26) && IsWord(74, 0x01e02203) && IsWord(75, 0xe7cc3456)
    ensures IsWord(76, 0xe6e60b69) && IsWord(77, 0x00f60a00) && IsWord(78, 0x5795ef4f) && IsWord(79, 0x822e0879)
  {
    Words16();
  }

  lemma Rounds0()
    ensures Rounds(IV, ABC, 10) == Five(0x8351f929, 0x4b6ae328, 0x27a301f5, 0x664f8c30, 0x0ff1f290)
  {
    assert Rounds(IV, ABC, 0) == IV;
    Words0();
    Words8();
    hide Rounds, IsWord;
    Next(0, 0x61626380, Five(0x0116fc33, 0x67452301, 0x7bf36ae2, 0x98badcfe, 0x10325476));
    Next(1, 0x00000000, Five(0x8990536d, 0x0116fc33, 0x59d148c0, 0x7bf36ae2, 0x98badcfe));
    Next(2, 0x00000000, Five(0xa1390f08, 0x8990536d, 0xc045bf0c, 0x59d148c0, 0x7bf36ae2));
    Next(3, 0x00000000, Five(0xcdd8e11b, 0xa1390f08, 0x626414db, 0xc045bf0c, 0x59d148c0));
    Next(4, 0x00000000, Five(0xcfd499de, 0xcdd8e11b, 0x284e43c2, 0x626414db, 0xc045bf0c));
    Next(5, 0x00000000, Five(0x3fc7ca40, 0xcfd499de, 0xf3763846, 0x284e43c2, 0x626414db));
    Next(6, 0x00000000, Five(0x993e30c1, 0x3fc7ca40, 0xb3f52677, 0xf3763846, 0x284e43c2));
    Next(7, 0x00000000, Five(0x9e8c07d4, 0x993e30c1, 0x0ff1f290, 0xb3f52677, 0xf3763846));
    Next(8, 0x00000000, Five(0x4b6ae328, 0x9e8c07d4, 0x664f8c30, 0x0ff1f290, 0xb3f52677));
    Next(9, 0x00000000, Five(0x8351f929, 0x4b6ae328, 0x27a301f5, 0x664f8c30, 0x0ff1f290));
  }

  lemma Rounds10()
    ensures Rounds(IV, ABC, 20) == Five(0xfd9e1d7d, 0xdc64901d, 0x20aa99ca, 0xd3a49608, 0xc82f758b)
  {
    Rounds0();
    Words8();
    Words16();
    hide Rounds, IsWord;
    Next(10, 0x00000000, Five(0xfbda9e89, 0x8351f929, 0x12dab8ca, 0x27a301f5, 0x664f8c30));
    Next(11, 0x00000000, Five(0x63188fe4, 0xfbda9e89, 0x60d47e4a, 0x12dab8ca, 0x27a301f5));
    Next(12, 0x00000000, Five(0x4607b664, 0x63188fe4, 0x7ef6a7a2, 0x60d47e4a, 0x12dab8ca));
    Next(13, 0x00000000, Five(0x9128f695, 0x4607b664, 0x18c623f9, 0x7ef6a7a2, 0x60d47e4a));
    Next(14, 0x00000000, Five(0x196bee77, 0x9128f695, 0x1181ed99, 0x18c623f9, 0x7ef6a7a2));
    Next(15, 0x00000018, Five(0x20bdd62f, 0x196bee77, 0x644a3da5, 0x1181ed99, 0x18c623f9));
    Next(16, 0xc2c4c700, Five(0x4e925823, 0x20bdd62f, 0xc65afb9d, 0x644a3da5, 0x1181ed99));
    Next(17, 0x00000000, Five(0x82aa6728, 0x4e925823, 0xc82f758b, 0xc65afb9d, 0x644a3da5));
    Next(18, 0x00000030, Five(0xdc64901d, 0x82aa6728, 0xd3a49608, 0xc82f758b, 0xc65afb9d));
    Next(19, 0x85898e01, Five(0xfd9e1d7d, 0xdc64901d, 0x20aa99ca, 0xd3a49608, 0xc82f758b));
  }

  lemma Rounds20()
    ensures Rounds(IV, ABC, 30) == Five(0xc5fbaf5d, 0x8370b52e, 0xd2aa1365, 0x6f8d7ef5, 0x12104ee9)
  {
    Rounds10();
    Words16();
    hide Rounds, IsWord;
    Next(20, 0x00000000, Five(0x1a37b0ca, 0xfd9e1d7d, 0x77192407, 0x20aa99ca, 0xd3a49608));
    Next(21, 0x00000060, Five(0x33a23bfc, 0x1a37b0ca, 0x7f67875f, 0x77192407, 0x20aa99ca));
    Next(22, 0x0b131c03, Five(0x21283486, 0x33a23bfc, 0x868dec32, 0x7f67875f, 0x77192407));
    Next(23, 0x00000030, Five(0xd541f12d, 0x21283486, 0x0ce88eff, 0x868dec32, 0x7f67875f));
    Next(24, 0x85898ec1, Five(0xc7567dc6, 0xd541f12d, 0x884a0d21, 0x0ce88eff, 0x868dec32));
    Next(25, 0x16263806, Five(0x48413ba4, 0xc7567dc6, 0x75507c4b, 0x884a0d21, 0x0ce88eff));
    Next(26, 0x00000000, Five(0xbe35fbd5, 0x48413ba4, 0xb1d59f71, 0x75507c4b, 0x884a0d21));
    Next(27, 0x00000180, Five(0x4aa84d97, 0xbe35fbd5, 0x12104ee9, 0xb1d59f71, 0x75507c4b));
    Next(28, 0x2c4c700c, Five(0x8370b52e, 0x4aa84d97, 0x6f8d7ef5, 0x12104ee9, 0xb1d59f71));
    Next(29, 0x000000f0, Five(0xc5fbaf5d, 0x8370b52e, 0xd2aa1365, 0x6f8d7ef5, 0x12104ee9));
  }

  lemma Rounds30()
    ensures Rounds(IV, ABC, 40) == Five(0x32de1cba, 0x4c986405, 0xf718e5cf, 0x03d447f6, 0xf72eec32)
  {
    Rounds20();
    Words16();
    hide Rounds, IsWord;
    Next(30, 0x93afb507, Five(0x1267b407, 0xc5fbaf5d, 0xa0dc2d4b, 0xd2aa1365, 0x6f8d7ef5));
    Next(31, 0x5898e048, Five(0x3b845d33, 0x1267b407, 0x717eebd7, 0xa0dc2d4b, 0xd2aa1365));
    Next(32, 0x8e9a9202, Five(0x046faa0a, 0x3b845d33, 0xc499ed01, 0x717eebd7, 0xa0dc2d4b));
    Next(33, 0x00000600, Five(0x2c0ebc11, 0x046faa0a, 0xcee1174c, 0xc499ed01, 0x717eebd7));
    Next(34, 0xb131c0f0, Five(0x21796ad4, 0x2c0ebc11, 0x811bea82, 0xcee1174c, 0xc499ed01));
    Next(35, 0x16263bc6, Five(0xdcbbb0cb, 0x21796ad4, 0x4b03af04, 0x811bea82, 0xcee1174c));
    Next(36, 0x4ebed41e, Five(0x0f511fd8, 0xdcbbb0cb, 0x085e5ab5, 0x4b03af04, 0x811bea82));
    Next(37, 0x626380a1, Five(0xdc63973f, 0x0f511fd8, 0xf72eec32, 0x085e5ab5, 0x4b03af04));
    Next(38, 0x16263806, Five(0x4c986405, 0xdc63973f, 0x03d447f6, 0xf72eec32, 0x085e5ab5));
    Next(39, 0x000018c0, Five(0x32de1cba, 0x4c986405, 0xf718e5cf, 0x03d447f6, 0xf72eec32));
  }

  lemma Rounds40()
    ensures Rounds(IV, ABC, 50) == Five(0x120731c5, 0xbaf39337, 0xafab40b2, 0x2806e11b, 0x8714787c)
  {
    Rounds30();
    Words16();
    Words48();
    hide Rounds, IsWord;
    Next(40, 0xd2e138c4, Five(0xfc87dedf, 0x32de1cba, 0x53261901, 0xf718e5cf, 0x03d447f6));
    Next(41, 0x00000f00, Five(0x970a0d5c, 0xfc87dedf, 0x8cb7872e, 0x53261901, 0xf718e5cf));
    Next(42, 0x3afb5079, Five(0x7f193dc5, 0x970a0d5c, 0xff21f7b7, 0x8cb7872e, 0x53261901));
    Next(43, 0x898e04e5, Five(0xee1b1aaf, 0x7f193dc5, 0x25c28357, 0xff21f7b7, 0x8cb7872e));
    Next(44, 0xe2ba3c2b, Five(0x40f28e09, 0xee1b1aaf, 0x5fc64f71, 0x25c28357, 0xff21f7b7));
    Next(45, 0x000060c0, Five(0x1c51e1f2, 0x40f28e09, 0xfb86c6ab, 0x5fc64f71, 0x25c28357));
    Next(46, 0x053a37cd, Five(0xa01b846c, 0x1c51e1f2, 0x503ca382, 0xfb86c6ab, 0x5fc64f71));
    Next(47, 0x74458547, Five(0xbead02ca, 0xa01b846c, 0x8714787c, 0x503ca382, 0xfb86c6ab));
    Next(48, 0xda9415ed, Five(0xbaf39337, 0xbead02ca, 0x2806e11b, 0x8714787c, 0x503ca382));
    Next(49, 0x26380a16, Five(0x120731c5, 0xbaf39337, 0xafab40b2, 0x2806e11b, 0x8714787c));
  }

  lemma Rounds50()
    ensures Rounds(IV, ABC, 60) == Five(0x3f52de5a, 0x09d785fd, 0x3498bfd4, 0xf211824f, 0xd79915ab)
  {
    Rounds40();
    Words48();
    hide Rounds, IsWord;
    Next(50, 0x626383a1, Five(0x641db2ce, 0x120731c5, 0xeebce4cd, 0xafab40b2, 0x2806e11b));
    Next(51, 0x4ebf54de, Five(0x3847ad66, 0x641db2ce, 0x4481cc71, 0xeebce4cd, 0xafab40b2));
    Next(52, 0x3835b44b, Five(0xe490436d, 0x3847ad66, 0x99076cb3, 0x4481cc71, 0xeebce4cd));
    Next(53, 0x0000f600, Five(0x27e9f1d8, 0xe490436d, 0x8e11eb59, 0x99076cb3, 0x4481cc71));
    Next(54, 0x1e84c7a3, Five(0x7b71f76d, 0x27e9f1d8, 0x792410db, 0x8e11eb59, 0x99076cb3));
    Next(55, 0x98e04d98, Five(0x5e6456af, 0x7b71f76d, 0x09fa7c76, 0x792410db, 0x8e11eb59));
    Next(56, 0x651d16a0, Five(0xc846093f, 0x5e6456af, 0x5edc7ddb, 0x09fa7c76, 0x792410db));
    Next(57, 0x62658ca1, Five(0xd262ff50, 0xc846093f, 0xd79915ab, 0x5edc7ddb, 0x09fa7c76));
    Next(58, 0x458544d6, Five(0x09d785fd, 0xd262ff50, 0xf211824f, 0xd79915ab, 0x5edc7ddb));
    Next(59, 0x44584cb7, Five(0x3f52de5a, 0x09d785fd, 0x3498bfd4, 0xf211824f, 0xd79915ab));
  }

  lemma Rounds60()
    ensures Rounds(IV, ABC, 70) == Five(0x3f2588c2, 0x497093c0, 0xde37534a, 0x030f7cad, 0x4405957e)
  {
    Rounds50();
    Words48();
    hide Rounds, IsWord;
    Next(60, 0x7ba06619, Five(0xd756c147, 0x3f52de5a, 0x4275e17f, 0x3498bfd4, 0xf211824f));
    Next(61, 0x6380aea2, Five(0x548c9cb2, 0xd756c147, 0x8fd4b796, 0x4275e17f, 0x3498bfd4));
    Next(62, 0x0ae55269, Five(0xb66c020b, 0x548c9cb2, 0xf5d5b051, 0x8fd4b796, 0x4275e17f));
    Next(63, 0x627b49a1, Five(0x6b61c9e1, 0xb66c020b, 0x9523272c, 0xf5d5b051, 0x8fd4b796));
    Next(64, 0x7cd45c9d, Five(0x19dfa7ac, 0x6b61c9e1, 0xed9b0082, 0x9523272c, 0xf5d5b051));
    Next(65, 0x000f0000, Five(0x101655f9, 0x19dfa7ac, 0x5ad87278, 0xed9b0082, 0x9523272c));
    Next(66, 0xfb50753a, Five(0x0c3df2b4, 0x101655f9, 0x0677e9eb, 0x5ad87278, 0xed9b0082));
    Next(67, 0xec6765e8, Five(0x78dd4d2b, 0x0c3df2b4, 0x4405957e, 0x0677e9eb, 0x5ad87278));
    Next(68, 0xba3c2be2, Five(0x497093c0, 0x78dd4d2b, 0x030f7cad, 0x4405957e, 0x0677e9eb));
    Next(69, 0x0060c000, Five(0x3f2588c2, 0x497093c0, 0xde37534a, 0x030f7cad, 0x4405957e));
  }

  lemma Rounds70()
    ensures Rounds(IV, ABC, 80) == Five(0x42541b35, 0x5738d5e1, 0x21834873, 0x681e6df6, 0xd8fdf6ad)
  {
    Rounds60();
    Words48();
    hide Rounds, IsWord;
    Next(70, 0x3a37cd05, Five(0xc199f8c7, 0x3f2588c2, 0x125c24f0, 0xde37534a, 0x030f7cad));
    Next(71, 0x458546f4, Five(0x39859de7, 0xc199f8c7, 0x8fc96230, 0x125c24f0, 0xde37534a));
    Next(72, 0xb8599dd6, Five(0xedb42de4, 0x39859de7, 0xf0667e31, 0x8fc96230, 0x125c24f0));
    Next(73, 0x380a1a26, Five(0x11793f6f, 0xedb42de4, 0xce616779, 0xf0667e31, 0x8fc96230));
    Next(74, 0x01e02203, Five(0x5ee76897, 0x11793f6f, 0x3b6d0b79, 0xce616779, 0xf0667e31));
    Next(75, 0xe7cc3456, Five(0x63f7dab7, 0x5ee76897, 0xc45e4fdb, 0x3b6d0b79, 0xce616779));
    Next(76, 0xe6e60b69, Five(0xa079b7d9, 0x63f7dab7, 0xd7b9da25, 0xc45e4fdb, 0x3b6d0b79));
    Next(77, 0x00f60a00, Five(0x860d21cc, 0xa079b7d9, 0xd8fdf6ad, 0xd7b9da25, 0xc45e4fdb));
    Next(78, 0x5795ef4f, Five(0x5738d5e1, 0x860d21cc, 0x681e6df6, 0xd8fdf6ad, 0xd7b9da25));
    Next(79, 0x822e0879, Five(0x42541b35, 0x5738d5e1, 0x21834873, 0x681e6df6, 0xd8fdf6ad));
  }

  lemma Compressed()
    ensures Compress(IV, ABC) == Five(0xa9993e36, 0x4706816a, 0xba3e2571, 0x7850c26c, 0x9cd0d89d)
  {
    Rounds70();
    hide Rounds;
  }

  lemma Block(b: seq<octet>)
    requires b == [0x61, 0x62, 0x63, 0x80] + Zeros(59) + [0x18]
    ensures |b| == 64 && Words(b) == ABC
  {
    assert WordOf(0x61, 0x62, 0x63, 0x80) == 0x61626380 && WordOf(0, 0, 0, 0x18) == 0x18;
    ZeroWord();
    hide WordOf;
    forall i | 0 <= i < 16 ensures Words(b)[i] == ABC[i] {
      if 1 <= i < 15 { assert ABC[1..15][i - 1] == 0; }
    }
  }

  lemma Length()
    ensures ZeroCount(3) == 52 && BitLengthOctets(BitLength(3)) == Zeros(7) + [0x18]
  {
    Length24();
    Octets24();
    hide BitLengthOctets, BitLength;
  }

  lemma Length24()
    ensures BitLength(3) == 24
  {
  }

  lemma Octets24()
    ensures BitLengthOctets(24) == Zeros(7) + [0x18]
  {
  }

  lemma Padded()
    ensures [0x61, 0x62, 0x63] + Padding(3) == [0x61, 0x62, 0x63, 0x80] + Zeros(59) + [0x18]
  {
    Length();
    hide BitLengthOctets, BitLength;
  }

  lemma OneBlock(h: Five, s: seq<octet>)
    requires |s| == 64
    ensures HashBlocks(h, s) == Compress(h, Words(s))
  {
    hide Compress, Words;
    assert s[..64] == s && s[64..] == [];
  }

  lemma Hashed()
    ensures Hash([0x61, 0x62, 0x63]) == Five(0xa9993e36, 0x4706816a, 0xba3e2571, 0x7850c26c, 0x9cd0d89d)
  {
    var s := [0x61, 0x62, 0x63] + Padding(3);
    Padded();
    Block(s);
    Compressed();
    OneBlock(IV, s);
    hide Compress, Words, Padding, IV, ABC, HashBlocks;
  }

  lemma HexOfWords()
    ensures HexWord(0xa9993e36) == "a9993e36" && HexWord(0x4706816a) == "4706816a" && HexWord(0xba3e2571) == "ba3e2571"
    ensures HexWord(0x7850c26c) == "7850c26c" && HexWord(0x9cd0d89d) == "9cd0d89d"
  {
  }

  /** The digest of the standard's example, as the code writes it. */
  lemma AbcDigest()
    ensures Hex(Hash([0x61, 0x62, 0x63])) == "a9993e364706816aba3e25717850c26c9cd0d89d"
  {
    Hashed();
    HexOfWords();
    hide Hash, HexWord;
  }
}

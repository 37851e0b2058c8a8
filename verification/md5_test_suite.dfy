/** The first and the third message of the test suite in section A.5 of RFC 1321, step by step: what is in
    the tables, the order of the words, the padding and the order of the bytes all go into these digests. */
module MessageDigestTestSuite {
  import opened MessageDigest

  // The block has these two words and zeros.
  predicate BlockOf(x: seq<bv32>, first: bv32, bits: bv32) {
    |x| == 16 && x[0] == first && x[14] == bits && forall k :: 0 < k < 16 && k != 14 ==> x[k] == 0
  }

  // An empty message, or one of three bytes, padded to one block.
  lemma BlockIs(message: seq<Byte>, first: bv32, bits: bv32)
    requires (message == [] && bits == 0) || (|message| == 3 && bits == 24)
    requires first == Word(message + [0x80] + seq(3 - |message|, i => 0))
    ensures |Padded(message)| == 64 && BlockOf(Words(Padded(message)), first, bits)
  {
    hide Word, BlockOf;
    PaddedBytes(message);
    WordsOf(Padded(message), message + [0x80] + seq(3 - |message|, i => 0), 8 * |message|, first, bits);
  }

  lemma PaddedBytes(message: seq<Byte>)
    requires |message| <= 3
    ensures var p := Padded(message);
            && |p| == 64 && p[..4] == message + [0x80] + seq(3 - |message|, i => 0)
            && (forall k :: 4 <= k < 56 ==> p[k] == 0) && p[56..] == NumberBytes(8 * |message|) + NumberBytes(0)
  {
    var n := |message|;
    hide NumberBytes;
    NumberSize(8 * n);
    NumberSize(0);
    assert LengthBytes(n) == NumberBytes(8 * n) + NumberBytes(0);
  }

  lemma WordsOf(p: seq<Byte>, head: seq<Byte>, n: nat, first: bv32, bits: bv32)
    requires |p| == 64 && |head| == 4 && p[..4] == head && first == Word(head)
    requires (n == 0 && bits == 0) || (n == 24 && bits == 24)
    requires (forall k :: 4 <= k < 56 ==> p[k] == 0) && p[56..] == NumberBytes(n) + NumberBytes(0)
    ensures BlockOf(Words(p), first, bits)
  {
    hide Word, NumberBytes;
    NumberSize(n);
    NumberSize(0);
    ZeroWord();
    SmallWord(n, bits);
    assert p[0..4] == head;
    forall k | 0 < k < 14 ensures p[4 * k..4 * k + 4] == [0, 0, 0, 0] {
    }
    assert p[56..60] == NumberBytes(n) by { assert p[56..60] == p[56..][..4]; }
    assert p[60..64] == NumberBytes(0) by { assert p[60..64] == p[56..][4..]; }
  }

  lemma ZeroWord()
    ensures Word([0, 0, 0, 0]) == 0 && Word(NumberBytes(0)) == 0
  {
  }

  lemma SmallWord(n: nat, bits: bv32)
    requires (n == 0 && bits == 0) || (n == 24 && bits == 24)
    ensures Word(NumberBytes(n)) == bits
  {
    if n == 24 {
      assert NumberBytes(n) == [24, 0, 0, 0];
    }
  }

  lemma OneBlock(bytes: seq<Byte>)
    requires |bytes| == 64
    ensures Digested(bytes) == Compress(INITIAL, bytes)
  {
    assert bytes[..0] == [] && bytes[0..64] == bytes;
  }

  lemma EmptyValues1()
    ensures FF(0x67452301, 0xefcdab89, 0x98badcfe, 0x10325476, 0x00000080, 7, 0xd76aa478) == 0xa5202774
    ensures FF(0x10325476, 0xa5202774, 0xefcdab89, 0x98badcfe, 0, 12, 0xe8c7b756) == 0xf59592dd
    ensures FF(0x98badcfe, 0xf59592dd, 0xa5202774, 0xefcdab89, 0, 17, 0x242070db) == 0xe7f06b23
    ensures FF(0xefcdab89, 0xe7f06b23, 0xf59592dd, 0xa5202774, 0, 22, 0xc1bdceee) == 0x1b163203
    ensures FF(0xa5202774, 0x1b163203, 0xe7f06b23, 0xf59592dd, 0, 7, 0xf57c0faf) == 0x32033344
    ensures FF(0xf59592dd, 0x32033344, 0x1b163203, 0xe7f06b23, 0, 12, 0x4787c62a) == 0x2f35d494
    ensures FF(0xe7f06b23, 0x2f35d494, 0x32033344, 0x1b163203, 0, 17, 0xa8304613) == 0xf5b158db
    ensures FF(0x1b163203, 0xf5b158db, 0x2f35d494, 0x32033344, 0, 22, 0xfd469501) == 0x9bc13ce9
  {
  }

  lemma EmptyValues2()
    ensures FF(0x32033344, 0x9bc13ce9, 0xf5b158db, 0x2f35d494, 0, 7, 0x698098d8) == 0x3893b991
    ensures FF(0x2f35d494, 0x3893b991, 0x9bc13ce9, 0xf5b158db, 0, 12, 0x8b44f7af) == 0xfce4a312
    ensures FF(0xf5b158db, 0xfce4a312, 0x3893b991, 0x9bc13ce9, 0, 17, 0xffff5bb1) == 0xe1ef0576
    ensures FF(0x9bc13ce9, 0xe1ef0576, 0xfce4a312, 0x3893b991, 0, 22, 0x895cd7be) == 0x70768a29
    ensures FF(0x3893b991, 0x70768a29, 0xe1ef0576, 0xfce4a312, 0, 7, 0x6b901122) == 0xf56c7cf1
    ensures FF(0xfce4a312, 0xf56c7cf1, 0x70768a29, 0xe1ef0576, 0, 12, 0xfd987193) == 0x374943a7
    ensures FF(0xe1ef0576, 0x374943a7, 0xf56c7cf1, 0x70768a29, 0, 17, 0xa679438e) == 0x5aa53f75
    ensures FF(0x70768a29, 0x5aa53f75, 0x374943a7, 0xf56c7cf1, 0, 22, 0x49b40821) == 0xd6819c6a
  {
  }

  lemma EmptyValues3()
    ensures GG(0xf56c7cf1, 0xd6819c6a, 0x5aa53f75, 0x374943a7, 0, 5, 0xf61e2562) == 0x1c7d7513
    ensures GG(0x374943a7, 0x1c7d7513, 0xd6819c6a, 0x5aa53f75, 0, 9, 0xc040b340) == 0x7bd57a3a
    ensures GG(0x5aa53f75, 0x7bd57a3a, 0x1c7d7513, 0xd6819c6a, 0, 14, 0x265e5a51) == 0xc095f13a
    ensures GG(0xd6819c6a, 0xc095f13a, 0x7bd57a3a, 0x1c7d7513, 0x00000080, 20, 0xe9b6c7aa) == 0xbd782e17
    ensures GG(0x1c7d7513, 0xbd782e17, 0xc095f13a, 0x7bd57a3a, 0, 5, 0xd62f105d) == 0x3d1e3e6c
    ensures GG(0x7bd57a3a, 0x3d1e3e6c, 0xbd782e17, 0xc095f13a, 0, 9, 0x02441453) == 0x68b7b3e3
    ensures GG(0xc095f13a, 0x68b7b3e3, 0x3d1e3e6c, 0xbd782e17, 0, 14, 0xd8a1e681) == 0xeb41643e
    ensures GG(0xbd782e17, 0xeb41643e, 0x68b7b3e3, 0x3d1e3e6c, 0, 20, 0xe7d3fbc8) == 0xe422531a
  {
  }

  lemma EmptyValues4()
    ensures GG(0x3d1e3e6c, 0xe422531a, 0xeb41643e, 0x68b7b3e3, 0, 5, 0x21e1cde6) == 0x306ec122
    ensures GG(0x68b7b3e3, 0x306ec122, 0xe422531a, 0xeb41643e, 0, 9, 0xc33707d6) == 0xd28c77c2
    ensures GG(0xeb41643e, 0xd28c77c2, 0x306ec122, 0xe422531a, 0, 14, 0xf4d50d87) == 0xa3c663da
    ensures GG(0xe422531a, 0xa3c663da, 0xd28c77c2, 0x306ec122, 0, 20, 0x455a14ed) == 0xa0572807
    ensures GG(0x306ec122, 0xa0572807, 0xa3c663da, 0xd28c77c2, 0, 5, 0xa9e3e905) == 0x13707036
    ensures GG(0xd28c77c2, 0x13707036, 0xa0572807, 0xa3c663da, 0, 9, 0xfcefa3f8) == 0xae7813db
    ensures GG(0xa3c663da, 0xae7813db, 0x13707036, 0xa0572807, 0, 14, 0x676f02d9) == 0x1c31c384
    ensures GG(0xa0572807, 0x1c31c384, 0xae7813db, 0x13707036, 0, 20, 0x8d2a4c8a) == 0xa2205f1f
  {
  }

  lemma EmptyValues5()
    ensures HH(0x13707036, 0xa2205f1f, 0x1c31c384, 0xae7813db, 0, 4, 0xfffa3942) == 0xdf63eaa1
    ensures HH(0xae7813db, 0xdf63eaa1, 0xa2205f1f, 0x1c31c384, 0, 11, 0x8771f681) == 0xc3689f5b
    ensures HH(0x1c31c384, 0xc3689f5b, 0xdf63eaa1, 0xa2205f1f, 0, 16, 0x6d9d6122) == 0x12f3e755
    ensures HH(0xa2205f1f, 0x12f3e755, 0xc3689f5b, 0xdf63eaa1, 0, 23, 0xfde5380c) == 0x004b6669
    ensures HH(0xdf63eaa1, 0x004b6669, 0x12f3e755, 0xc3689f5b, 0, 4, 0xa4beea44) == 0x5f7a9b2e
    ensures HH(0xc3689f5b, 0x5f7a9b2e, 0x004b6669, 0x12f3e755, 0, 11, 0x4bdecfa9) == 0xabc34e16
    ensures HH(0x12f3e755, 0xabc34e16, 0x5f7a9b2e, 0x004b6669, 0, 16, 0xf6bb4b60) == 0x91ca4cb7
    ensures HH(0x004b6669, 0x91ca4cb7, 0xabc34e16, 0x5f7a9b2e, 0, 23, 0xbebfbc70) == 0xc5dc8c15
  {
  }

  lemma EmptyValues6()
    ensures HH(0x5f7a9b2e, 0xc5dc8c15, 0x91ca4cb7, 0xabc34e16, 0, 4, 0x289b7ec6) == 0x4497169d
    ensures HH(0xabc34e16, 0x4497169d, 0xc5dc8c15, 0x91ca4cb7, 0x00000080, 11, 0xeaa127fa) == 0x76fd93d4
    ensures HH(0x91ca4cb7, 0x76fd93d4, 0x4497169d, 0xc5dc8c15, 0, 16, 0xd4ef3085) == 0xfd95f243
    ensures HH(0xc5dc8c15, 0xfd95f243, 0x76fd93d4, 0x4497169d, 0, 23, 0x04881d05) == 0x0fe32453
    ensures HH(0x4497169d, 0x0fe32453, 0xfd95f243, 0x76fd93d4, 0, 4, 0xd9d4d039) == 0x3f55edfd
    ensures HH(0x76fd93d4, 0x3f55edfd, 0x0fe32453, 0xfd95f243, 0, 11, 0xe6db99e5) == 0x22a31f54
    ensures HH(0xfd95f243, 0x22a31f54, 0x3f55edfd, 0x0fe32453, 0, 16, 0x1fa27cf8) == 0x68d84ea2
    ensures HH(0x0fe32453, 0x68d84ea2, 0x22a31f54, 0x3f55edfd, 0, 23, 0xc4ac5665) == 0xca7d2dbd
  {
  }

  lemma EmptyValues7()
    ensures II(0x3f55edfd, 0xca7d2dbd, 0x68d84ea2, 0x22a31f54, 0x00000080, 6, 0xf4292244) == 0x93aa2577
    ensures II(0x22a31f54, 0x93aa2577, 0xca7d2dbd, 0x68d84ea2, 0, 10, 0x432aff97) == 0x1688dc85
    ensures II(0x68d84ea2, 0x1688dc85, 0x93aa2577, 0xca7d2dbd, 0, 15, 0xab9423a7) == 0xcd85b8cb
    ensures II(0xca7d2dbd, 0xcd85b8cb, 0x1688dc85, 0x93aa2577, 0, 21, 0xfc93a039) == 0x561e0689
    ensures II(0x93aa2577, 0x561e0689, 0xcd85b8cb, 0x1688dc85, 0, 6, 0x655b59c3) == 0x5625a114
    ensures II(0x1688dc85, 0x5625a114, 0x561e0689, 0xcd85b8cb, 0, 10, 0x8f0ccc92) == 0x3450f42b
    ensures II(0xcd85b8cb, 0x3450f42b, 0x5625a114, 0x561e0689, 0, 15, 0xffeff47d) == 0x392ad0d0
    ensures II(0x561e0689, 0x392ad0d0, 0x3450f42b, 0x5625a114, 0, 21, 0x85845dd1) == 0x1e77fa61
  {
  }

  lemma EmptyValues8()
    ensures II(0x5625a114, 0x1e77fa61, 0x392ad0d0, 0x3450f42b, 0, 6, 0x6fa87e4f) == 0x474a9c8c
    ensures II(0x3450f42b, 0x474a9c8c, 0x1e77fa61, 0x392ad0d0, 0, 10, 0xfe2ce6e0) == 0xdfce00bc
    ensures II(0x392ad0d0, 0xdfce00bc, 0x474a9c8c, 0x1e77fa61, 0, 15, 0xa3014314) == 0x36594b14
    ensures II(0x1e77fa61, 0x36594b14, 0xdfce00bc, 0x474a9c8c, 0, 21, 0x4e0811a1) == 0x30130182
    ensures II(0x474a9c8c, 0x30130182, 0x36594b14, 0xdfce00bc, 0, 6, 0xf7537e82) == 0x7246fad3
    ensures II(0xdfce00bc, 0x7246fad3, 0x30130182, 0x36594b14, 0, 10, 0xbd3af235) == 0x6e10a476
    ensures II(0x36594b14, 0x6e10a476, 0x7246fad3, 0x30130182, 0, 15, 0x2ad7d2bb) == 0xff4ea3eb
    ensures II(0x30130182, 0xff4ea3eb, 0x6e10a476, 0x7246fad3, 0, 21, 0xeb86d391) == 0x14e45506
  {
  }

  lemma EmptySteps1To8(x: seq<bv32>)
    requires BlockOf(x, 0x00000080, 0) && Steps(0, INITIAL, x) == Registers(0x67452301, 0xefcdab89, 0x98badcfe, 0x10325476)
    ensures Steps(8, INITIAL, x) == Registers(0x32033344, 0x9bc13ce9, 0xf5b158db, 0x2f35d494)
  {
    hide Mix, F, G, H, I, Steps, Sine;
    EmptyValues1();
    Sines1To4();
    Sines5To8();
    StepIs(0, INITIAL, x, Registers(0x10325476, 0xa5202774, 0xefcdab89, 0x98badcfe));
    StepIs(1, INITIAL, x, Registers(0x98badcfe, 0xf59592dd, 0xa5202774, 0xefcdab89));
    StepIs(2, INITIAL, x, Registers(0xefcdab89, 0xe7f06b23, 0xf59592dd, 0xa5202774));
    StepIs(3, INITIAL, x, Registers(0xa5202774, 0x1b163203, 0xe7f06b23, 0xf59592dd));
    StepIs(4, INITIAL, x, Registers(0xf59592dd, 0x32033344, 0x1b163203, 0xe7f06b23));
    StepIs(5, INITIAL, x, Registers(0xe7f06b23, 0x2f35d494, 0x32033344, 0x1b163203));
    StepIs(6, INITIAL, x, Registers(0x1b163203, 0xf5b158db, 0x2f35d494, 0x32033344));
    StepIs(7, INITIAL, x, Registers(0x32033344, 0x9bc13ce9, 0xf5b158db, 0x2f35d494));
  }

  lemma EmptySteps9To16(x: seq<bv32>)
    requires BlockOf(x, 0x00000080, 0) && Steps(8, INITIAL, x) == Registers(0x32033344, 0x9bc13ce9, 0xf5b158db, 0x2f35d494)
    ensures Steps(16, INITIAL, x) == Registers(0xf56c7cf1, 0xd6819c6a, 0x5aa53f75, 0x374943a7)
  {
    hide Mix, F, G, H, I, Steps, Sine;
    EmptyValues2();
    Sines9To12();
    Sines13To16();
    StepIs(8, INITIAL, x, Registers(0x2f35d494, 0x3893b991, 0x9bc13ce9, 0xf5b158db));
    StepIs(9, INITIAL, x, Registers(0xf5b158db, 0xfce4a312, 0x3893b991, 0x9bc13ce9));
    StepIs(10, INITIAL, x, Registers(0x9bc13ce9, 0xe1ef0576, 0xfce4a312, 0x3893b991));
    StepIs(11, INITIAL, x, Registers(0x3893b991, 0x70768a29, 0xe1ef0576, 0xfce4a312));
    StepIs(12, INITIAL, x, Registers(0xfce4a312, 0xf56c7cf1, 0x70768a29, 0xe1ef0576));
    StepIs(13, INITIAL, x, Registers(0xe1ef0576, 0x374943a7, 0xf56c7cf1, 0x70768a29));
    StepIs(14, INITIAL, x, Registers(0x70768a29, 0x5aa53f75, 0x374943a7, 0xf56c7cf1));
    StepIs(15, INITIAL, x, Registers(0xf56c7cf1, 0xd6819c6a, 0x5aa53f75, 0x374943a7));
  }

  lemma EmptySteps17To24(x: seq<bv32>)
    requires BlockOf(x, 0x00000080, 0) && Steps(16, INITIAL, x) == Registers(0xf56c7cf1, 0xd6819c6a, 0x5aa53f75, 0x374943a7)
    ensures Steps(24, INITIAL, x) == Registers(0x3d1e3e6c, 0xe422531a, 0xeb41643e, 0x68b7b3e3)
  {
    hide Mix, F, G, H, I, Steps, Sine;
    EmptyValues3();
    Sines17To20();
    Sines21To24();
    StepIs(16, INITIAL, x, Registers(0x374943a7, 0x1c7d7513, 0xd6819c6a, 0x5aa53f75));
    StepIs(17, INITIAL, x, Registers(0x5aa53f75, 0x7bd57a3a, 0x1c7d7513, 0xd6819c6a));
    StepIs(18, INITIAL, x, Registers(0xd6819c6a, 0xc095f13a, 0x7bd57a3a, 0x1c7d7513));
    StepIs(19, INITIAL, x, Registers(0x1c7d7513, 0xbd782e17, 0xc095f13a, 0x7bd57a3a));
    StepIs(20, INITIAL, x, Registers(0x7bd57a3a, 0x3d1e3e6c, 0xbd782e17, 0xc095f13a));
    StepIs(21, INITIAL, x, Registers(0xc095f13a, 0x68b7b3e3, 0x3d1e3e6c, 0xbd782e17));
    StepIs(22, INITIAL, x, Registers(0xbd782e17, 0xeb41643e, 0x68b7b3e3, 0x3d1e3e6c));
    StepIs(23, INITIAL, x, Registers(0x3d1e3e6c, 0xe422531a, 0xeb41643e, 0x68b7b3e3));
  }

  lemma EmptySteps25To32(x: seq<bv32>)
    requires BlockOf(x, 0x00000080, 0) && Steps(24, INITIAL, x) == Registers(0x3d1e3e6c, 0xe422531a, 0xeb41643e, 0x68b7b3e3)
    ensures Steps(32, INITIAL, x) == Registers(0x13707036, 0xa2205f1f, 0x1c31c384, 0xae7813db)
  {
    hide Mix, F, G, H, I, Steps, Sine;
    EmptyValues4();
    Sines25To28();
    Sines29To32();
    StepIs(24, INITIAL, x, Registers(0x68b7b3e3, 0x306ec122, 0xe422531a, 0xeb41643e));
    StepIs(25, INITIAL, x, Registers(0xeb41643e, 0xd28c77c2, 0x306ec122, 0xe422531a));
    StepIs(26, INITIAL, x, Registers(0xe422531a, 0xa3c663da, 0xd28c77c2, 0x306ec122));
    StepIs(27, INITIAL, x, Registers(0x306ec122, 0xa0572807, 0xa3c663da, 0xd28c77c2));
    StepIs(28, INITIAL, x, Registers(0xd28c77c2, 0x13707036, 0xa0572807, 0xa3c663da));
    StepIs(29, INITIAL, x, Registers(0xa3c663da, 0xae7813db, 0x13707036, 0xa0572807));
    StepIs(30, INITIAL, x, Registers(0xa0572807, 0x1c31c384, 0xae7813db, 0x13707036));
    StepIs(31, INITIAL, x, Registers(0x13707036, 0xa2205f1f, 0x1c31c384, 0xae7813db));
  }

  lemma EmptySteps33To40(x: seq<bv32>)
    requires BlockOf(x, 0x00000080, 0) && Steps(32, INITIAL, x) == Registers(0x13707036, 0xa2205f1f, 0x1c31c384, 0xae7813db)
    ensures Steps(40, INITIAL, x) == Registers(0x5f7a9b2e, 0xc5dc8c15, 0x91ca4cb7, 0xabc34e16)
  {
    hide Mix, F, G, H, I, Steps, Sine;
    EmptyValues5();
    Sines33To36();
    Sines37To40();
    StepIs(32, INITIAL, x, Registers(0xae7813db, 0xdf63eaa1, 0xa2205f1f, 0x1c31c384));
    StepIs(33, INITIAL, x, Registers(0x1c31c384, 0xc3689f5b, 0xdf63eaa1, 0xa2205f1f));
    StepIs(34, INITIAL, x, Registers(0xa2205f1f, 0x12f3e755, 0xc3689f5b, 0xdf63eaa1));
    StepIs(35, INITIAL, x, Registers(0xdf63eaa1, 0x004b6669, 0x12f3e755, 0xc3689f5b));
    StepIs(36, INITIAL, x, Registers(0xc3689f5b, 0x5f7a9b2e, 0x004b6669, 0x12f3e755));
    StepIs(37, INITIAL, x, Registers(0x12f3e755, 0xabc34e16, 0x5f7a9b2e, 0x004b6669));
    StepIs(38, INITIAL, x, Registers(0x004b6669, 0x91ca4cb7, 0xabc34e16, 0x5f7a9b2e));
    StepIs(39, INITIAL, x, Registers(0x5f7a9b2e, 0xc5dc8c15, 0x91ca4cb7, 0xabc34e16));
  }

  lemma EmptySteps41To48(x: seq<bv32>)
    requires BlockOf(x, 0x00000080, 0) && Steps(40, INITIAL, x) == Registers(0x5f7a9b2e, 0xc5dc8c15, 0x91ca4cb7, 0xabc34e16)
    ensures Steps(48, INITIAL, x) == Registers(0x3f55edfd, 0xca7d2dbd, 0x68d84ea2, 0x22a31f54)
  {
    hide Mix, F, G, H, I, Steps, Sine;
    EmptyValues6();
    Sines41To44();
    Sines45To48();
    StepIs(40, INITIAL, x, Registers(0xabc34e16, 0x4497169d, 0xc5dc8c15, 0x91ca4cb7));
    StepIs(41, INITIAL, x, Registers(0x91ca4cb7, 0x76fd93d4, 0x4497169d, 0xc5dc8c15));
    StepIs(42, INITIAL, x, Registers(0xc5dc8c15, 0xfd95f243, 0x76fd93d4, 0x4497169d));
    StepIs(43, INITIAL, x, Registers(0x4497169d, 0x0fe32453, 0xfd95f243, 0x76fd93d4));
    StepIs(44, INITIAL, x, Registers(0x76fd93d4, 0x3f55edfd, 0x0fe32453, 0xfd95f243));
    StepIs(45, INITIAL, x, Registers(0xfd95f243, 0x22a31f54, 0x3f55edfd, 0x0fe32453));
    StepIs(46, INITIAL, x, Registers(0x0fe32453, 0x68d84ea2, 0x22a31f54, 0x3f55edfd));
    StepIs(47, INITIAL, x, Registers(0x3f55edfd, 0xca7d2dbd, 0x68d84ea2, 0x22a31f54));
  }

  lemma EmptySteps49To56(x: seq<bv32>)
    requires BlockOf(x, 0x00000080, 0) && Steps(48, INITIAL, x) == Registers(0x3f55edfd, 0xca7d2dbd, 0x68d84ea2, 0x22a31f54)
    ensures Steps(56, INITIAL, x) == Registers(0x5625a114, 0x1e77fa61, 0x392ad0d0, 0x3450f42b)
  {
    hide Mix, F, G, H, I, Steps, Sine;
    EmptyValues7();
    Sines49To52();
    Sines53To56();
    StepIs(48, INITIAL, x, Registers(0x22a31f54, 0x93aa2577, 0xca7d2dbd, 0x68d84ea2));
    StepIs(49, INITIAL, x, Registers(0x68d84ea2, 0x1688dc85, 0x93aa2577, 0xca7d2dbd));
    StepIs(50, INITIAL, x, Registers(0xca7d2dbd, 0xcd85b8cb, 0x1688dc85, 0x93aa2577));
    StepIs(51, INITIAL, x, Registers(0x93aa2577, 0x561e0689, 0xcd85b8cb, 0x1688dc85));
    StepIs(52, INITIAL, x, Registers(0x1688dc85, 0x5625a114, 0x561e0689, 0xcd85b8cb));
    StepIs(53, INITIAL, x, Registers(0xcd85b8cb, 0x3450f42b, 0x5625a114, 0x561e0689));
    StepIs(54, INITIAL, x, Registers(0x561e0689, 0x392ad0d0, 0x3450f42b, 0x5625a114));
    StepIs(55, INITIAL, x, Registers(0x5625a114, 0x1e77fa61, 0x392ad0d0, 0x3450f42b));
  }

  lemma EmptySteps57To64(x: seq<bv32>)
    requires BlockOf(x, 0x00000080, 0) && Steps(56, INITIAL, x) == Registers(0x5625a114, 0x1e77fa61, 0x392ad0d0, 0x3450f42b)
    ensures Steps(64, INITIAL, x) == Registers(0x7246fad3, 0x14e45506, 0xff4ea3eb, 0x6e10a476)
  {
    hide Mix, F, G, H, I, Steps, Sine;
    EmptyValues8();
    Sines57To60();
    Sines61To64();
    StepIs(56, INITIAL, x, Registers(0x3450f42b, 0x474a9c8c, 0x1e77fa61, 0x392ad0d0));
    StepIs(57, INITIAL, x, Registers(0x392ad0d0, 0xdfce00bc, 0x474a9c8c, 0x1e77fa61));
    StepIs(58, INITIAL, x, Registers(0x1e77fa61, 0x36594b14, 0xdfce00bc, 0x474a9c8c));
    StepIs(59, INITIAL, x, Registers(0x474a9c8c, 0x30130182, 0x36594b14, 0xdfce00bc));
    StepIs(60, INITIAL, x, Registers(0xdfce00bc, 0x7246fad3, 0x30130182, 0x36594b14));
    StepIs(61, INITIAL, x, Registers(0x36594b14, 0x6e10a476, 0x7246fad3, 0x30130182));
    StepIs(62, INITIAL, x, Registers(0x30130182, 0xff4ea3eb, 0x6e10a476, 0x7246fad3));
    StepIs(63, INITIAL, x, Registers(0x7246fad3, 0x14e45506, 0xff4ea3eb, 0x6e10a476));
  }

  lemma EmptySteps(x: seq<bv32>)
    requires BlockOf(x, 0x00000080, 0)
    ensures Steps(64, INITIAL, x) == Registers(0x7246fad3, 0x14e45506, 0xff4ea3eb, 0x6e10a476)
  {
    NoSteps(x);
    hide BlockOf, Steps;
    EmptySteps1To8(x);
    EmptySteps9To16(x);
    EmptySteps17To24(x);
    EmptySteps25To32(x);
    EmptySteps33To40(x);
    EmptySteps41To48(x);
    EmptySteps49To56(x);
    EmptySteps57To64(x);
  }

  lemma AbcValues1()
    ensures FF(0x67452301, 0xefcdab89, 0x98badcfe, 0x10325476, 0x80636261, 7, 0xd76aa478) == 0xd6d117b4
    ensures FF(0x10325476, 0xd6d117b4, 0xefcdab89, 0x98badcfe, 0, 12, 0xe8c7b756) == 0x344a8432
    ensures FF(0x98badcfe, 0x344a8432, 0xd6d117b4, 0xefcdab89, 0, 17, 0x242070db) == 0x2f6fbd72
    ensures FF(0xefcdab89, 0x2f6fbd72, 0x344a8432, 0xd6d117b4, 0, 22, 0xc1bdceee) == 0x7ad956f2
    ensures FF(0xd6d117b4, 0x7ad956f2, 0x2f6fbd72, 0x344a8432, 0, 7, 0xf57c0faf) == 0xc73741ef
    ensures FF(0x344a8432, 0xc73741ef, 0x7ad956f2, 0x2f6fbd72, 0, 12, 0x4787c62a) == 0x8bac3051
    ensures FF(0x2f6fbd72, 0x8bac3051, 0xc73741ef, 0x7ad956f2, 0, 17, 0xa8304613) == 0x207dc67b
    ensures FF(0x7ad956f2, 0x207dc67b, 0x8bac3051, 0xc73741ef, 0, 22, 0xfd469501) == 0x928d99f6
  {
  }

  lemma AbcValues2()
    ensures FF(0xc73741ef, 0x928d99f6, 0x207dc67b, 0x8bac3051, 0, 7, 0x698098d8) == 0x854b3712
    ensures FF(0x8bac3051, 0x854b3712, 0x928d99f6, 0x207dc67b, 0, 12, 0x8b44f7af) == 0x74e2f284
    ensures FF(0x207dc67b, 0x74e2f284, 0x854b3712, 0x928d99f6, 0, 17, 0xffff5bb1) == 0x3020401c
    ensures FF(0x928d99f6, 0x3020401c, 0x74e2f284, 0x854b3712, 0, 22, 0x895cd7be) == 0x5ed49596
    ensures FF(0x854b3712, 0x5ed49596, 0x3020401c, 0x74e2f284, 0, 7, 0x6b901122) == 0xdda9b9a6
    ensures FF(0x74e2f284, 0xdda9b9a6, 0x5ed49596, 0x3020401c, 0, 12, 0xfd987193) == 0xa1051895
    ensures FF(0x3020401c, 0xa1051895, 0xdda9b9a6, 0x5ed49596, 0x00000018, 17, 0xa679438e) == 0xe396856b
    ensures FF(0x5ed49596, 0xe396856b, 0xa1051895, 0xdda9b9a6, 0, 22, 0x49b40821) == 0x72aff2e0
  {
  }

  lemma AbcValues3()
    ensures GG(0xdda9b9a6, 0x72aff2e0, 0xe396856b, 0xa1051895, 0, 5, 0xf61e2562) == 0x3e9e9126
    ensures GG(0xa1051895, 0x3e9e9126, 0x72aff2e0, 0xe396856b, 0, 9, 0xc040b340) == 0x4a1d804e
    ensures GG(0xe396856b, 0x4a1d804e, 0x3e9e9126, 0x72aff2e0, 0, 14, 0x265e5a51) == 0xe25e1652
    ensures GG(0x72aff2e0, 0xe25e1652, 0x4a1d804e, 0x3e9e9126, 0x80636261, 20, 0xe9b6c7aa) == 0xb5b204e4
    ensures GG(0x3e9e9126, 0xb5b204e4, 0xe25e1652, 0x4a1d804e, 0, 5, 0xd62f105d) == 0x59a8ffda
    ensures GG(0x4a1d804e, 0x59a8ffda, 0xb5b204e4, 0xe25e1652, 0, 9, 0x02441453) == 0x6d002f1e
    ensures GG(0xe25e1652, 0x6d002f1e, 0x59a8ffda, 0xb5b204e4, 0, 14, 0xd8a1e681) == 0xabfc7920
    ensures GG(0xb5b204e4, 0xabfc7920, 0x6d002f1e, 0x59a8ffda, 0, 20, 0xe7d3fbc8) == 0x47092c07
  {
  }

  lemma AbcValues4()
    ensures GG(0x59a8ffda, 0x47092c07, 0xabfc7920, 0x6d002f1e, 0, 5, 0x21e1cde6) == 0xb7f268cf
    ensures GG(0x6d002f1e, 0xb7f268cf, 0x47092c07, 0xabfc7920, 0x00000018, 9, 0xc33707d6) == 0x09388eff
    ensures GG(0xabfc7920, 0x09388eff, 0xb7f268cf, 0x47092c07, 0, 14, 0xf4d50d87) == 0xfe1623b1
    ensures GG(0x47092c07, 0xfe1623b1, 0x09388eff, 0xb7f268cf, 0, 20, 0x455a14ed) == 0x786acb8f
    ensures GG(0xb7f268cf, 0x786acb8f, 0xfe1623b1, 0x09388eff, 0, 5, 0xa9e3e905) == 0x790a77fb
    ensures GG(0x09388eff, 0x790a77fb, 0x786acb8f, 0xfe1623b1, 0, 9, 0xfcefa3f8) == 0x9f47e4f8
    ensures GG(0xfe1623b1, 0x9f47e4f8, 0x790a77fb, 0x786acb8f, 0, 14, 0x676f02d9) == 0xa62884aa
    ensures GG(0x786acb8f, 0xa62884aa, 0x9f47e4f8, 0x790a77fb, 0, 20, 0x8d2a4c8a) == 0x726342d3
  {
  }

  lemma AbcValues5()
    ensures HH(0x790a77fb, 0x726342d3, 0xa62884aa, 0x9f47e4f8, 0, 4, 0xfffa3942) == 0xb3707ebf
    ensures HH(0x9f47e4f8, 0xb3707ebf, 0x726342d3, 0xa62884aa, 0, 11, 0x8771f681) == 0x60127b2e
    ensures HH(0xa62884aa, 0x60127b2e, 0xb3707ebf, 0x726342d3, 0, 16, 0x6d9d6122) == 0x8d212ff5
    ensures HH(0x726342d3, 0x8d212ff5, 0x60127b2e, 0xb3707ebf, 0x00000018, 23, 0xfde5380c) == 0x3b0875c7
    ensures HH(0xb3707ebf, 0x3b0875c7, 0x8d212ff5, 0x60127b2e, 0, 4, 0xa4beea44) == 0x21b117b9
    ensures HH(0x60127b2e, 0x21b117b9, 0x3b0875c7, 0x8d212ff5, 0, 11, 0x4bdecfa9) == 0x6e7429d5
    ensures HH(0x8d212ff5, 0x6e7429d5, 0x21b117b9, 0x3b0875c7, 0, 16, 0xf6bb4b60) == 0x3575227e
    ensures HH(0x3b0875c7, 0x3575227e, 0x6e7429d5, 0x21b117b9, 0, 23, 0xbebfbc70) == 0x5a2f5ea5
  {
  }

  lemma AbcValues6()
    ensures HH(0x21b117b9, 0x5a2f5ea5, 0x3575227e, 0x6e7429d5, 0, 4, 0x289b7ec6) == 0x11de1779
    ensures HH(0x6e7429d5, 0x11de1779, 0x5a2f5ea5, 0x3575227e, 0x80636261, 11, 0xeaa127fa) == 0xfadcaa38
    ensures HH(0x3575227e, 0xfadcaa38, 0x11de1779, 0x5a2f5ea5, 0, 16, 0xd4ef3085) == 0x31c465ca
    ensures HH(0x5a2f5ea5, 0x31c465ca, 0xfadcaa38, 0x11de1779, 0, 23, 0x04881d05) == 0x4c6124f4
    ensures HH(0x11de1779, 0x4c6124f4, 0x31c465ca, 0xfadcaa38, 0, 4, 0xd9d4d039) == 0x7f2e507b
    ensures HH(0xfadcaa38, 0x7f2e507b, 0x4c6124f4, 0x31c465ca, 0, 11, 0xe6db99e5) == 0x99d9679d
    ensures HH(0x31c465ca, 0x99d9679d, 0x7f2e507b, 0x4c6124f4, 0, 16, 0x1fa27cf8) == 0x8fae6399
    ensures HH(0x4c6124f4, 0x8fae6399, 0x99d9679d, 0x7f2e507b, 0, 23, 0xc4ac5665) == 0x7beb9700
  {
  }

  lemma AbcValues7()
    ensures II(0x7f2e507b, 0x7beb9700, 0x8fae6399, 0x99d9679d, 0x80636261, 6, 0xf4292244) == 0x7b201df8
    ensures II(0x99d9679d, 0x7b201df8, 0x7beb9700, 0x8fae6399, 0, 10, 0x432aff97) == 0xf4e8e96e
    ensures II(0x8fae6399, 0xf4e8e96e, 0x7b201df8, 0x7beb9700, 0x00000018, 15, 0xab9423a7) == 0xb298cefd
    ensures II(0x7beb9700, 0xb298cefd, 0xf4e8e96e, 0x7b201df8, 0, 21, 0xfc93a039) == 0x8bf025c4
    ensures II(0x7b201df8, 0x8bf025c4, 0xb298cefd, 0xf4e8e96e, 0, 6, 0x655b59c3) == 0x06cc5e8a
    ensures II(0xf4e8e96e, 0x06cc5e8a, 0x8bf025c4, 0xb298cefd, 0, 10, 0x8f0ccc92) == 0x5b0d97aa
    ensures II(0xb298cefd, 0x5b0d97aa, 0x06cc5e8a, 0x8bf025c4, 0, 15, 0xffeff47d) == 0x7d632dd0
    ensures II(0x8bf025c4, 0x7d632dd0, 0x5b0d97aa, 0x06cc5e8a, 0, 21, 0x85845dd1) == 0x3bfa2c27
  {
  }

  lemma AbcValues8()
    ensures II(0x06cc5e8a, 0x3bfa2c27, 0x7d632dd0, 0x5b0d97aa, 0, 6, 0x6fa87e4f) == 0x7f81cc35
    ensures II(0x5b0d97aa, 0x7f81cc35, 0x3bfa2c27, 0x7d632dd0, 0, 10, 0xfe2ce6e0) == 0x094454ab
    ensures II(0x7d632dd0, 0x094454ab, 0x7f81cc35, 0x3bfa2c27, 0, 15, 0xa3014314) == 0x4f9dbe3f
    ensures II(0x3bfa2c27, 0x4f9dbe3f, 0x094454ab, 0x7f81cc35, 0, 21, 0x4e0811a1) == 0x7327d604
    ensures II(0x7f81cc35, 0x7327d604, 0x4f9dbe3f, 0x094454ab, 0, 6, 0xf7537e82) == 0x310ade8f
    ensures II(0x094454ab, 0x310ade8f, 0x7327d604, 0x4f9dbe3f, 0, 10, 0xbd3af235) == 0x624d8cb2
    ensures II(0x4f9dbe3f, 0x624d8cb2, 0x310ade8f, 0x7327d604, 0, 15, 0x2ad7d2bb) == 0xe484b9d8
    ensures II(0x7327d604, 0xe484b9d8, 0x624d8cb2, 0x310ade8f, 0, 21, 0xeb86d391) == 0xc08226b3
  {
  }

  lemma AbcSteps1To8(x: seq<bv32>)
    requires BlockOf(x, 0x80636261, 24) && Steps(0, INITIAL, x) == Registers(0x67452301, 0xefcdab89, 0x98badcfe, 0x10325476)
    ensures Steps(8, INITIAL, x) == Registers(0xc73741ef, 0x928d99f6, 0x207dc67b, 0x8bac3051)
  {
    hide Mix, F, G, H, I, Steps, Sine;
    AbcValues1();
    Sines1To4();
    Sines5To8();
    StepIs(0, INITIAL, x, Registers(0x10325476, 0xd6d117b4, 0xefcdab89, 0x98badcfe));
    StepIs(1, INITIAL, x, Registers(0x98badcfe, 0x344a8432, 0xd6d117b4, 0xefcdab89));
    StepIs(2, INITIAL, x, Registers(0xefcdab89, 0x2f6fbd72, 0x344a8432, 0xd6d117b4));
    StepIs(3, INITIAL, x, Registers(0xd6d117b4, 0x7ad956f2, 0x2f6fbd72, 0x344a8432));
    StepIs(4, INITIAL, x, Registers(0x344a8432, 0xc73741ef, 0x7ad956f2, 0x2f6fbd72));
    StepIs(5, INITIAL, x, Registers(0x2f6fbd72, 0x8bac3051, 0xc73741ef, 0x7ad956f2));
    StepIs(6, INITIAL, x, Registers(0x7ad956f2, 0x207dc67b, 0x8bac3051, 0xc73741ef));
    StepIs(7, INITIAL, x, Registers(0xc73741ef, 0x928d99f6, 0x207dc67b, 0x8bac3051));
  }

  lemma AbcSteps9To16(x: seq<bv32>)
    requires BlockOf(x, 0x80636261, 24) && Steps(8, INITIAL, x) == Registers(0xc73741ef, 0x928d99f6, 0x207dc67b, 0x8bac3051)
    ensures Steps(16, INITIAL, x) == Registers(0xdda9b9a6, 0x72aff2e0, 0xe396856b, 0xa1051895)
  {
    hide Mix, F, G, H, I, Steps, Sine;
    AbcValues2();
    Sines9To12();
    Sines13To16();
    StepIs(8, INITIAL, x, Registers(0x8bac3051, 0x854b3712, 0x928d99f6, 0x207dc67b));
    StepIs(9, INITIAL, x, Registers(0x207dc67b, 0x74e2f284, 0x854b3712, 0x928d99f6));
    StepIs(10, INITIAL, x, Registers(0x928d99f6, 0x3020401c, 0x74e2f284, 0x854b3712));
    StepIs(11, INITIAL, x, Registers(0x854b3712, 0x5ed49596, 0x3020401c, 0x74e2f284));
    StepIs(12, INITIAL, x, Registers(0x74e2f284, 0xdda9b9a6, 0x5ed49596, 0x3020401c));
    StepIs(13, INITIAL, x, Registers(0x3020401c, 0xa1051895, 0xdda9b9a6, 0x5ed49596));
    StepIs(14, INITIAL, x, Registers(0x5ed49596, 0xe396856b, 0xa1051895, 0xdda9b9a6));
    StepIs(15, INITIAL, x, Registers(0xdda9b9a6, 0x72aff2e0, 0xe396856b, 0xa1051895));
  }

  lemma AbcSteps17To24(x: seq<bv32>)
    requires BlockOf(x, 0x80636261, 24) && Steps(16, INITIAL, x) == Registers(0xdda9b9a6, 0x72aff2e0, 0xe396856b, 0xa1051895)
    ensures Steps(24, INITIAL, x) == Registers(0x59a8ffda, 0x47092c07, 0xabfc7920, 0x6d002f1e)
  {
    hide Mix, F, G, H, I, Steps, Sine;
    AbcValues3();
    Sines17To20();
    Sines21To24();
    StepIs(16, INITIAL, x, Registers(0xa1051895, 0x3e9e9126, 0x72aff2e0, 0xe396856b));
    StepIs(17, INITIAL, x, Registers(0xe396856b, 0x4a1d804e, 0x3e9e9126, 0x72aff2e0));
    StepIs(18, INITIAL, x, Registers(0x72aff2e0, 0xe25e1652, 0x4a1d804e, 0x3e9e9126));
    StepIs(19, INITIAL, x, Registers(0x3e9e9126, 0xb5b204e4, 0xe25e1652, 0x4a1d804e));
    StepIs(20, INITIAL, x, Registers(0x4a1d804e, 0x59a8ffda, 0xb5b204e4, 0xe25e1652));
    StepIs(21, INITIAL, x, Registers(0xe25e1652, 0x6d002f1e, 0x59a8ffda, 0xb5b204e4));
    StepIs(22, INITIAL, x, Registers(0xb5b204e4, 0xabfc7920, 0x6d002f1e, 0x59a8ffda));
    StepIs(23, INITIAL, x, Registers(0x59a8ffda, 0x47092c07, 0xabfc7920, 0x6d002f1e));
  }

  lemma AbcSteps25To32(x: seq<bv32>)
    requires BlockOf(x, 0x80636261, 24) && Steps(24, INITIAL, x) == Registers(0x59a8ffda, 0x47092c07, 0xabfc7920, 0x6d002f1e)
    ensures Steps(32, INITIAL, x) == Registers(0x790a77fb, 0x726342d3, 0xa62884aa, 0x9f47e4f8)
  {
    hide Mix, F, G, H, I, Steps, Sine;
    AbcValues4();
    Sines25To28();
    Sines29To32();
    StepIs(24, INITIAL, x, Registers(0x6d002f1e, 0xb7f268cf, 0x47092c07, 0xabfc7920));
    StepIs(25, INITIAL, x, Registers(0xabfc7920, 0x09388eff, 0xb7f268cf, 0x47092c07));
    StepIs(26, INITIAL, x, Registers(0x47092c07, 0xfe1623b1, 0x09388eff, 0xb7f268cf));
    StepIs(27, INITIAL, x, Registers(0xb7f268cf, 0x786acb8f, 0xfe1623b1, 0x09388eff));
    StepIs(28, INITIAL, x, Registers(0x09388eff, 0x790a77fb, 0x786acb8f, 0xfe1623b1));
    StepIs(29, INITIAL, x, Registers(0xfe1623b1, 0x9f47e4f8, 0x790a77fb, 0x786acb8f));
    StepIs(30, INITIAL, x, Registers(0x786acb8f, 0xa62884aa, 0x9f47e4f8, 0x790a77fb));
    StepIs(31, INITIAL, x, Registers(0x790a77fb, 0x726342d3, 0xa62884aa, 0x9f47e4f8));
  }

  lemma AbcSteps33To40(x: seq<bv32>)
    requires BlockOf(x, 0x80636261, 24) && Steps(32, INITIAL, x) == Registers(0x790a77fb, 0x726342d3, 0xa62884aa, 0x9f47e4f8)
    ensures Steps(40, INITIAL, x) == Registers(0x21b117b9, 0x5a2f5ea5, 0x3575227e, 0x6e7429d5)
  {
    hide Mix, F, G, H, I, Steps, Sine;
    AbcValues5();
    Sines33To36();
    Sines37To40();
    StepIs(32, INITIAL, x, Registers(0x9f47e4f8, 0xb3707ebf, 0x726342d3, 0xa62884aa));
    StepIs(33, INITIAL, x, Registers(0xa62884aa, 0x60127b2e, 0xb3707ebf, 0x726342d3));
    StepIs(34, INITIAL, x, Registers(0x726342d3, 0x8d212ff5, 0x60127b2e, 0xb3707ebf));
    StepIs(35, INITIAL, x, Registers(0xb3707ebf, 0x3b0875c7, 0x8d212ff5, 0x60127b2e));
    StepIs(36, INITIAL, x, Registers(0x60127b2e, 0x21b117b9, 0x3b0875c7, 0x8d212ff5));
    StepIs(37, INITIAL, x, Registers(0x8d212ff5, 0x6e7429d5, 0x21b117b9, 0x3b0875c7));
    StepIs(38, INITIAL, x, Registers(0x3b0875c7, 0x3575227e, 0x6e7429d5, 0x21b117b9));
    StepIs(39, INITIAL, x, Registers(0x21b117b9, 0x5a2f5ea5, 0x3575227e, 0x6e7429d5));
  }

  lemma AbcSteps41To48(x: seq<bv32>)
    requires BlockOf(x, 0x80636261, 24) && Steps(40, INITIAL, x) == Registers(0x21b117b9, 0x5a2f5ea5, 0x3575227e, 0x6e7429d5)
    ensures Steps(48, INITIAL, x) == Registers(0x7f2e507b, 0x7beb9700, 0x8fae6399, 0x99d9679d)
  {
    hide Mix, F, G, H, I, Steps, Sine;
    AbcValues6();
    Sines41To44();
    Sines45To48();
    StepIs(40, INITIAL, x, Registers(0x6e7429d5, 0x11de1779, 0x5a2f5ea5, 0x3575227e));
    StepIs(41, INITIAL, x, Registers(0x3575227e, 0xfadcaa38, 0x11de1779, 0x5a2f5ea5));
    StepIs(42, INITIAL, x, Registers(0x5a2f5ea5, 0x31c465ca, 0xfadcaa38, 0x11de1779));
    StepIs(43, INITIAL, x, Registers(0x11de1779, 0x4c6124f4, 0x31c465ca, 0xfadcaa38));
    StepIs(44, INITIAL, x, Registers(0xfadcaa38, 0x7f2e507b, 0x4c6124f4, 0x31c465ca));
    StepIs(45, INITIAL, x, Registers(0x31c465ca, 0x99d9679d, 0x7f2e507b, 0x4c6124f4));
    StepIs(46, INITIAL, x, Registers(0x4c6124f4, 0x8fae6399, 0x99d9679d, 0x7f2e507b));
    StepIs(47, INITIAL, x, Registers(0x7f2e507b, 0x7beb9700, 0x8fae6399, 0x99d9679d));
  }

  lemma AbcSteps49To56(x: seq<bv32>)
    requires BlockOf(x, 0x80636261, 24) && Steps(48, INITIAL, x) == Registers(0x7f2e507b, 0x7beb9700, 0x8fae6399, 0x99d9679d)
    ensures Steps(56, INITIAL, x) == Registers(0x06cc5e8a, 0x3bfa2c27, 0x7d632dd0, 0x5b0d97aa)
  {
    hide Mix, F, G, H, I, Steps, Sine;
    AbcValues7();
    Sines49To52();
    Sines53To56();
    StepIs(48, INITIAL, x, Registers(0x99d9679d, 0x7b201df8, 0x7beb9700, 0x8fae6399));
    StepIs(49, INITIAL, x, Registers(0x8fae6399, 0xf4e8e96e, 0x7b201df8, 0x7beb9700));
    StepIs(50, INITIAL, x, Registers(0x7beb9700, 0xb298cefd, 0xf4e8e96e, 0x7b201df8));
    StepIs(51, INITIAL, x, Registers(0x7b201df8, 0x8bf025c4, 0xb298cefd, 0xf4e8e96e));
    StepIs(52, INITIAL, x, Registers(0xf4e8e96e, 0x06cc5e8a, 0x8bf025c4, 0xb298cefd));
    StepIs(53, INITIAL, x, Registers(0xb298cefd, 0x5b0d97aa, 0x06cc5e8a, 0x8bf025c4));
    StepIs(54, INITIAL, x, Registers(0x8bf025c4, 0x7d632dd0, 0x5b0d97aa, 0x06cc5e8a));
    StepIs(55, INITIAL, x, Registers(0x06cc5e8a, 0x3bfa2c27, 0x7d632dd0, 0x5b0d97aa));
  }

  lemma AbcSteps57To64(x: seq<bv32>)
    requires BlockOf(x, 0x80636261, 24) && Steps(56, INITIAL, x) == Registers(0x06cc5e8a, 0x3bfa2c27, 0x7d632dd0, 0x5b0d97aa)
    ensures Steps(64, INITIAL, x) == Registers(0x310ade8f, 0xc08226b3, 0xe484b9d8, 0x624d8cb2)
  {
    hide Mix, F, G, H, I, Steps, Sine;
    AbcValues8();
    Sines57To60();
    Sines61To64();
    StepIs(56, INITIAL, x, Registers(0x5b0d97aa, 0x7f81cc35, 0x3bfa2c27, 0x7d632dd0));
    StepIs(57, INITIAL, x, Registers(0x7d632dd0, 0x094454ab, 0x7f81cc35, 0x3bfa2c27));
    StepIs(58, INITIAL, x, Registers(0x3bfa2c27, 0x4f9dbe3f, 0x094454ab, 0x7f81cc35));
    StepIs(59, INITIAL, x, Registers(0x7f81cc35, 0x7327d604, 0x4f9dbe3f, 0x094454ab));
    StepIs(60, INITIAL, x, Registers(0x094454ab, 0x310ade8f, 0x7327d604, 0x4f9dbe3f));
    StepIs(61, INITIAL, x, Registers(0x4f9dbe3f, 0x624d8cb2, 0x310ade8f, 0x7327d604));
    StepIs(62, INITIAL, x, Registers(0x7327d604, 0xe484b9d8, 0x624d8cb2, 0x310ade8f));
    StepIs(63, INITIAL, x, Registers(0x310ade8f, 0xc08226b3, 0xe484b9d8, 0x624d8cb2));
  }

  lemma AbcSteps(x: seq<bv32>)
    requires BlockOf(x, 0x80636261, 24)
    ensures Steps(64, INITIAL, x) == Registers(0x310ade8f, 0xc08226b3, 0xe484b9d8, 0x624d8cb2)
  {
    NoSteps(x);
    hide BlockOf, Steps;
    AbcSteps1To8(x);
    AbcSteps9To16(x);
    AbcSteps17To24(x);
    AbcSteps25To32(x);
    AbcSteps33To40(x);
    AbcSteps41To48(x);
    AbcSteps49To56(x);
    AbcSteps57To64(x);
  }

  lemma NoSteps(x: seq<bv32>)
    requires |x| == 16
    ensures Steps(0, INITIAL, x) == INITIAL
  {
  }

  lemma EmptyWord(message: seq<Byte>)
    requires message == []
    ensures Word(message + [0x80] + seq(3 - |message|, i => 0)) == 0x00000080
  {
  }

  lemma AbcWord(message: seq<Byte>)
    requires message == [0x61, 0x62, 0x63]
    ensures Word(message + [0x80] + seq(3 - |message|, i => 0)) == 0x80636261
  {
  }

  /** MD5 ("") = d41d8cd98f00b204e9800998ecf8427e */
  lemma DigestOfEmpty()
    ensures Digest([])
         == [0xd4, 0x1d, 0x8c, 0xd9, 0x8f, 0x00, 0xb2, 0x04, 0xe9, 0x80, 0x09, 0x98, 0xec, 0xf8, 0x42, 0x7e]
  {
    hide Padded, Words, Steps, Word;
    var message: seq<Byte> := [];
    EmptyWord(message);
    BlockIs(message, 0x00000080, 0);
    OneBlock(Padded(message));
    EmptySteps(Words(Padded(message)));
    assert Digested(Padded(message)) == Registers(0xd98c1dd4, 0x04b2008f, 0x980980e9, 0x7e42f8ec);
  }

  /** MD5 ("abc") = 900150983cd24fb0d6963f7d28e17f72 */
  lemma DigestOfAbc()
    ensures Digest([0x61, 0x62, 0x63])
         == [0x90, 0x01, 0x50, 0x98, 0x3c, 0xd2, 0x4f, 0xb0, 0xd6, 0x96, 0x3f, 0x7d, 0x28, 0xe1, 0x7f, 0x72]
  {
    hide Padded, Words, Steps, Word;
    var message: seq<Byte> := [0x61, 0x62, 0x63];
    AbcWord(message);
    BlockIs(message, 0x80636261, 24);
    OneBlock(Padded(message));
    AbcSteps(Words(Padded(message)));
    assert Digested(Padded(message)) == Registers(0x98500190, 0xb04fd23c, 0x7d3f96d6, 0x727fe128);
  }
}

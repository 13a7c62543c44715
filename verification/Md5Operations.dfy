/**
 The operations of the block transform of MD5 (section 3.4 of RFC 1321) on the blocks
 of three messages, one after the other, on literals: the value of the function,
 the sum, the rotated sum and the new register.
 */
module Md5Operations {
  import opened Md5Rounds

  lemma Step(round: nat, j: nat, r0: Registers, r: Registers, x: seq<bv32>,
             k: nat, w: bv32, m: bv32, t: bv32, s: bv6, sum: bv32, rotated: bv32, b: bv32)
    requires |x| == 16 && k < 16 && Plan(round, j, k, t, s) && x[k] == w
    requires r == Operations(round, j, r0, x) && m == Mix(round, r.b, r.c, r.d)
    requires Add(r.a, Add(m, Add(w, t))) == sum && RotateLeft(sum, s) == rotated && Add(r.b, rotated) == b
    ensures Operations(round, j + 1, r0, x) == Registers(r.d, b, r.b, r.c)
  {
    hide Add, RotateLeft, Mix, T, Shift;
  }

  lemma Compressed(r: Registers, r1: Registers, r2: Registers, r3: Registers, r4: Registers, x: seq<bv32>, sum: Registers)
    requires |x| == 16 && Operations(0, 16, r, x) == r1 && Operations(1, 16, r1, x) == r2
    requires Operations(2, 16, r2, x) == r3 && Operations(3, 16, r3, x) == r4
    requires sum == Registers(Add(r.a, r4.a), Add(r.b, r4.b), Add(r.c, r4.c), Add(r.d, r4.d))
    ensures Compress(r, x) == sum
  {
    hide Operations, Add;
  }

  // ----- The empty message -----

  predicate EmptyWords(x: seq<bv32>) {
    && |x| == 16
    && x[0] == 0x00000080 && x[1] == 0x00000000 && x[2] == 0x00000000 && x[3] == 0x00000000
    && x[4] == 0x00000000 && x[5] == 0x00000000 && x[6] == 0x00000000 && x[7] == 0x00000000
    && x[8] == 0x00000000 && x[9] == 0x00000000 && x[10] == 0x00000000 && x[11] == 0x00000000
    && x[12] == 0x00000000 && x[13] == 0x00000000 && x[14] == 0x00000000 && x[15] == 0x00000000
  }

  lemma EmptyRound1(x: seq<bv32>, r0: Registers)
    requires EmptyWords(x) && r0 == Registers(0x67452301, 0xefcdab89, 0x98badcfe, 0x10325476)
    ensures Operations(0, 16, r0, x) == Registers(0xf56c7cf1, 0xd6819c6a, 0x5aa53f75, 0x374943a7)
  {
    hide Operations, T, Shift, Index, Plan;
    Plan1();
    StartRound(0, r0, x);
    Step(0, 0, r0, Registers(0x67452301, 0xefcdab89, 0x98badcfe, 0x10325476),
         x, 0, 0x00000080, 0x98badcfe, 0xd76aa478, 7, 0xd76aa4f7, 0xb5527beb, 0xa5202774);
    Step(0, 1, r0, Registers(0x10325476, 0xa5202774, 0xefcdab89, 0x98badcfe),
         x, 1, 0x00000000, 0xbd9afb8a, 0xe8c7b756, 12, 0xb6950756, 0x50756b69, 0xf59592dd);
    Step(0, 2, r0, Registers(0x98badcfe, 0xf59592dd, 0xa5202774, 0xefcdab89),
         x, 2, 0x00000000, 0xaf482b54, 0x242070db, 17, 0x6c23792d, 0xf25ad846, 0xe7f06b23);
    Step(0, 3, r0, Registers(0xefcdab89, 0xe7f06b23, 0xf59592dd, 0xa5202774),
         x, 3, 0x00000000, 0xe5900655, 0xc1bdceee, 22, 0x971b80cc, 0x3325c6e0, 0x1b163203);
    Step(0, 4, r0, Registers(0xa5202774, 0x1b163203, 0xe7f06b23, 0xf59592dd),
         x, 4, 0x00000000, 0xe791a2df, 0xf57c0faf, 7, 0x822dda02, 0x16ed0141, 0x32033344);
    Step(0, 5, r0, Registers(0xf59592dd, 0x32033344, 0x1b163203, 0xe7f06b23),
         x, 5, 0x00000000, 0xd7f27a23, 0x4787c62a, 12, 0x150fd32a, 0xfd32a150, 0x2f35d494);
    Step(0, 6, r0, Registers(0xe7f06b23, 0x2f35d494, 0x32033344, 0x1b163203),
         x, 6, 0x00000000, 0x32033207, 0xa8304613, 17, 0xc223e33d, 0xc67b8447, 0xf5b158db);
    Step(0, 7, r0, Registers(0x1b163203, 0xf5b158db, 0x2f35d494, 0x32033344),
         x, 7, 0x00000000, 0x27337394, 0xfd469501, 22, 0x3f903a98, 0xa60fe40e, 0x9bc13ce9);
    Step(0, 8, r0, Registers(0x32033344, 0x9bc13ce9, 0xf5b158db, 0x2f35d494),
         x, 8, 0x00000000, 0xb5b5d8dd, 0x698098d8, 7, 0x5139a4f9, 0x9cd27ca8, 0x3893b991);
    Step(0, 9, r0, Registers(0x2f35d494, 0x3893b991, 0x9bc13ce9, 0xf5b158db),
         x, 9, 0x00000000, 0xdda178cb, 0x8b44f7af, 12, 0x981c450e, 0xc450e981, 0xfce4a312);
    Step(0, 10, r0, Registers(0xf5b158db, 0xfce4a312, 0x3893b991, 0x9bc13ce9),
         x, 10, 0x00000000, 0x3b81bdf9, 0xffff5bb1, 17, 0x31327285, 0xe50a6264, 0xe1ef0576);
    Step(0, 11, r0, Registers(0x9bc13ce9, 0xe1ef0576, 0xfce4a312, 0x3893b991),
         x, 11, 0x00000000, 0xf8f4b993, 0x895cd7be, 22, 0x1e12ce3a, 0x8e8784b3, 0x70768a29);
    Step(0, 12, r0, Registers(0x3893b991, 0x70768a29, 0xe1ef0576, 0xfce4a312),
         x, 12, 0x00000000, 0xece62132, 0x6b901122, 7, 0x9109ebe5, 0x84f5f2c8, 0xf56c7cf1);
    Step(0, 13, r0, Registers(0xfce4a312, 0xf56c7cf1, 0x70768a29, 0xe1ef0576),
         x, 13, 0x00000000, 0x70e70927, 0xfd987193, 12, 0x6b641dcc, 0x41dcc6b6, 0x374943a7);
    Step(0, 14, r0, Registers(0xe1ef0576, 0x374943a7, 0xf56c7cf1, 0x70768a29),
         x, 14, 0x00000000, 0x757ec8a9, 0xa679438e, 17, 0xfde711ad, 0x235bfbce, 0x5aa53f75);
    Step(0, 15, r0, Registers(0x70768a29, 0x5aa53f75, 0x374943a7, 0xf56c7cf1),
         x, 15, 0x00000000, 0xb74943a5, 0x49b40821, 22, 0x7173d5ef, 0x7bdc5cf5, 0xd6819c6a);
  }

  lemma EmptyRound2(x: seq<bv32>, r0: Registers)
    requires EmptyWords(x) && r0 == Registers(0xf56c7cf1, 0xd6819c6a, 0x5aa53f75, 0x374943a7)
    ensures Operations(1, 16, r0, x) == Registers(0x13707036, 0xa2205f1f, 0x1c31c384, 0xae7813db)
  {
    hide Operations, T, Shift, Index, Plan;
    Plan2();
    StartRound(1, r0, x);
    Step(1, 0, r0, Registers(0xf56c7cf1, 0xd6819c6a, 0x5aa53f75, 0x374943a7),
         x, 1, 0x00000000, 0x5ea53c72, 0xf61e2562, 5, 0x4a2fdec5, 0x45fbd8a9, 0x1c7d7513);
    Step(1, 1, r0, Registers(0x374943a7, 0x1c7d7513, 0xd6819c6a, 0x5aa53f75),
         x, 6, 0x00000000, 0x9c25b51b, 0xc040b340, 9, 0x93afac02, 0x5f580527, 0x7bd57a3a);
    Step(1, 2, r0, Registers(0x5aa53f75, 0x7bd57a3a, 0x1c7d7513, 0xd6819c6a),
         x, 11, 0x00000000, 0x5afd793b, 0x265e5a51, 14, 0xdc011301, 0x44c07700, 0xc095f13a);
    Step(1, 3, r0, Registers(0xd6819c6a, 0xc095f13a, 0x7bd57a3a, 0x1c7d7513),
         x, 0, 0x00000080, 0x63957b3a, 0xe9b6c7aa, 20, 0x23cddfce, 0xfce23cdd, 0xbd782e17);
    Step(1, 4, r0, Registers(0x1c7d7513, 0xbd782e17, 0xc095f13a, 0x7bd57a3a),
         x, 5, 0x00000000, 0xb950ab12, 0xd62f105d, 5, 0xabfd3082, 0x7fa61055, 0x3d1e3e6c);
    Step(1, 5, r0, Registers(0x7bd57a3a, 0x3d1e3e6c, 0xbd782e17, 0xc095f13a),
         x, 10, 0x00000000, 0x3d7c3e2d, 0x02441453, 9, 0xbb95ccba, 0x2b997577, 0x68b7b3e3);
    Step(1, 6, r0, Registers(0xc095f13a, 0x68b7b3e3, 0x3d1e3e6c, 0xbd782e17),
         x, 15, 0x00000000, 0x2836326b, 0xd8a1e681, 14, 0xc16e0a26, 0x8289b05b, 0xeb41643e);
    Step(1, 7, r0, Registers(0xbd782e17, 0xeb41643e, 0x68b7b3e3, 0x3d1e3e6c),
         x, 4, 0x00000000, 0x69a1a5af, 0xe7d3fbc8, 20, 0x0eedcf8e, 0xf8e0eedc, 0xe422531a);
    Step(1, 8, r0, Registers(0x3d1e3e6c, 0xe422531a, 0xeb41643e, 0x68b7b3e3),
         x, 9, 0x00000000, 0xe362571e, 0x21e1cde6, 5, 0x42626370, 0x4c4c6e08, 0x306ec122);
    Step(1, 9, r0, Registers(0x68b7b3e3, 0x306ec122, 0xe422531a, 0xeb41643e),
         x, 14, 0x00000000, 0x24625322, 0xc33707d6, 9, 0x50510edb, 0xa21db6a0, 0xd28c77c2);
    Step(1, 10, r0, Registers(0xeb41643e, 0xd28c77c2, 0x306ec122, 0xe422531a),
         x, 3, 0x00000000, 0xd04cd322, 0xf4d50d87, 14, 0xb06344e7, 0xd139ec18, 0xa3c663da);
    Step(1, 11, r0, Registers(0xe422531a, 0xa3c663da, 0xd28c77c2, 0x306ec122),
         x, 8, 0x00000000, 0xe2c677c2, 0x455a14ed, 20, 0x0c42dfc9, 0xfc90c42d, 0xa0572807);
    Step(1, 12, r0, Registers(0x306ec122, 0xa0572807, 0xa3c663da, 0xd28c77c2),
         x, 13, 0x00000000, 0xa146201a, 0xa9e3e905, 5, 0x7b98ca41, 0x7319482f, 0x13707036);
    Step(1, 13, r0, Registers(0xd28c77c2, 0x13707036, 0xa0572807, 0xa3c663da),
         x, 2, 0x00000000, 0x03516817, 0xfcefa3f8, 9, 0xd2cd83d1, 0x9b07a3a5, 0xae7813db);
    Step(1, 14, r0, Registers(0xa3c663da, 0xae7813db, 0x13707036, 0xa0572807),
         x, 7, 0x00000000, 0xb3705033, 0x676f02d9, 14, 0xbea5b6e6, 0x6db9afa9, 0x1c31c384);
    Step(1, 15, r0, Registers(0xa0572807, 0x1c31c384, 0xae7813db, 0x13707036),
         x, 12, 0x00000000, 0xbc3843cd, 0x8d2a4c8a, 20, 0xe9b9b85e, 0x85ee9b9b, 0xa2205f1f);
  }

  lemma EmptyRound3(x: seq<bv32>, r0: Registers)
    requires EmptyWords(x) && r0 == Registers(0x13707036, 0xa2205f1f, 0x1c31c384, 0xae7813db)
    ensures Operations(2, 16, r0, x) == Registers(0x3f55edfd, 0xca7d2dbd, 0x68d84ea2, 0x22a31f54)
  {
    hide Operations, T, Shift, Index, Plan;
    Plan3();
    StartRound(2, r0, x);
    Step(2, 0, r0, Registers(0x13707036, 0xa2205f1f, 0x1c31c384, 0xae7813db),
         x, 5, 0x00000000, 0x10698f40, 0xfffa3942, 4, 0x23d438b8, 0x3d438b82, 0xdf63eaa1);
    Step(2, 1, r0, Registers(0xae7813db, 0xdf63eaa1, 0xa2205f1f, 0x1c31c384),
         x, 8, 0x00000000, 0x6172763a, 0x8771f681, 11, 0x975c8096, 0xe404b4ba, 0xc3689f5b);
    Step(2, 2, r0, Registers(0x1c31c384, 0xc3689f5b, 0xdf63eaa1, 0xa2205f1f),
         x, 11, 0x00000000, 0xbe2b2ae5, 0x6d9d6122, 16, 0x47fa4f8b, 0x4f8b47fa, 0x12f3e755);
    Step(2, 3, r0, Registers(0xa2205f1f, 0x12f3e755, 0xc3689f5b, 0xdf63eaa1),
         x, 14, 0x00000000, 0x0ef892af, 0xfde5380c, 23, 0xaefe29da, 0xed577f14, 0x004b6669);
    Step(2, 4, r0, Registers(0xdf63eaa1, 0x004b6669, 0x12f3e755, 0xc3689f5b),
         x, 1, 0x00000000, 0xd1d01e67, 0xa4beea44, 4, 0x55f2f34c, 0x5f2f34c5, 0x5f7a9b2e);
    Step(2, 5, r0, Registers(0xc3689f5b, 0x5f7a9b2e, 0x004b6669, 0x12f3e755),
         x, 4, 0x00000000, 0x4dc21a12, 0x4bdecfa9, 11, 0x5d098916, 0x4c48b2e8, 0xabc34e16);
    Step(2, 6, r0, Registers(0x12f3e755, 0xabc34e16, 0x5f7a9b2e, 0x004b6669),
         x, 7, 0x00000000, 0xf4f2b351, 0xf6bb4b60, 16, 0xfea1e606, 0xe606fea1, 0x91ca4cb7);
    Step(2, 7, r0, Registers(0x004b6669, 0x91ca4cb7, 0xabc34e16, 0x5f7a9b2e),
         x, 10, 0x00000000, 0x6573998f, 0xbebfbc70, 23, 0x247ebc68, 0x34123f5e, 0xc5dc8c15);
    Step(2, 8, r0, Registers(0x5f7a9b2e, 0xc5dc8c15, 0x91ca4cb7, 0xabc34e16),
         x, 13, 0x00000000, 0xffd58eb4, 0x289b7ec6, 4, 0x87eba8a8, 0x7eba8a88, 0x4497169d);
    Step(2, 9, r0, Registers(0xabc34e16, 0x4497169d, 0xc5dc8c15, 0x91ca4cb7),
         x, 0, 0x00000080, 0x1081d63f, 0xeaa127fa, 11, 0xa6e64ccf, 0x32667d37, 0x76fd93d4);
    Step(2, 10, r0, Registers(0x91ca4cb7, 0x76fd93d4, 0x4497169d, 0xc5dc8c15),
         x, 3, 0x00000000, 0xf7b6095c, 0xd4ef3085, 16, 0x5e6f8698, 0x86985e6f, 0xfd95f243);
    Step(2, 11, r0, Registers(0xc5dc8c15, 0xfd95f243, 0x76fd93d4, 0x4497169d),
         x, 6, 0x00000000, 0xcfff770a, 0x04881d05, 23, 0x9a642024, 0x124d3210, 0x0fe32453);
    Step(2, 12, r0, Registers(0x4497169d, 0x0fe32453, 0xfd95f243, 0x76fd93d4),
         x, 9, 0x00000000, 0x848b45c4, 0xd9d4d039, 4, 0xa2f72c9a, 0x2f72c9aa, 0x3f55edfd);
    Step(2, 13, r0, Registers(0x76fd93d4, 0x3f55edfd, 0x0fe32453, 0xfd95f243),
         x, 12, 0x00000000, 0xcd233bed, 0xe6db99e5, 11, 0x2afc69a6, 0xe34d3157, 0x22a31f54);
    Step(2, 14, r0, Registers(0xfd95f243, 0x22a31f54, 0x3f55edfd, 0x0fe32453),
         x, 15, 0x00000000, 0x1215d6fa, 0x1fa27cf8, 16, 0x2f4e4635, 0x46352f4e, 0x68d84ea2);
    Step(2, 15, r0, Registers(0x0fe32453, 0x68d84ea2, 0x22a31f54, 0x3f55edfd),
         x, 2, 0x00000000, 0x752ebc0b, 0xc4ac5665, 23, 0x49be36c3, 0x61a4df1b, 0xca7d2dbd);
  }

  lemma EmptyRound4(x: seq<bv32>, r0: Registers)
    requires EmptyWords(x) && r0 == Registers(0x3f55edfd, 0xca7d2dbd, 0x68d84ea2, 0x22a31f54)
    ensures Operations(3, 16, r0, x) == Registers(0x7246fad3, 0x14e45506, 0xff4ea3eb, 0x6e10a476)
  {
    hide Operations, T, Shift, Index, Plan;
    Plan4();
    StartRound(3, r0, x);
    Step(3, 0, r0, Registers(0x3f55edfd, 0xca7d2dbd, 0x68d84ea2, 0x22a31f54),
         x, 0, 0x00000080, 0xb7a5a31d, 0xf4292244, 6, 0xeb24b3de, 0xc92cf7ba, 0x93aa2577);
    Step(3, 1, r0, Registers(0x22a31f54, 0x93aa2577, 0xca7d2dbd, 0x68d84ea2),
         x, 7, 0x00000000, 0x5dd298c2, 0x432aff97, 10, 0xc3a0b7ad, 0x82deb70e, 0x1688dc85);
    Step(3, 2, r0, Registers(0x68d84ea2, 0x1688dc85, 0x93aa2577, 0xca7d2dbd),
         x, 14, 0x00000000, 0xa420fbb0, 0xab9423a7, 15, 0xb88d6df9, 0xb6fcdc46, 0xcd85b8cb);
    Step(3, 3, r0, Registers(0xca7d2dbd, 0xcd85b8cb, 0x1688dc85, 0x93aa2577),
         x, 5, 0x00000000, 0xfb5d264e, 0xfc93a039, 21, 0xc26df444, 0x88984dbe, 0x561e0689);
    Step(3, 4, r0, Registers(0x93aa2577, 0x561e0689, 0xcd85b8cb, 0x1688dc85),
         x, 12, 0x00000000, 0x32fa9f30, 0x655b59c3, 6, 0x2c001e6a, 0x00079a8b, 0x5625a114);
    Step(3, 5, r0, Registers(0x1688dc85, 0x5625a114, 0x561e0689, 0xcd85b8cb),
         x, 3, 0x00000000, 0x2061e1bd, 0x8f0ccc92, 10, 0xc5f78ad4, 0xde2b5317, 0x3450f42b);
    Step(3, 6, r0, Registers(0xcd85b8cb, 0x3450f42b, 0x5625a114, 0x561e0689),
         x, 10, 0x00000000, 0xebd45c6b, 0xffeff47d, 15, 0xb94a09b3, 0x04d9dca5, 0x392ad0d0);
    Step(3, 7, r0, Registers(0x561e0689, 0x392ad0d0, 0x3450f42b, 0x5625a114),
         x, 1, 0x00000000, 0x8daa2ad0, 0x85845dd1, 21, 0x694c8f2a, 0xe54d2991, 0x1e77fa61);
    Step(3, 8, r0, Registers(0x5625a114, 0x1e77fa61, 0x392ad0d0, 0x3450f42b),
         x, 8, 0x00000000, 0xe6d52b25, 0x6fa87e4f, 6, 0xaca34a88, 0x28d2a22b, 0x474a9c8c);
    Step(3, 9, r0, Registers(0x3450f42b, 0x474a9c8c, 0x1e77fa61, 0x392ad0d0),
         x, 15, 0x00000000, 0xd9a845ce, 0xfe2ce6e0, 10, 0x0c2620d9, 0x98836430, 0xdfce00bc);
    Step(3, 10, r0, Registers(0x392ad0d0, 0xdfce00bc, 0x474a9c8c, 0x1e77fa61),
         x, 6, 0x00000000, 0xb8849932, 0xa3014314, 15, 0x94b0ad16, 0x568b4a58, 0x36594b14);
    Step(3, 11, r0, Registers(0x1e77fa61, 0x36594b14, 0xdfce00bc, 0x474a9c8c),
         x, 13, 0x00000000, 0x61336bcb, 0x4e0811a1, 21, 0xcdb377cd, 0xf9b9b66e, 0x30130182);
    Step(3, 12, r0, Registers(0x474a9c8c, 0x30130182, 0x36594b14, 0xdfce00bc),
         x, 4, 0x00000000, 0x066ab4d7, 0xf7537e82, 6, 0x4508cfe5, 0x4233f951, 0x7246fad3);
    Step(3, 13, r0, Registers(0xdfce00bc, 0x7246fad3, 0x30130182, 0x36594b14),
         x, 11, 0x00000000, 0xcbf5ff79, 0xbd3af235, 10, 0x68fef26a, 0xfbc9a9a3, 0x6e10a476);
    Step(3, 14, r0, Registers(0x36594b14, 0x6e10a476, 0x7246fad3, 0x30130182),
         x, 2, 0x00000000, 0x9dba04ac, 0x2ad7d2bb, 15, 0xfeeb227b, 0x913dff75, 0xff4ea3eb);
    Step(3, 15, r0, Registers(0x30130182, 0xff4ea3eb, 0x6e10a476, 0x7246fad3),
         x, 9, 0x00000000, 0x91ef0399, 0xeb86d391, 21, 0xad88d8ac, 0x1595b11b, 0x14e45506);
  }

  lemma EmptyCompressed(x: seq<bv32>)
    requires EmptyWords(x)
    ensures Compress(Registers(0x67452301, 0xefcdab89, 0x98badcfe, 0x10325476), x) == Registers(0xd98c1dd4, 0x04b2008f, 0x980980e9, 0x7e42f8ec)
  {
    assert |x| == 16;
    hide Operations, Compress, EmptyWords;
    var r0 := Registers(0x67452301, 0xefcdab89, 0x98badcfe, 0x10325476);
    var r1 := Registers(0xf56c7cf1, 0xd6819c6a, 0x5aa53f75, 0x374943a7);
    var r2 := Registers(0x13707036, 0xa2205f1f, 0x1c31c384, 0xae7813db);
    var r3 := Registers(0x3f55edfd, 0xca7d2dbd, 0x68d84ea2, 0x22a31f54);
    var r4 := Registers(0x7246fad3, 0x14e45506, 0xff4ea3eb, 0x6e10a476);
    EmptyRound1(x, r0);
    EmptyRound2(x, r1);
    EmptyRound3(x, r2);
    EmptyRound4(x, r3);
    Compressed(r0, r1, r2, r3, r4, x, Registers(0xd98c1dd4, 0x04b2008f, 0x980980e9, 0x7e42f8ec));
  }

  // ----- "abc" -----

  predicate AbcWords(x: seq<bv32>) {
    && |x| == 16
    && x[0] == 0x80636261 && x[1] == 0x00000000 && x[2] == 0x00000000 && x[3] == 0x00000000
    && x[4] == 0x00000000 && x[5] == 0x00000000 && x[6] == 0x00000000 && x[7] == 0x00000000
    && x[8] == 0x00000000 && x[9] == 0x00000000 && x[10] == 0x00000000 && x[11] == 0x00000000
    && x[12] == 0x00000000 && x[13] == 0x00000000 && x[14] == 0x00000018 && x[15] == 0x00000000
  }

  lemma AbcRound1(x: seq<bv32>, r0: Registers)
    requires AbcWords(x) && r0 == Registers(0x67452301, 0xefcdab89, 0x98badcfe, 0x10325476)
    ensures Operations(0, 16, r0, x) == Registers(0xdda9b9a6, 0x72aff2e0, 0xe396856b, 0xa1051895)
  {
    hide Operations, T, Shift, Index, Plan;
    Plan1();
    StartRound(0, r0, x);
    Step(0, 0, r0, Registers(0x67452301, 0xefcdab89, 0x98badcfe, 0x10325476),
         x, 0, 0x80636261, 0x98badcfe, 0xd76aa478, 7, 0x57ce06d8, 0xe7036c2b, 0xd6d117b4);
    Step(0, 1, r0, Registers(0x10325476, 0xd6d117b4, 0xefcdab89, 0x98badcfe),
         x, 1, 0x00000000, 0xceebcbca, 0xe8c7b756, 12, 0xc7e5d796, 0x5d796c7e, 0x344a8432);
    Step(0, 2, r0, Registers(0x98badcfe, 0x344a8432, 0xd6d117b4, 0xefcdab89),
         x, 2, 0x00000000, 0xdfc52fb9, 0x242070db, 17, 0x9ca07d92, 0xfb253940, 0x2f6fbd72);
    Step(0, 3, r0, Registers(0xefcdab89, 0x2f6fbd72, 0x344a8432, 0xd6d117b4),
         x, 3, 0x00000000, 0xf4da86b6, 0xc1bdceee, 22, 0xa666012d, 0x4b699980, 0x7ad956f2);
    Step(0, 4, r0, Registers(0xd6d117b4, 0x7ad956f2, 0x2f6fbd72, 0x344a8432),
         x, 4, 0x00000000, 0x2e4b9472, 0xf57c0faf, 7, 0xfa98bbd5, 0x4c5deafd, 0xc73741ef);
    Step(0, 5, r0, Registers(0x344a8432, 0xc73741ef, 0x7ad956f2, 0x2f6fbd72),
         x, 5, 0x00000000, 0x6a59fcf2, 0x4787c62a, 12, 0xe62c474e, 0xc474ee62, 0x8bac3051);
    Step(0, 6, r0, Registers(0x2f6fbd72, 0x8bac3051, 0xc73741ef, 0x7ad956f2),
         x, 6, 0x00000000, 0xf37546e3, 0xa8304613, 17, 0xcb154a68, 0x94d1962a, 0x207dc67b);
    Step(0, 7, r0, Registers(0x7ad956f2, 0x207dc67b, 0x8bac3051, 0xc73741ef),
         x, 7, 0x00000000, 0xc72e01d5, 0xfd469501, 22, 0x3f4dedc8, 0x720fd37b, 0x928d99f6);
    Step(0, 8, r0, Registers(0xc73741ef, 0x928d99f6, 0x207dc67b, 0x8bac3051),
         x, 8, 0x00000000, 0x092da073, 0x698098d8, 7, 0x39e57b3a, 0xf2bd9d1c, 0x854b3712);
    Step(0, 9, r0, Registers(0x8bac3051, 0x854b3712, 0x928d99f6, 0x207dc67b),
         x, 9, 0x00000000, 0xa03dd17b, 0x8b44f7af, 12, 0xb72ef97b, 0xef97bb72, 0x74e2f284);
    Step(0, 10, r0, Registers(0x207dc67b, 0x74e2f284, 0x854b3712, 0x928d99f6),
         x, 10, 0x00000000, 0x864f3b72, 0xffff5bb1, 17, 0xa6cc5d9e, 0xbb3d4d98, 0x3020401c);
    Step(0, 11, r0, Registers(0x928d99f6, 0x3020401c, 0x74e2f284, 0x854b3712),
         x, 11, 0x00000000, 0xb56b7706, 0x895cd7be, 22, 0xd155e8ba, 0x2eb4557a, 0x5ed49596);
    Step(0, 12, r0, Registers(0x854b3712, 0x5ed49596, 0x3020401c, 0x74e2f284),
         x, 12, 0x00000000, 0x30226214, 0x6b901122, 7, 0x20fdaa48, 0x7ed52410, 0xdda9b9a6);
    Step(0, 13, r0, Registers(0x74e2f284, 0xdda9b9a6, 0x5ed49596, 0x3020401c),
         x, 13, 0x00000000, 0x7c80d19e, 0xfd987193, 12, 0xeefc35b5, 0xc35b5eef, 0xa1051895);
    Step(0, 14, r0, Registers(0x3020401c, 0xa1051895, 0xdda9b9a6, 0x5ed49596),
         x, 14, 0x00000018, 0xdfd19d86, 0xa679438e, 17, 0xb66b2148, 0x42916cd6, 0xe396856b);
    Step(0, 15, r0, Registers(0x5ed49596, 0xe396856b, 0xa1051895, 0xdda9b9a6),
         x, 15, 0x00000000, 0xbd2d3885, 0x49b40821, 22, 0x65b5d63c, 0x8f196d75, 0x72aff2e0);
  }

  lemma AbcRound2(x: seq<bv32>, r0: Registers)
    requires AbcWords(x) && r0 == Registers(0xdda9b9a6, 0x72aff2e0, 0xe396856b, 0xa1051895)
    ensures Operations(1, 16, r0, x) == Registers(0x790a77fb, 0x726342d3, 0xa62884aa, 0x9f47e4f8)
  {
    hide Operations, T, Shift, Index, Plan;
    Plan2();
    StartRound(1, r0, x);
    Step(1, 0, r0, Registers(0xdda9b9a6, 0x72aff2e0, 0xe396856b, 0xa1051895),
         x, 1, 0x00000000, 0x629795ea, 0xf61e2562, 5, 0x365f74f2, 0xcbee9e46, 0x3e9e9126);
    Step(1, 1, r0, Registers(0xa1051895, 0x3e9e9126, 0x72aff2e0, 0xe396856b),
         x, 6, 0x00000000, 0x32bff3a2, 0xc040b340, 9, 0x9405bf77, 0x0b7eef28, 0x4a1d804e);
    Step(1, 2, r0, Registers(0xe396856b, 0x4a1d804e, 0x3e9e9126, 0x72aff2e0),
         x, 11, 0x00000000, 0x4e1d8146, 0x265e5a51, 14, 0x58126102, 0x98409604, 0xe25e1652);
    Step(1, 3, r0, Registers(0x72aff2e0, 0xe25e1652, 0x4a1d804e, 0x3e9e9126),
         x, 0, 0x80636261, 0x621f104a, 0xe9b6c7aa, 20, 0x3ee92d35, 0xd353ee92, 0xb5b204e4);
    Step(1, 4, r0, Registers(0x3e9e9126, 0xb5b204e4, 0xe25e1652, 0x4a1d804e),
         x, 5, 0x00000000, 0xa0521654, 0xd62f105d, 5, 0xb51fb7d7, 0xa3f6faf6, 0x59a8ffda);
    Step(1, 5, r0, Registers(0x4a1d804e, 0x59a8ffda, 0xb5b204e4, 0xe25e1652),
         x, 10, 0x00000000, 0x55a816f6, 0x02441453, 9, 0xa209ab97, 0x13572f44, 0x6d002f1e);
    Step(1, 6, r0, Registers(0xe25e1652, 0x6d002f1e, 0x59a8ffda, 0xb5b204e4),
         x, 15, 0x00000000, 0x6d08ff1e, 0xd8a1e681, 14, 0x2808fbf1, 0x3efc4a02, 0xabfc7920);
    Step(1, 7, r0, Registers(0xb5b204e4, 0xabfc7920, 0x6d002f1e, 0x59a8ffda),
         x, 4, 0x00000000, 0x2da87904, 0xe7d3fbc8, 20, 0xcb2e79b0, 0x9b0cb2e7, 0x47092c07);
    Step(1, 8, r0, Registers(0x59a8ffda, 0x47092c07, 0xabfc7920, 0x6d002f1e),
         x, 9, 0x00000000, 0xc7fc7c26, 0x21e1cde6, 5, 0x438749e6, 0x70e93cc8, 0xb7f268cf);
    Step(1, 9, r0, Registers(0x6d002f1e, 0xb7f268cf, 0x47092c07, 0xabfc7920),
         x, 14, 0x00000018, 0xe7f16c07, 0xc33707d6, 9, 0x1828a313, 0x51462630, 0x09388eff);
    Step(1, 10, r0, Registers(0xabfc7920, 0x09388eff, 0xb7f268cf, 0x47092c07),
         x, 3, 0x00000000, 0xb1fa4ccf, 0xf4d50d87, 14, 0x52cbd376, 0xf4dd94b2, 0xfe1623b1);
    Step(1, 11, r0, Registers(0x47092c07, 0xfe1623b1, 0x09388eff, 0xb7f268cf),
         x, 8, 0x00000000, 0xbe1aa6b1, 0x455a14ed, 20, 0x4a7de7a5, 0x7a54a7de, 0x786acb8f);
    Step(1, 12, r0, Registers(0xb7f268cf, 0x786acb8f, 0xfe1623b1, 0x09388eff),
         x, 13, 0x00000000, 0xfe2eab8f, 0xa9e3e905, 5, 0x6004fd63, 0x009fac6c, 0x790a77fb);
    Step(1, 13, r0, Registers(0x09388eff, 0x790a77fb, 0x786acb8f, 0xfe1623b1),
         x, 2, 0x00000000, 0x786aebbf, 0xfcefa3f8, 9, 0x7e931eb6, 0x263d6cfd, 0x9f47e4f8);
    Step(1, 14, r0, Registers(0xfe1623b1, 0x9f47e4f8, 0x790a77fb, 0x786acb8f),
         x, 7, 0x00000000, 0x1942f4f8, 0x676f02d9, 14, 0x7ec81b82, 0x06e09fb2, 0xa62884aa);
    Step(1, 15, r0, Registers(0x786acb8f, 0xa62884aa, 0x9f47e4f8, 0x790a77fb),
         x, 12, 0x00000000, 0xa64d84aa, 0x8d2a4c8a, 20, 0xabe29cc3, 0xcc3abe29, 0x726342d3);
  }

  lemma AbcRound3(x: seq<bv32>, r0: Registers)
    requires AbcWords(x) && r0 == Registers(0x790a77fb, 0x726342d3, 0xa62884aa, 0x9f47e4f8)
    ensures Operations(2, 16, r0, x) == Registers(0x7f2e507b, 0x7beb9700, 0x8fae6399, 0x99d9679d)
  {
    hide Operations, T, Shift, Index, Plan;
    Plan3();
    StartRound(2, r0, x);
    Step(2, 0, r0, Registers(0x790a77fb, 0x726342d3, 0xa62884aa, 0x9f47e4f8),
         x, 5, 0x00000000, 0x4b0c2281, 0xfffa3942, 4, 0xc410d3be, 0x410d3bec, 0xb3707ebf);
    Step(2, 1, r0, Registers(0x9f47e4f8, 0xb3707ebf, 0x726342d3, 0xa62884aa),
         x, 8, 0x00000000, 0x673bb8c6, 0x8771f681, 11, 0x8df5943f, 0xaca1fc6f, 0x60127b2e);
    Step(2, 2, r0, Registers(0xa62884aa, 0x60127b2e, 0xb3707ebf, 0x726342d3),
         x, 11, 0x00000000, 0xa1014742, 0x6d9d6122, 16, 0xb4c72d0e, 0x2d0eb4c7, 0x8d212ff5);
    Step(2, 3, r0, Registers(0x726342d3, 0x8d212ff5, 0x60127b2e, 0xb3707ebf),
         x, 14, 0x00000018, 0x5e432a64, 0xfde5380c, 23, 0xce8ba55b, 0xade745d2, 0x3b0875c7);
    Step(2, 4, r0, Registers(0xb3707ebf, 0x3b0875c7, 0x8d212ff5, 0x60127b2e),
         x, 1, 0x00000000, 0xd63b211c, 0xa4beea44, 4, 0x2e6a8a1f, 0xe6a8a1f2, 0x21b117b9);
    Step(2, 5, r0, Registers(0x60127b2e, 0x21b117b9, 0x3b0875c7, 0x8d212ff5),
         x, 4, 0x00000000, 0x97984d8b, 0x4bdecfa9, 11, 0x43899862, 0x4cc3121c, 0x6e7429d5);
    Step(2, 6, r0, Registers(0x8d212ff5, 0x6e7429d5, 0x21b117b9, 0x3b0875c7),
         x, 7, 0x00000000, 0x74cd4bab, 0xf6bb4b60, 16, 0xf8a9c700, 0xc700f8a9, 0x3575227e);
    Step(2, 7, r0, Registers(0x3b0875c7, 0x3575227e, 0x6e7429d5, 0x21b117b9),
         x, 10, 0x00000000, 0x7ab01c12, 0xbebfbc70, 23, 0x74784e49, 0x24ba3c27, 0x5a2f5ea5);
    Step(2, 8, r0, Registers(0x21b117b9, 0x5a2f5ea5, 0x3575227e, 0x6e7429d5),
         x, 13, 0x00000000, 0x012e550e, 0x289b7ec6, 4, 0x4b7aeb8d, 0xb7aeb8d4, 0x11de1779);
    Step(2, 9, r0, Registers(0x6e7429d5, 0x11de1779, 0x5a2f5ea5, 0x3575227e),
         x, 0, 0x80636261, 0x7e846ba2, 0xeaa127fa, 11, 0x57fd1fd2, 0xe8fe92bf, 0xfadcaa38);
    Step(2, 10, r0, Registers(0x3575227e, 0xfadcaa38, 0x11de1779, 0x5a2f5ea5),
         x, 3, 0x00000000, 0xb12de3e4, 0xd4ef3085, 16, 0xbb9236e7, 0x36e7bb92, 0x31c465ca);
    Step(2, 11, r0, Registers(0x5a2f5ea5, 0x31c465ca, 0xfadcaa38, 0x11de1779),
         x, 6, 0x00000000, 0xdac6d88b, 0x04881d05, 23, 0x397e5435, 0x1a9cbf2a, 0x4c6124f4);
    Step(2, 12, r0, Registers(0x11de1779, 0x4c6124f4, 0x31c465ca, 0xfadcaa38),
         x, 9, 0x00000000, 0x8779eb06, 0xd9d4d039, 4, 0x732cd2b8, 0x32cd2b87, 0x7f2e507b);
    Step(2, 13, r0, Registers(0xfadcaa38, 0x7f2e507b, 0x4c6124f4, 0x31c465ca),
         x, 12, 0x00000000, 0x028b1145, 0xe6db99e5, 11, 0xe4435562, 0x1aab1722, 0x99d9679d);
    Step(2, 14, r0, Registers(0x31c465ca, 0x99d9679d, 0x7f2e507b, 0x4c6124f4),
         x, 15, 0x00000000, 0xaa961312, 0x1fa27cf8, 16, 0xfbfcf5d4, 0xf5d4fbfc, 0x8fae6399);
    Step(2, 15, r0, Registers(0x4c6124f4, 0x8fae6399, 0x99d9679d, 0x7f2e507b),
         x, 2, 0x00000000, 0x6959547f, 0xc4ac5665, 23, 0x7a66cfd8, 0xec3d3367, 0x7beb9700);
  }

  lemma AbcRound4(x: seq<bv32>, r0: Registers)
    requires AbcWords(x) && r0 == Registers(0x7f2e507b, 0x7beb9700, 0x8fae6399, 0x99d9679d)
    ensures Operations(3, 16, r0, x) == Registers(0x310ade8f, 0xc08226b3, 0xe484b9d8, 0x624d8cb2)
  {
    hide Operations, T, Shift, Index, Plan;
    Plan4();
    StartRound(3, r0, x);
    Step(3, 0, r0, Registers(0x7f2e507b, 0x7beb9700, 0x8fae6399, 0x99d9679d),
         x, 0, 0x80636261, 0xf041fcfb, 0xf4292244, 6, 0xe3fcd21b, 0xff3486f8, 0x7b201df8);
    Step(3, 1, r0, Registers(0x99d9679d, 0x7b201df8, 0x7beb9700, 0x8fae6399),
         x, 7, 0x00000000, 0x009a0afe, 0x432aff97, 10, 0xdd9e7232, 0x79c8cb76, 0xf4e8e96e);
    Step(3, 2, r0, Registers(0x8fae6399, 0xf4e8e96e, 0x7b201df8, 0x7beb9700),
         x, 14, 0x00000018, 0x8fdcf407, 0xab9423a7, 15, 0xcb1f7b5f, 0xbdafe58f, 0xb298cefd);
    Step(3, 3, r0, Registers(0x7beb9700, 0xb298cefd, 0xf4e8e96e, 0x7b201df8),
         x, 5, 0x00000000, 0x42370791, 0xfc93a039, 21, 0xbab63eca, 0xd95756c7, 0x8bf025c4);
    Step(3, 4, r0, Registers(0x7b201df8, 0x8bf025c4, 0xb298cefd, 0xf4e8e96e),
         x, 12, 0x00000000, 0x396ff928, 0x655b59c3, 6, 0x19eb70e3, 0x7adc38c6, 0x06cc5e8a);
    Step(3, 5, r0, Registers(0xf4e8e96e, 0x06cc5e8a, 0x8bf025c4, 0xb298cefd),
         x, 3, 0x00000000, 0xc41f5a4e, 0x8f0ccc92, 10, 0x4815104e, 0x54413920, 0x5b0d97aa);
    Step(3, 6, r0, Registers(0xb298cefd, 0x5b0d97aa, 0x06cc5e8a, 0x8bf025c4),
         x, 10, 0x00000000, 0x79c38131, 0xffeff47d, 15, 0x2c4c44ab, 0x22559626, 0x7d632dd0);
    Step(3, 7, r0, Registers(0x8bf025c4, 0x7d632dd0, 0x5b0d97aa, 0x06cc5e8a),
         x, 1, 0x00000000, 0xa67e3a5f, 0x85845dd1, 21, 0xb7f2bdf4, 0xbe96fe57, 0x3bfa2c27);
    Step(3, 8, r0, Registers(0x06cc5e8a, 0x3bfa2c27, 0x7d632dd0, 0x5b0d97aa),
         x, 8, 0x00000000, 0xc29941a7, 0x6fa87e4f, 6, 0x390e1e80, 0x4387a00e, 0x7f81cc35);
    Step(3, 9, r0, Registers(0x5b0d97aa, 0x7f81cc35, 0x3bfa2c27, 0x7d632dd0),
         x, 15, 0x00000000, 0xc467f218, 0xfe2ce6e0, 10, 0x1da270a2, 0x89c28876, 0x094454ab);
    Step(3, 10, r0, Registers(0x7d632dd0, 0x094454ab, 0x7f81cc35, 0x3bfa2c27),
         x, 6, 0x00000000, 0xb2c41bce, 0xa3014314, 15, 0xd3288cb2, 0x46596994, 0x4f9dbe3f);
    Step(3, 11, r0, Registers(0x3bfa2c27, 0x4f9dbe3f, 0x094454ab, 0x7f81cc35),
         x, 13, 0x00000000, 0xc6bbeb54, 0x4e0811a1, 21, 0x50be291c, 0x238a17c5, 0x7327d604);
    Step(3, 12, r0, Registers(0x7f81cc35, 0x7327d604, 0x4f9dbe3f, 0x094454ab),
         x, 4, 0x00000000, 0xb822416b, 0xf7537e82, 6, 0x2ef78c22, 0xbde3088b, 0x310ade8f);
    Step(3, 13, r0, Registers(0x094454ab, 0x310ade8f, 0x7327d604, 0x4f9dbe3f),
         x, 11, 0x00000000, 0xc24d09cb, 0xbd3af235, 10, 0x88cc50ab, 0x3142ae23, 0x624d8cb2);
    Step(3, 14, r0, Registers(0x4f9dbe3f, 0x624d8cb2, 0x310ade8f, 0x7327d604),
         x, 2, 0x00000000, 0xdfd77374, 0x2ad7d2bb, 15, 0x5a4d046e, 0x82372d26, 0xe484b9d8);
    Step(3, 15, r0, Registers(0x7327d604, 0xe484b9d8, 0x624d8cb2, 0x310ade8f),
         x, 9, 0x00000000, 0x8cb8354a, 0xeb86d391, 21, 0xeb66dedf, 0xdbfd6cdb, 0xc08226b3);
  }

  lemma AbcCompressed(x: seq<bv32>)
    requires AbcWords(x)
    ensures Compress(Registers(0x67452301, 0xefcdab89, 0x98badcfe, 0x10325476), x) == Registers(0x98500190, 0xb04fd23c, 0x7d3f96d6, 0x727fe128)
  {
    assert |x| == 16;
    hide Operations, Compress, AbcWords;
    var r0 := Registers(0x67452301, 0xefcdab89, 0x98badcfe, 0x10325476);
    var r1 := Registers(0xdda9b9a6, 0x72aff2e0, 0xe396856b, 0xa1051895);
    var r2 := Registers(0x790a77fb, 0x726342d3, 0xa62884aa, 0x9f47e4f8);
    var r3 := Registers(0x7f2e507b, 0x7beb9700, 0x8fae6399, 0x99d9679d);
    var r4 := Registers(0x310ade8f, 0xc08226b3, 0xe484b9d8, 0x624d8cb2);
    AbcRound1(x, r0);
    AbcRound2(x, r1);
    AbcRound3(x, r2);
    AbcRound4(x, r3);
    Compressed(r0, r1, r2, r3, r4, x, Registers(0x98500190, 0xb04fd23c, 0x7d3f96d6, 0x727fe128));
  }

  // ----- The letters and digits -----

  predicate Letters1Words(x: seq<bv32>) {
    && |x| == 16
    && x[0] == 0x44434241 && x[1] == 0x48474645 && x[2] == 0x4c4b4a49 && x[3] == 0x504f4e4d
    && x[4] == 0x54535251 && x[5] == 0x58575655 && x[6] == 0x62615a59 && x[7] == 0x66656463
    && x[8] == 0x6a696867 && x[9] == 0x6e6d6c6b && x[10] == 0x7271706f && x[11] == 0x76757473
    && x[12] == 0x7a797877 && x[13] == 0x33323130 && x[14] == 0x37363534 && x[15] == 0x00803938
  }

  lemma Letters1Round1(x: seq<bv32>, r0: Registers)
    requires Letters1Words(x) && r0 == Registers(0x67452301, 0xefcdab89, 0x98badcfe, 0x10325476)
    ensures Operations(0, 16, r0, x) == Registers(0x3cbdcd45, 0x5d38e690, 0xfa148c8a, 0xb8dec763)
  {
    hide Operations, T, Shift, Index, Plan;
    Plan1();
    StartRound(0, r0, x);
    Step(0, 0, r0, Registers(0x67452301, 0xefcdab89, 0x98badcfe, 0x10325476),
         x, 0, 0x44434241, 0x98badcfe, 0xd76aa478, 7, 0x1bade6b8, 0xd6f35c0d, 0xc6c10796);
    Step(0, 1, r0, Registers(0x10325476, 0xc6c10796, 0xefcdab89, 0x98badcfe),
         x, 1, 0x48474645, 0xdefbdbe8, 0xe8c7b756, 12, 0x203d2df9, 0xd2df9203, 0x99a09999);
    Step(0, 2, r0, Registers(0x98badcfe, 0x99a09999, 0xc6c10796, 0xefcdab89),
         x, 2, 0x4c4b4a49, 0xe6cd2390, 0x242070db, 17, 0xeff3bbb2, 0x7765dfe7, 0x11067980);
    Step(0, 3, r0, Registers(0xefcdab89, 0x11067980, 0x99a09999, 0xc6c10796),
         x, 3, 0x504f4e4d, 0xd7c11f96, 0xc1bdceee, 22, 0xd99be85a, 0x16b666fa, 0x27bce07a);
    Step(0, 4, r0, Registers(0xc6c10796, 0x27bce07a, 0x11067980, 0x99a09999),
         x, 4, 0x54535251, 0x99047981, 0xf57c0faf, 7, 0xa994e317, 0xca718bd4, 0xf22e6c4e);
    Step(0, 5, r0, Registers(0x99a09999, 0xf22e6c4e, 0x27bce07a, 0x11067980),
         x, 5, 0x58575655, 0x232c71ca, 0x4787c62a, 12, 0x5cac27e2, 0xc27e25ca, 0xb4ac9218);
    Step(0, 6, r0, Registers(0x11067980, 0xb4ac9218, 0xf22e6c4e, 0x27bce07a),
         x, 6, 0x62615a59, 0xb33c606a, 0xa8304613, 17, 0xced47a56, 0xf4ad9da8, 0xa95a2fc0);
    Step(0, 7, r0, Registers(0x27bce07a, 0xa95a2fc0, 0xb4ac9218, 0xf22e6c4e),
         x, 7, 0x66656463, 0xf22c420e, 0xfd469501, 22, 0x7d951bec, 0xfb1f6546, 0xa4799506);
    Step(0, 8, r0, Registers(0xf22e6c4e, 0xa4799506, 0xa95a2fc0, 0xb4ac9218),
         x, 8, 0x6a696867, 0xb0dc0718, 0x698098d8, 7, 0x76f474a5, 0x7a3a52bb, 0x1eb3e7c1);
    Step(0, 9, r0, Registers(0xb4ac9218, 0x1eb3e7c1, 0xa4799506, 0xa95a2fc0),
         x, 9, 0x6e6d6c6b, 0xa5798d00, 0x8b44f7af, 12, 0x53d88332, 0x8833253d, 0xa6e70cfe);
    Step(0, 10, r0, Registers(0xa95a2fc0, 0xa6e70cfe, 0x1eb3e7c1, 0xa4799506),
         x, 10, 0x7271706f, 0x06bb95c0, 0xffff5bb1, 17, 0x228691a0, 0x2340450d, 0xca27520b);
    Step(0, 11, r0, Registers(0xa4799506, 0xca27520b, 0xa6e70cfe, 0x1eb3e7c1),
         x, 11, 0x76757473, 0x96b7a5ca, 0x895cd7be, 22, 0x3b038701, 0xc04ec0e1, 0x8a7612ec);
    Step(0, 12, r0, Registers(0x1eb3e7c1, 0x8a7612ec, 0xca27520b, 0xa6e70cfe),
         x, 12, 0x7a797877, 0xaea71e1a, 0x6b901122, 7, 0xb3648f74, 0xb247ba59, 0x3cbdcd45);
    Step(0, 13, r0, Registers(0xa6e70cfe, 0x3cbdcd45, 0x8a7612ec, 0xca27520b),
         x, 13, 0x33323130, 0xca36124e, 0xfd987193, 12, 0xa1e7c20f, 0x7c20fa1e, 0xb8dec763);
    Step(0, 14, r0, Registers(0xca27520b, 0xb8dec763, 0x3cbdcd45, 0x8a7612ec),
         x, 14, 0x37363534, 0x3abcd5cd, 0xa679438e, 17, 0xe293a09a, 0x4135c527, 0xfa148c8a);
    Step(0, 15, r0, Registers(0x8a7612ec, 0xfa148c8a, 0xb8dec763, 0x3cbdcd45),
         x, 15, 0x00803938, 0xbcbdc547, 0x49b40821, 22, 0x9168198c, 0x63245a06, 0x5d38e690);
  }

  lemma Letters1Round2(x: seq<bv32>, r0: Registers)
    requires Letters1Words(x) && r0 == Registers(0x3cbdcd45, 0x5d38e690, 0xfa148c8a, 0xb8dec763)
    ensures Operations(1, 16, r0, x) == Registers(0x9b085fa9, 0xdd789ecc, 0x5993248f, 0x4400a9bd)
  {
    hide Operations, T, Shift, Index, Plan;
    Plan2();
    StartRound(1, r0, x);
    Step(1, 0, r0, Registers(0x3cbdcd45, 0x5d38e690, 0xfa148c8a, 0xb8dec763),
         x, 1, 0x48474645, 0x5a18ce88, 0xf61e2562, 5, 0xd53c0774, 0xa780ee9a, 0x04b9d52a);
    Step(1, 1, r0, Registers(0xb8dec763, 0x04b9d52a, 0x5d38e690, 0xfa148c8a),
         x, 6, 0x62615a59, 0x0538e61a, 0xc040b340, 9, 0xe0b9bb16, 0x73762dc1, 0x783002eb);
    Step(1, 2, r0, Registers(0xfa148c8a, 0x783002eb, 0x04b9d52a, 0x5d38e690),
         x, 11, 0x76757473, 0x58b113aa, 0x265e5a51, 14, 0xef996ef8, 0x5bbe3be6, 0xd3ee3ed1);
    Step(1, 3, r0, Registers(0x5d38e690, 0xd3ee3ed1, 0x783002eb, 0x04b9d52a),
         x, 0, 0x44434241, 0x78a816c1, 0xe9b6c7aa, 20, 0x03db073c, 0x73c03db0, 0x47ae7c81);
    Step(1, 4, r0, Registers(0x04b9d52a, 0x47ae7c81, 0xd3ee3ed1, 0x783002eb),
         x, 5, 0x58575655, 0xc3ee3c91, 0xd62f105d, 5, 0xf72e786d, 0xe5cf0dbe, 0x2d7d8a3f);
    Step(1, 5, r0, Registers(0x783002eb, 0x2d7d8a3f, 0x47ae7c81, 0xd3ee3ed1),
         x, 10, 0x7271706f, 0x056c4a11, 0x02441453, 9, 0xf251d1be, 0xa3a37de4, 0xd1210823);
    Step(1, 6, r0, Registers(0xd3ee3ed1, 0xd1210823, 0x2d7d8a3f, 0x47ae7c81),
         x, 15, 0x00803938, 0x69718a3f, 0xd8a1e681, 14, 0x1681e8c9, 0x7a3245a0, 0x4b534dc3);
    Step(1, 7, r0, Registers(0x47ae7c81, 0x4b534dc3, 0xd1210823, 0x2d7d8a3f),
         x, 4, 0x54535251, 0xd9510803, 0xe7d3fbc8, 20, 0x5d26d29d, 0x29d5d26d, 0x75292030);
    Step(1, 8, r0, Registers(0x2d7d8a3f, 0x75292030, 0x4b534dc3, 0xd1210823),
         x, 9, 0x6e6d6c6b, 0x5b7345e0, 0x21e1cde6, 5, 0x19400a70, 0x28014e03, 0x9d2a6e33);
    Step(1, 9, r0, Registers(0xd1210823, 0x9d2a6e33, 0x75292030, 0x4b534dc3),
         x, 14, 0x37363534, 0x3d2a6c33, 0xc33707d6, 9, 0x08b8b160, 0x7162c011, 0x0e8d2e44);
    Step(1, 10, r0, Registers(0x4b534dc3, 0x0e8d2e44, 0x9d2a6e33, 0x75292030),
         x, 3, 0x504f4e4d, 0x8c0b6e03, 0xf4d50d87, 14, 0x1c83179a, 0xc5e68720, 0xd473b564);
    Step(1, 11, r0, Registers(0x75292030, 0xd473b564, 0x0e8d2e44, 0x9d2a6e33),
         x, 8, 0x6a696867, 0x96a72464, 0x455a14ed, 20, 0xbb93c1e8, 0x1e8bb93c, 0xf2ff6ea0);
    Step(1, 12, r0, Registers(0x9d2a6e33, 0xf2ff6ea0, 0xd473b564, 0x0e8d2e44),
         x, 13, 0x33323130, 0xd2ffbf20, 0xa9e3e905, 5, 0x4d404788, 0xa808f109, 0x9b085fa9);
    Step(1, 13, r0, Registers(0x0e8d2e44, 0x9b085fa9, 0xf2ff6ea0, 0xd473b564),
         x, 2, 0x4c4b4a49, 0xb28c5fa0, 0xfcefa3f8, 9, 0x0a547c25, 0xa8f84a14, 0x4400a9bd);
    Step(1, 14, r0, Registers(0xd473b564, 0x4400a9bd, 0x9b085fa9, 0xf2ff6ea0),
         x, 7, 0x66656463, 0x490039a9, 0x676f02d9, 14, 0xeb485649, 0x15927ad2, 0x5993248f);
    Step(1, 15, r0, Registers(0xf2ff6ea0, 0x5993248f, 0x4400a9bd, 0x9b085fa9),
         x, 12, 0x7a797877, 0x5d00a49d, 0x8d2a4c8a, 20, 0x57a3d83e, 0x83e57a3d, 0xdd789ecc);
  }

  lemma Letters1Round3(x: seq<bv32>, r0: Registers)
    requires Letters1Words(x) && r0 == Registers(0x9b085fa9, 0xdd789ecc, 0x5993248f, 0x4400a9bd)
    ensures Operations(2, 16, r0, x) == Registers(0x2dbee21d, 0xf166f514, 0xee46e961, 0xe95c3a43)
  {
    hide Operations, T, Shift, Index, Plan;
    Plan3();
    StartRound(2, r0, x);
    Step(2, 0, r0, Registers(0x9b085fa9, 0xdd789ecc, 0x5993248f, 0x4400a9bd),
         x, 5, 0x58575655, 0xc0eb13fe, 0xfffa3942, 4, 0xb445033e, 0x445033eb, 0x21c8d2b7);
    Step(2, 1, r0, Registers(0x4400a9bd, 0x21c8d2b7, 0xdd789ecc, 0x5993248f),
         x, 8, 0x6a696867, 0xa52368f4, 0x8771f681, 11, 0xdaff7199, 0xfb8cced7, 0x1d55a18e);
    Step(2, 2, r0, Registers(0x5993248f, 0x1d55a18e, 0x21c8d2b7, 0xdd789ecc),
         x, 11, 0x76757473, 0xe1e5edf5, 0x6d9d6122, 16, 0x1f8be819, 0xe8191f8b, 0x056ec119);
    Step(2, 3, r0, Registers(0xdd789ecc, 0x056ec119, 0x1d55a18e, 0x21c8d2b7),
         x, 14, 0x37363534, 0x39f3b220, 0xfde5380c, 23, 0x4c87be2c, 0x162643df, 0x1b9504f8);
    Step(2, 4, r0, Registers(0x21c8d2b7, 0x1b9504f8, 0x056ec119, 0x1d55a18e),
         x, 1, 0x48474645, 0x03ae646f, 0xa4beea44, 4, 0x127d67af, 0x27d67af1, 0x436b7fe9);
    Step(2, 5, r0, Registers(0x1d55a18e, 0x436b7fe9, 0x1b9504f8, 0x056ec119),
         x, 4, 0x54535251, 0x5d90ba08, 0x4bdecfa9, 11, 0x1b187d90, 0xc3ec80d8, 0x075800c1);
    Step(2, 6, r0, Registers(0x056ec119, 0x075800c1, 0x436b7fe9, 0x1b9504f8),
         x, 7, 0x66656463, 0x5fa67bd0, 0xf6bb4b60, 16, 0xc235ecac, 0xecacc235, 0xf404c2f6);
    Step(2, 7, r0, Registers(0x1b9504f8, 0xf404c2f6, 0x075800c1, 0x436b7fe9),
         x, 10, 0x7271706f, 0xb037bdde, 0xbebfbc70, 23, 0xfcfdefb5, 0xdafe7ef7, 0xcf0341ed);
    Step(2, 8, r0, Registers(0x436b7fe9, 0xcf0341ed, 0xf404c2f6, 0x075800c1),
         x, 13, 0x33323130, 0x3c5f83da, 0x289b7ec6, 4, 0xdb98b3b9, 0xb98b3b9d, 0x888e7d8a);
    Step(2, 9, r0, Registers(0x075800c1, 0x888e7d8a, 0xcf0341ed, 0xf404c2f6),
         x, 0, 0x44434241, 0xb389fe91, 0xeaa127fa, 11, 0xe9c6698d, 0x334c6f4e, 0xbbdaecd8);
    Step(2, 10, r0, Registers(0xf404c2f6, 0xbbdaecd8, 0x888e7d8a, 0xcf0341ed),
         x, 3, 0x504f4e4d, 0xfc57d0bf, 0xd4ef3085, 16, 0x159b1287, 0x1287159b, 0xce620273);
    Step(2, 11, r0, Registers(0xcf0341ed, 0xce620273, 0xbbdaecd8, 0x888e7d8a),
         x, 6, 0x62615a59, 0xfd369321, 0x04881d05, 23, 0x33234c6c, 0x361991a6, 0x047b9419);
    Step(2, 12, r0, Registers(0x888e7d8a, 0x047b9419, 0xce620273, 0xbbdaecd8),
         x, 9, 0x6e6d6c6b, 0x71c37ab2, 0xd9d4d039, 4, 0x429434e0, 0x29434e04, 0x2dbee21d);
    Step(2, 13, r0, Registers(0xbbdaecd8, 0x2dbee21d, 0x047b9419, 0xce620273),
         x, 12, 0x7a797877, 0xe7a77477, 0xe6db99e5, 11, 0x04d773ab, 0xbb9d5826, 0xe95c3a43);
    Step(2, 14, r0, Registers(0xce620273, 0xe95c3a43, 0x2dbee21d, 0x047b9419),
         x, 15, 0x00803938, 0xc0994c47, 0x1fa27cf8, 16, 0xaf1e04ea, 0x04eaaf1e, 0xee46e961);
    Step(2, 15, r0, Registers(0x047b9419, 0xee46e961, 0xe95c3a43, 0x2dbee21d),
         x, 2, 0x4c4b4a49, 0x2aa4313f, 0xc4ac5665, 23, 0x40176606, 0x03200bb3, 0xf166f514);
  }

  lemma Letters1Round4(x: seq<bv32>, r0: Registers)
    requires Letters1Words(x) && r0 == Registers(0x2dbee21d, 0xf166f514, 0xee46e961, 0xe95c3a43)
    ensures Operations(3, 16, r0, x) == Registers(0x1cb80f0a, 0xef2e3a46, 0x10f68731, 0xea3d3eb4)
  {
    hide Operations, T, Shift, Index, Plan;
    Plan4();
    StartRound(3, r0, x);
    Step(3, 0, r0, Registers(0x2dbee21d, 0xf166f514, 0xee46e961, 0xe95c3a43),
         x, 0, 0x44434241, 0x19a11cdd, 0xf4292244, 6, 0x7fcc637f, 0xf318dfdf, 0xe47fd4f3);
    Step(3, 1, r0, Registers(0xe95c3a43, 0xe47fd4f3, 0xf166f514, 0xee46e961),
         x, 7, 0x66656463, 0x049923eb, 0x432aff97, 10, 0x9785c228, 0x1708a25e, 0xfb887751);
    Step(3, 2, r0, Registers(0xee46e961, 0xfb887751, 0xe47fd4f3, 0xf166f514),
         x, 14, 0x37363534, 0x1be6ab08, 0xab9423a7, 15, 0xecf7ed44, 0xf6a2767b, 0xf22aedcc);
    Step(3, 3, r0, Registers(0xf166f514, 0xf22aedcc, 0xfb887751, 0xe47fd4f3),
         x, 5, 0x58575655, 0x0022989d, 0xfc93a039, 21, 0x4674843f, 0x87e8ce90, 0x7a13bc5c);
    Step(3, 4, r0, Registers(0xe47fd4f3, 0x7a13bc5c, 0xf22aedcc, 0xfb887751),
         x, 12, 0x7a797877, 0x8c5d5132, 0x655b59c3, 6, 0x50b1f85f, 0x2c7e17d4, 0xa691d430);
    Step(3, 5, r0, Registers(0xfb887751, 0xa691d430, 0x7a13bc5c, 0xf22aedcc),
         x, 3, 0x504f4e4d, 0xd5c66a6f, 0x8f0ccc92, 10, 0xb0aafc9f, 0xabf27ec2, 0x528452f2);
    Step(3, 6, r0, Registers(0xf22aedcc, 0x528452f2, 0xa691d430, 0x7a13bc5c),
         x, 10, 0x7271706f, 0x717d87c3, 0xffeff47d, 15, 0xd609da7b, 0xed3deb04, 0x3fc23df6);
    Step(3, 7, r0, Registers(0x7a13bc5c, 0x3fc23df6, 0x528452f2, 0xa691d430),
         x, 1, 0x48474645, 0x2d6a6d0d, 0x85845dd1, 21, 0x7549cd7f, 0xafeea939, 0xefb0e72f);
    Step(3, 8, r0, Registers(0xa691d430, 0xefb0e72f, 0x3fc23df6, 0x528452f2),
         x, 8, 0x6a696867, 0xd039d2d9, 0x6fa87e4f, 6, 0x50dd8dbf, 0x37636fd4, 0x27145703);
    Step(3, 9, r0, Registers(0x528452f2, 0x27145703, 0xefb0e72f, 0x3fc23df6),
         x, 15, 0x00803938, 0x088d3024, 0xfe2ce6e0, 10, 0x59bea32e, 0xfa8cb966, 0x21a11069);
    Step(3, 10, r0, Registers(0x3fc23df6, 0x21a11069, 0x27145703, 0xefb0e72f),
         x, 6, 0x62615a59, 0x16fb4ffa, 0xa3014314, 15, 0x5c202b5d, 0x15aeae10, 0x374fbe79);
    Step(3, 11, r0, Registers(0xefb0e72f, 0x374fbe79, 0x21a11069, 0x27145703),
         x, 13, 0x33323130, 0xde4eae94, 0x4e0811a1, 21, 0x4f39d894, 0x1289e73b, 0x49d9a5b4);
    Step(3, 12, r0, Registers(0x27145703, 0x49d9a5b4, 0x374fbe79, 0x21a11069),
         x, 4, 0x54535251, 0xe89051cf, 0xf7537e82, 6, 0x5b4b79a5, 0xd2de6956, 0x1cb80f0a);
    Step(3, 13, r0, Registers(0x21a11069, 0x1cb80f0a, 0x49d9a5b4, 0x374fbe79),
         x, 11, 0x76757473, 0x9561ea3a, 0xbd3af235, 10, 0xeab3614b, 0xcd852faa, 0xea3d3eb4);
    Step(3, 14, r0, Registers(0x374fbe79, 0xea3d3eb4, 0x1cb80f0a, 0x49d9a5b4),
         x, 2, 0x4c4b4a49, 0xe28771f5, 0x2ad7d2bb, 15, 0x90fa4d72, 0x26b9487d, 0x10f68731);
    Step(3, 15, r0, Registers(0x49d9a5b4, 0x10f68731, 0xea3d3eb4, 0x1cb80f0a),
         x, 9, 0x6e6d6c6b, 0x19cac941, 0xeb86d391, 21, 0xbd98aef1, 0xde37b315, 0xef2e3a46);
  }

  lemma Letters1Compressed(x: seq<bv32>)
    requires Letters1Words(x)
    ensures Compress(Registers(0x67452301, 0xefcdab89, 0x98badcfe, 0x10325476), x) == Registers(0x83fd320b, 0xdefbe5cf, 0xa9b1642f, 0xfa6f932a)
  {
    assert |x| == 16;
    hide Operations, Compress, Letters1Words;
    var r0 := Registers(0x67452301, 0xefcdab89, 0x98badcfe, 0x10325476);
    var r1 := Registers(0x3cbdcd45, 0x5d38e690, 0xfa148c8a, 0xb8dec763);
    var r2 := Registers(0x9b085fa9, 0xdd789ecc, 0x5993248f, 0x4400a9bd);
    var r3 := Registers(0x2dbee21d, 0xf166f514, 0xee46e961, 0xe95c3a43);
    var r4 := Registers(0x1cb80f0a, 0xef2e3a46, 0x10f68731, 0xea3d3eb4);
    Letters1Round1(x, r0);
    Letters1Round2(x, r1);
    Letters1Round3(x, r2);
    Letters1Round4(x, r3);
    Compressed(r0, r1, r2, r3, r4, x, Registers(0x83fd320b, 0xdefbe5cf, 0xa9b1642f, 0xfa6f932a));
  }

  predicate Letters2Words(x: seq<bv32>) {
    && |x| == 16
    && x[0] == 0x00000000 && x[1] == 0x00000000 && x[2] == 0x00000000 && x[3] == 0x00000000
    && x[4] == 0x00000000 && x[5] == 0x00000000 && x[6] == 0x00000000 && x[7] == 0x00000000
    && x[8] == 0x00000000 && x[9] == 0x00000000 && x[10] == 0x00000000 && x[11] == 0x00000000
    && x[12] == 0x00000000 && x[13] == 0x00000000 && x[14] == 0x000001f0 && x[15] == 0x00000000
  }

  lemma Letters2Round1(x: seq<bv32>, r0: Registers)
    requires Letters2Words(x) && r0 == Registers(0x83fd320b, 0xdefbe5cf, 0xa9b1642f, 0xfa6f932a)
    ensures Operations(0, 16, r0, x) == Registers(0xa70737da, 0xa36f556f, 0x96f6586e, 0x5473f8a7)
  {
    hide Operations, T, Shift, Index, Plan;
    Plan1();
    StartRound(0, r0, x);
    Step(0, 0, r0, Registers(0x83fd320b, 0xdefbe5cf, 0xa9b1642f, 0xfa6f932a),
         x, 0, 0x00000000, 0xa8b5762f, 0xd76aa478, 7, 0x041d4cb2, 0x0ea65902, 0xeda23ed1);
    Step(0, 1, r0, Registers(0xfa6f932a, 0xeda23ed1, 0xdefbe5cf, 0xa9b1642f),
         x, 1, 0x00000000, 0xccb364ef, 0xe8c7b756, 12, 0xafeaaf6f, 0xaaf6fafe, 0x989939cf);
    Step(0, 2, r0, Registers(0xa9b1642f, 0x989939cf, 0xeda23ed1, 0xdefbe5cf),
         x, 2, 0x00000000, 0xcee2fcc1, 0x242070db, 17, 0x9cb4d1cb, 0xa3973969, 0x3c307338);
    Step(0, 3, r0, Registers(0xdefbe5cf, 0x3c307338, 0x989939cf, 0xeda23ed1),
         x, 3, 0x00000000, 0xd9923dc9, 0xc1bdceee, 22, 0x7a4bf286, 0xa19e92fc, 0xddcf0634);
    Step(0, 4, r0, Registers(0xeda23ed1, 0xddcf0634, 0x3c307338, 0x989939cf),
         x, 4, 0x00000000, 0x1c103bfb, 0xf57c0faf, 7, 0xff2e8a7b, 0x97453dff, 0x75144433);
    Step(0, 5, r0, Registers(0x989939cf, 0x75144433, 0xddcf0634, 0x3c307338),
         x, 5, 0x00000000, 0x5d243738, 0x4787c62a, 12, 0x3d453731, 0x537313d4, 0xc8875807);
    Step(0, 6, r0, Registers(0x3c307338, 0xc8875807, 0x75144433, 0xddcf0634),
         x, 6, 0x00000000, 0x554c4633, 0xa8304613, 17, 0x39acff7e, 0xfefc7359, 0xc783cb60);
    Step(0, 7, r0, Registers(0xddcf0634, 0xc783cb60, 0xc8875807, 0x75144433),
         x, 7, 0x00000000, 0xf0974c13, 0xfd469501, 22, 0xcbace748, 0xd232eb39, 0x99b6b699);
    Step(0, 8, r0, Registers(0x75144433, 0x99b6b699, 0xc783cb60, 0xc8875807),
         x, 8, 0x00000000, 0xc183ca06, 0x698098d8, 7, 0xa018a711, 0x0c5388d0, 0xa60a3f69);
    Step(0, 9, r0, Registers(0xc8875807, 0xa60a3f69, 0x99b6b699, 0xc783cb60),
         x, 9, 0x00000000, 0xc183f609, 0x8b44f7af, 12, 0x155045bf, 0x045bf155, 0xaa6630be);
    Step(0, 10, r0, Registers(0xc783cb60, 0xaa6630be, 0xa60a3f69, 0x99b6b699),
         x, 10, 0x00000000, 0xb392b629, 0xffff5bb1, 17, 0x7b15dd3a, 0xba74f62b, 0x64db26e9);
    Step(0, 11, r0, Registers(0x99b6b699, 0x64db26e9, 0xaa6630be, 0xa60a3f69),
         x, 11, 0x00000000, 0xa24239a8, 0x895cd7be, 22, 0xc555c7ff, 0xfff15571, 0x64cc7c5a);
    Step(0, 12, r0, Registers(0xa60a3f69, 0x64cc7c5a, 0x64db26e9, 0xaa6630be),
         x, 12, 0x00000000, 0xeeea24ec, 0x6b901122, 7, 0x00847577, 0x423abb80, 0xa70737da);
    Step(0, 13, r0, Registers(0xaa6630be, 0xa70737da, 0x64cc7c5a, 0x64db26e9),
         x, 13, 0x00000000, 0x64dc347b, 0xfd987193, 12, 0x0cdad6cc, 0xad6cc0cd, 0x5473f8a7);
    Step(0, 14, r0, Registers(0x64db26e9, 0x5473f8a7, 0xa70737da, 0x64cc7c5a),
         x, 14, 0x000001f0, 0x248f34da, 0xa679438e, 17, 0x2fe3a141, 0x42825fc7, 0x96f6586e);
    Step(0, 15, r0, Registers(0x64cc7c5a, 0x96f6586e, 0x5473f8a7, 0xa70737da),
         x, 15, 0x00000000, 0x35737fb6, 0x49b40821, 22, 0xe3f40431, 0x0c78fd01, 0xa36f556f);
  }

  lemma Letters2Round2(x: seq<bv32>, r0: Registers)
    requires Letters2Words(x) && r0 == Registers(0xa70737da, 0xa36f556f, 0x96f6586e, 0x5473f8a7)
    ensures Operations(1, 16, r0, x) == Registers(0x24eba695, 0x9c03e2e8, 0x10c42a2f, 0x4bd0378b)
  {
    hide Operations, T, Shift, Index, Plan;
    Plan2();
    StartRound(1, r0, x);
    Step(1, 0, r0, Registers(0xa70737da, 0xa36f556f, 0x96f6586e, 0x5473f8a7),
         x, 1, 0x00000000, 0x82e7506f, 0xf61e2562, 5, 0x200cadab, 0x0195b564, 0xa5050ad3);
    Step(1, 1, r0, Registers(0x5473f8a7, 0xa5050ad3, 0xa36f556f, 0x96f6586e),
         x, 6, 0x00000000, 0xa50d0d43, 0xc040b340, 9, 0xb9c1b92a, 0x83725573, 0x28776046);
    Step(1, 2, r0, Registers(0x96f6586e, 0x28776046, 0xa5050ad3, 0xa36f556f),
         x, 11, 0x00000000, 0x24674ad6, 0x265e5a51, 14, 0xe1bbfd95, 0xff65786e, 0x27dcd8b4);
    Step(1, 3, r0, Registers(0xa36f556f, 0x27dcd8b4, 0x28776046, 0xa5050ad3),
         x, 0, 0x00000000, 0x2d766894, 0xe9b6c7aa, 20, 0xba9c85ad, 0x5adba9c8, 0x82b8827c);
    Step(1, 4, r0, Registers(0xa5050ad3, 0x82b8827c, 0x27dcd8b4, 0x28776046),
         x, 5, 0x00000000, 0x07b898f4, 0xd62f105d, 5, 0x82ecb424, 0x5d968490, 0xe04f070c);
    Step(1, 5, r0, Registers(0x28776046, 0xe04f070c, 0x82b8827c, 0x27dcd8b4),
         x, 10, 0x00000000, 0xa06c024c, 0x02441453, 9, 0xcb2776e5, 0x4eedcb96, 0x2f3cd2a2);
    Step(1, 6, r0, Registers(0x27dcd8b4, 0x2f3cd2a2, 0xe04f070c, 0x82b8827c),
         x, 15, 0x00000000, 0x627f8720, 0xd8a1e681, 14, 0x62fe4655, 0x919558bf, 0xc0d22b61);
    Step(1, 7, r0, Registers(0x82b8827c, 0xc0d22b61, 0x2f3cd2a2, 0xe04f070c),
         x, 4, 0x00000000, 0xcf72d3a2, 0xe7d3fbc8, 20, 0x39ff51e6, 0x1e639ff5, 0xdf35cb56);
    Step(1, 8, r0, Registers(0xe04f070c, 0xdf35cb56, 0xc0d22b61, 0x2f3cd2a2),
         x, 9, 0x00000000, 0xcff6eb43, 0x21e1cde6, 5, 0xd227c035, 0x44f806ba, 0x242dd210);
    Step(1, 9, r0, Registers(0x2f3cd2a2, 0x242dd210, 0xdf35cb56, 0xc0d22b61),
         x, 14, 0x000001f0, 0x1f25c216, 0xc33707d6, 9, 0x11999e7e, 0x333cfc23, 0x576ace33);
    Step(1, 10, r0, Registers(0xc0d22b61, 0x576ace33, 0x242dd210, 0xdf35cb56),
         x, 3, 0x00000000, 0x7728da12, 0xf4d50d87, 14, 0x2cd012fa, 0x04be8b34, 0x5c295967);
    Step(1, 11, r0, Registers(0xdf35cb56, 0x5c295967, 0x576ace33, 0x242dd210),
         x, 8, 0x00000000, 0x576b5c23, 0x455a14ed, 20, 0x7bfb3c66, 0xc667bfb3, 0x2291191a);
    Step(1, 12, r0, Registers(0x242dd210, 0x2291191a, 0x5c295967, 0x576ace33),
         x, 13, 0x00000000, 0x0a011956, 0xa9e3e905, 5, 0xd812d46b, 0x025a8d7b, 0x24eba695);
    Step(1, 13, r0, Registers(0x576ace33, 0x24eba695, 0x2291191a, 0x5c295967),
         x, 2, 0x00000000, 0x26b9001d, 0xfcefa3f8, 9, 0x7b137248, 0x26e490f6, 0x4bd0378b);
    Step(1, 14, r0, Registers(0x5c295967, 0x4bd0378b, 0x24eba695, 0x2291191a),
         x, 7, 0x00000000, 0x06fab78f, 0x676f02d9, 14, 0xca9313cf, 0xc4f3f2a4, 0x10c42a2f);
    Step(1, 15, r0, Registers(0x2291191a, 0x10c42a2f, 0x4bd0378b, 0x24eba695),
         x, 12, 0x00000000, 0x4bd0330f, 0x8d2a4c8a, 20, 0xfb8b98b3, 0x8b3fb8b9, 0x9c03e2e8);
  }

  lemma Letters2Round3(x: seq<bv32>, r0: Registers)
    requires Letters2Words(x) && r0 == Registers(0x24eba695, 0x9c03e2e8, 0x10c42a2f, 0x4bd0378b)
    ensures Operations(2, 16, r0, x) == Registers(0x54c9eb3a, 0x79c0710a, 0x2ec86f72, 0xd4d9c6ac)
  {
    hide Operations, T, Shift, Index, Plan;
    Plan3();
    StartRound(2, r0, x);
    Step(2, 0, r0, Registers(0x24eba695, 0x9c03e2e8, 0x10c42a2f, 0x4bd0378b),
         x, 5, 0x00000000, 0xc717ff4c, 0xfffa3942, 4, 0xebfddf23, 0xbfddf23e, 0x5be1d526);
    Step(2, 1, r0, Registers(0x4bd0378b, 0x5be1d526, 0x9c03e2e8, 0x10c42a2f),
         x, 8, 0x00000000, 0xd7261de1, 0x8771f681, 11, 0xaa684bed, 0x425f6d53, 0x9e414279);
    Step(2, 2, r0, Registers(0x10c42a2f, 0x9e414279, 0x5be1d526, 0x9c03e2e8),
         x, 11, 0x00000000, 0x59a375b7, 0x6d9d6122, 16, 0xd8050108, 0x0108d805, 0x9f4a1a7e);
    Step(2, 3, r0, Registers(0x9c03e2e8, 0x9f4a1a7e, 0x9e414279, 0x5be1d526),
         x, 14, 0x000001f0, 0x5aea8d21, 0xfde5380c, 23, 0xf4d3aa05, 0x02fa69d5, 0xa2448453);
    Step(2, 4, r0, Registers(0x5be1d526, 0xa2448453, 0x9f4a1a7e, 0x9e414279),
         x, 1, 0x00000000, 0xa34fdc54, 0xa4beea44, 4, 0xa3f09bbe, 0x3f09bbea, 0xe14e403d);
    Step(2, 5, r0, Registers(0x9e414279, 0xe14e403d, 0xa2448453, 0x9f4a1a7e),
         x, 4, 0x00000000, 0xdc40de10, 0x4bdecfa9, 11, 0xc660f032, 0x07819633, 0xe8cfd670);
    Step(2, 6, r0, Registers(0x9f4a1a7e, 0xe8cfd670, 0xe14e403d, 0xa2448453),
         x, 7, 0x00000000, 0xabc5121e, 0xf6bb4b60, 16, 0x41ca77fc, 0x77fc41ca, 0x60cc183a);
    Step(2, 7, r0, Registers(0xa2448453, 0x60cc183a, 0xe8cfd670, 0xe14e403d),
         x, 10, 0x00000000, 0x694d8e77, 0xbebfbc70, 23, 0xca51cf3a, 0x9d6528e7, 0xfe314121);
    Step(2, 8, r0, Registers(0xe14e403d, 0xfe314121, 0x60cc183a, 0xe8cfd670),
         x, 13, 0x00000000, 0x76328f6b, 0x289b7ec6, 4, 0x801c4e6e, 0x01c4e6e8, 0xfff62809);
    Step(2, 9, r0, Registers(0xe8cfd670, 0xfff62809, 0xfe314121, 0x60cc183a),
         x, 0, 0x00000000, 0x610b7112, 0xeaa127fa, 11, 0x347c6f7c, 0xe37be1a3, 0xe37209ac);
    Step(2, 10, r0, Registers(0x60cc183a, 0xe37209ac, 0xfff62809, 0xfe314121),
         x, 3, 0x00000000, 0xe2b56084, 0xd4ef3085, 16, 0x1870a943, 0xa9431870, 0x8cb5221c);
    Step(2, 11, r0, Registers(0xfe314121, 0x8cb5221c, 0xe37209ac, 0xfff62809),
         x, 6, 0x00000000, 0x903103b9, 0x04881d05, 23, 0x92ea61df, 0xefc97530, 0x7c7e974c);
    Step(2, 12, r0, Registers(0xfff62809, 0x7c7e974c, 0x8cb5221c, 0xe37209ac),
         x, 9, 0x00000000, 0x13b9bcfc, 0xd9d4d039, 4, 0xed84b53e, 0xd84b53ee, 0x54c9eb3a);
    Step(2, 13, r0, Registers(0xe37209ac, 0x54c9eb3a, 0x7c7e974c, 0x8cb5221c),
         x, 12, 0x00000000, 0xa4025e6a, 0xe6db99e5, 11, 0x6e5001fb, 0x800fdb72, 0xd4d9c6ac);
    Step(2, 14, r0, Registers(0x8cb5221c, 0xd4d9c6ac, 0x54c9eb3a, 0x7c7e974c),
         x, 15, 0x00000000, 0xfc6ebada, 0x1fa27cf8, 16, 0xa8c659ee, 0x59eea8c6, 0x2ec86f72);
    Step(2, 15, r0, Registers(0x7c7e974c, 0x2ec86f72, 0xd4d9c6ac, 0x54c9eb3a),
         x, 2, 0x00000000, 0xaed842e4, 0xc4ac5665, 23, 0xf0033095, 0x4af80198, 0x79c0710a);
  }

  lemma Letters2Round4(x: seq<bv32>, r0: Registers)
    requires Letters2Words(x) && r0 == Registers(0x54c9eb3a, 0x79c0710a, 0x2ec86f72, 0xd4d9c6ac)
    ensures Operations(3, 16, r0, x) == Registers(0x14ae42c6, 0x16dd9203, 0x826afd76, 0xa52dae75)
  {
    hide Operations, T, Shift, Index, Plan;
    Plan4();
    StartRound(3, r0, x);
    Step(3, 0, r0, Registers(0x54c9eb3a, 0x79c0710a, 0x2ec86f72, 0xd4d9c6ac),
         x, 0, 0x00000000, 0x552e1629, 0xf4292244, 6, 0x9e2123a7, 0x8848e9e7, 0x02095af1);
    Step(3, 1, r0, Registers(0xd4d9c6ac, 0x02095af1, 0x79c0710a, 0x2ec86f72),
         x, 7, 0x00000000, 0xaaffabf7, 0x432aff97, 10, 0xc304723a, 0x11c8eb0c, 0x13d245fd);
    Step(3, 2, r0, Registers(0x2ec86f72, 0x13d245fd, 0x02095af1, 0x79c0710a),
         x, 14, 0x000001f0, 0x95f6950c, 0xab9423a7, 15, 0x70532a15, 0x950ab829, 0xa8dcfe26);
    Step(3, 3, r0, Registers(0x79c0710a, 0xa8dcfe26, 0x13d245fd, 0x02095af1),
         x, 5, 0x00000000, 0xee2cbad3, 0xfc93a039, 21, 0x6480cc16, 0x82cc9019, 0x2ba98e3f);
    Step(3, 4, r0, Registers(0x02095af1, 0x2ba98e3f, 0xa8dcfe26, 0x13d245fd),
         x, 12, 0x00000000, 0x47714019, 0x655b59c3, 6, 0xaed5f4cd, 0xb57d336b, 0xe126c1aa);
    Step(3, 5, r0, Registers(0x13d245fd, 0xe126c1aa, 0x2ba98e3f, 0xa8dcfe26),
         x, 3, 0x00000000, 0xdc8e4fc4, 0x8f0ccc92, 10, 0x7f6d6253, 0xb5894dfd, 0x96b00fa7);
    Step(3, 6, r0, Registers(0xa8dcfe26, 0x96b00fa7, 0xe126c1aa, 0x2ba98e3f),
         x, 10, 0x00000000, 0x37d0be4d, 0xffeff47d, 15, 0xe09db0f0, 0xd878704e, 0x6f287ff5);
    Step(3, 7, r0, Registers(0x2ba98e3f, 0x6f287ff5, 0x96b00fa7, 0xe126c1aa),
         x, 1, 0x00000000, 0xe9497052, 0x85845dd1, 21, 0x9a775c62, 0x8c534eeb, 0xfb7bcee0);
    Step(3, 8, r0, Registers(0xe126c1aa, 0xfb7bcee0, 0x6f287ff5, 0x96b00fa7),
         x, 8, 0x00000000, 0x9457810d, 0x6fa87e4f, 6, 0xe526c106, 0x49b041b9, 0x452c1099);
    Step(3, 9, r0, Registers(0x96b00fa7, 0x452c1099, 0xfb7bcee0, 0x6f287ff5),
         x, 15, 0x00000000, 0x2e845e7b, 0xfe2ce6e0, 10, 0xc3615502, 0x85540b0d, 0xca801ba6);
    Step(3, 10, r0, Registers(0x6f287ff5, 0xca801ba6, 0x452c1099, 0xfb7bcee0),
         x, 6, 0x00000000, 0x8ba82b26, 0xa3014314, 15, 0x9dd1ee2f, 0xf717cee8, 0xc197ea8e);
    Step(3, 11, r0, Registers(0xfb7bcee0, 0xc197ea8e, 0xca801ba6, 0x452c1099),
         x, 13, 0x00000000, 0x3157f448, 0x4e0811a1, 21, 0x7adbd4c9, 0x992f5b7a, 0x5ac74608);
    Step(3, 12, r0, Registers(0x452c1099, 0x5ac74608, 0xc197ea8e, 0xca801ba6),
         x, 4, 0x00000000, 0xbe680cd7, 0xf7537e82, 6, 0xfae79bf2, 0xb9e6fcbe, 0x14ae42c6);
    Step(3, 13, r0, Registers(0xca801ba6, 0x14ae42c6, 0x5ac74608, 0xc197ea8e),
         x, 11, 0x00000000, 0x642911ff, 0xbd3af235, 10, 0xebe41fda, 0x907f6baf, 0xa52dae75);
    Step(3, 14, r0, Registers(0xc197ea8e, 0xa52dae75, 0x14ae42c6, 0x5ac74608),
         x, 2, 0x00000000, 0xb193fd31, 0x2ad7d2bb, 15, 0x9e03ba7a, 0xdd3d4f01, 0x826afd76);
    Step(3, 15, r0, Registers(0x5ac74608, 0x826afd76, 0xa52dae75, 0x14ae42c6),
         x, 9, 0x00000000, 0x4e56530a, 0xeb86d391, 21, 0x94a46ca3, 0x9472948d, 0x16dd9203);
  }

  lemma Letters2Compressed(x: seq<bv32>)
    requires Letters2Words(x)
    ensures Compress(Registers(0x83fd320b, 0xdefbe5cf, 0xa9b1642f, 0xfa6f932a), x) == Registers(0x98ab74d1, 0xf5d977d2, 0x2c1c61a5, 0x9f9d419f)
  {
    assert |x| == 16;
    hide Operations, Compress, Letters2Words;
    var r0 := Registers(0x83fd320b, 0xdefbe5cf, 0xa9b1642f, 0xfa6f932a);
    var r1 := Registers(0xa70737da, 0xa36f556f, 0x96f6586e, 0x5473f8a7);
    var r2 := Registers(0x24eba695, 0x9c03e2e8, 0x10c42a2f, 0x4bd0378b);
    var r3 := Registers(0x54c9eb3a, 0x79c0710a, 0x2ec86f72, 0xd4d9c6ac);
    var r4 := Registers(0x14ae42c6, 0x16dd9203, 0x826afd76, 0xa52dae75);
    Letters2Round1(x, r0);
    Letters2Round2(x, r1);
    Letters2Round3(x, r2);
    Letters2Round4(x, r3);
    Compressed(r0, r1, r2, r3, r4, x, Registers(0x98ab74d1, 0xf5d977d2, 0x2c1c61a5, 0x9f9d419f));
  }
}

/**
 The values of the hash functions (src/base3/hash.h, src/base3/doobs_hash.cc) for one key
 each, worked out step by step: a block and a tail for MurmurHash2; a block, a tail of
 eleven chars and two applications of mix for doobs_hash.
 */
module HashAnswers {
  import opened Hashing

  // ----- MurmurHash2 of "abcdefg" -----

  lemma MurmurBlock()
    ensures Word([0x61, 0x62, 0x63, 0x64]) == 0x64636261 && Absorb(0x9747b28b, 0x64636261) == 0x9643d490
  {
    assert Times(0x64636261) == 0xae938b75;
    assert Fold24(0xae938b75) == 0xae938bdb;
    assert Times(0xae938bdb) == 0xecf5b977;
    assert Times(0x9747b28b) == 0x7ab66de7;
  }

  lemma MurmurTail()
    ensures AbsorbTail(0x9643d490, [0x65, 0x66, 0x67]) == 0xfb422599
  {
    assert TailWord([0x65, 0x66, 0x67]) == 0x00676665;
    assert Xor(0x9643d490, 0x00676665) == 0x9624b2f5;
  }

  lemma MurmurFinish()
    ensures Finish(0xfb422599) == 0xeb595499
  {
    assert Fold13(0xfb422599) == 0xfb45ff88;
    assert Times(0xfb45ff88) == 0xeb588228;
  }

  lemma MurmurStart()
    ensures Start(7, 0x9747b28c) == 0x9747b28b
  {
  }

  lemma MurmurAnswer(key: Bytes)
    requires key == [0x61, 0x62, 0x63, 0x64, 0x65, 0x66, 0x67]
    ensures Murmur(key, 0x9747b28c) == 0xeb595499
  {
    MurmurStart();
    MurmurBlock();
    MurmurTail();
    MurmurFinish();
    hide Start, Absorb, AbsorbTail, Finish, Word;
    assert key[..4] == [0x61, 0x62, 0x63, 0x64] && key[4..] == [0x65, 0x66, 0x67];
    assert Tail(key) == key[4..];
    assert Blocks(0x9747b28b, key) == Blocks(Absorb(0x9747b28b, Word(key[..4])), key[4..]);
  }

  // ----- doobs_hash of 23 chars, some of them negative -----

  lemma DoobsBlock(b: Bytes)
    requires b == [0x61, 0xe9, 0x63, 0xff, 0x65, 0x66, 0x80, 0x68, 0x69, 0x6a, 0x6b, 0xec]
    ensures AddBlock(State(0x9e3779b9, 0x9e3779b9, 0x12345678), b) == State(0x9d9a631a, 0x05b7e01e, 0xfe9fc0e1)
  {
    assert b[..4] == [0x61, 0xe9, 0x63, 0xff] && b[4..8] == [0x65, 0x66, 0x80, 0x68] && b[8..] == [0x69, 0x6a, 0x6b, 0xec];
    CharsOf(b[..4], 0x00000061, 0xffffffe9, 0x00000063, 0xffffffff);
    CharsOf(b[4..8], 0x00000065, 0x00000066, 0xffffff80, 0x00000068);
    CharsOf(b[8..], 0x00000069, 0x0000006a, 0x0000006b, 0xffffffec);
    hide Chars, Extend, Sum4;
    assert Sum4(0x00000061, 0xffffffe9, 0x00000063, 0xffffffff) == 0xff62e961 by { DoobsSum1(); }
    assert Sum4(0x00000065, 0x00000066, 0xffffff80, 0x00000068) == 0x67806665 by { DoobsSum2(); }
    assert Sum4(0x00000069, 0x0000006a, 0x0000006b, 0xffffffec) == 0xec6b6a69 by { DoobsSum3(); }
  }

  lemma DoobsSum1()
    ensures Sum4(0x00000061, 0xffffffe9, 0x00000063, 0xffffffff) == 0xff62e961
  {
  }

  lemma DoobsSum2()
    ensures Sum4(0x00000065, 0x00000066, 0xffffff80, 0x00000068) == 0x67806665
  {
  }

  lemma DoobsSum3()
    ensures Sum4(0x00000069, 0x0000006a, 0x0000006b, 0xffffffec) == 0xec6b6a69
  {
  }

  lemma CharsOf(b: Bytes, e0: bv32, e1: bv32, e2: bv32, e3: bv32)
    requires |b| == 4 && Extend(b[0]) == e0 && Extend(b[1]) == e1 && Extend(b[2]) == e2 && Extend(b[3]) == e3
    ensures Chars(b) == Sum4(e0, e1, e2, e3)
  {
  }

  lemma DoobsMixA()
    ensures MixA(State(0x9d9a631a, 0x05b7e01e, 0xfe9fc0e1)) == State(0x994536e5, 0x28e40d58, 0x3c773b84)
  {
  }

  lemma DoobsMixB()
    ensures MixB(State(0x994536e5, 0x28e40d58, 0x3c773b84)) == State(0x33ea297a, 0x91f8a85a, 0x721bacf2)
  {
  }

  lemma DoobsMixC()
    ensures MixC(State(0x33ea297a, 0x91f8a85a, 0x721bacf2)) == State(0x2196a1b0, 0xa4c099b8, 0xabc5380b)
  {
  }

  lemma DoobsMixIs()
    ensures Mix(State(0x9d9a631a, 0x05b7e01e, 0xfe9fc0e1)) == State(0x2196a1b0, 0xa4c099b8, 0xabc5380b)
  {
    hide MixA, MixB, MixC;
    DoobsMixA();
    DoobsMixB();
    DoobsMixC();
  }

  /** One case of the switch, on literals. */
  lemma Placed(x: bv32, t: Bytes, i: nat, place: nat, e: bv32, shifted: bv32, sum: bv32)
    requires i < |t| && place < 4 && ExtendsTo(t[i], e) && ShiftsTo(e, place, shifted) && SumsTo(x, shifted, sum)
    ensures Plus(x, t, i, place) == sum
  {
    hide Extend, Add, Shl8, Shl16, Shl24;
  }

  predicate ExtendsTo(c: bv8, e: bv32) { Extend(c) == e }

  predicate SumsTo(x: bv32, y: bv32, sum: bv32) { Add(x, y) == sum }

  predicate ShiftsTo(e: bv32, place: nat, shifted: bv32) {
    shifted == if place == 0 then e else if place == 1 then Shl8(e) else if place == 2 then Shl16(e) else Shl24(e)
  }

  lemma RestA(t: Bytes)
    requires |t| == 11 && t[3] == 0x70 && t[2] == 0x6f && t[1] == 0xee && t[0] == 0x6d
    ensures Plus(Plus(Plus(Plus(0x2196a1b0, t, 3, 3), t, 2, 2), t, 1, 1), t, 0, 0) == 0x9205901d
  {
    Placed(0x2196a1b0, t, 3, 3, 0x00000070, 0x70000000, 0x9196a1b0);
    Placed(0x9196a1b0, t, 2, 2, 0x0000006f, 0x006f0000, 0x9205a1b0);
    Placed(0x9205a1b0, t, 1, 1, 0xffffffee, 0xffffee00, 0x92058fb0);
    Placed(0x92058fb0, t, 0, 0, 0x0000006d, 0x0000006d, 0x9205901d);
  }

  lemma RestB(t: Bytes)
    requires |t| == 11 && t[7] == 0x74 && t[6] == 0x73 && t[5] == 0x72 && t[4] == 0xf1
    ensures Plus(Plus(Plus(Plus(0xa4c099b8, t, 7, 3), t, 6, 2), t, 5, 1), t, 4, 0) == 0x19340ba9
  {
    Placed(0xa4c099b8, t, 7, 3, 0x00000074, 0x74000000, 0x18c099b8);
    Placed(0x18c099b8, t, 6, 2, 0x00000073, 0x00730000, 0x193399b8);
    Placed(0x193399b8, t, 5, 1, 0x00000072, 0x00007200, 0x19340bb8);
    Placed(0x19340bb8, t, 4, 0, 0xfffffff1, 0xfffffff1, 0x19340ba9);
  }

  lemma RestC(t: Bytes)
    requires |t| == 11 && t[10] == 0xf7 && t[9] == 0x76 && t[8] == 0xf5
    ensures Plus(Plus(Plus(0xabc53822, t, 10, 3), t, 9, 2), t, 8, 1) == 0xa33b2d22
  {
    Placed(0xabc53822, t, 10, 3, 0xfffffff7, 0xf7000000, 0xa2c53822);
    Placed(0xa2c53822, t, 9, 2, 0x00000076, 0x00760000, 0xa33b3822);
    Placed(0xa33b3822, t, 8, 1, 0xfffffff5, 0xfffff500, 0xa33b2d22);
  }

  lemma DoobsLastA()
    ensures MixA(State(0x9205901d, 0x19340ba9, 0xa33b2d22)) == State(0xd5934e8b, 0x332b04fc, 0x9a7d40c3)
  {
  }

  lemma DoobsLastB()
    ensures MixB(State(0xd5934e8b, 0x332b04fc, 0x9a7d40c3)) == State(0x07e2af18, 0x3fd31521, 0x5339e423)
  {
  }

  lemma DoobsLastC()
    ensures MixC(State(0x07e2af18, 0x3fd31521, 0x5339e423)) == State(0x7eb28950, 0xa7c3e7ae, 0x2cc23ca2)
  {
  }

  lemma DoobsLastIs()
    ensures Mix(State(0x9205901d, 0x19340ba9, 0xa33b2d22)) == State(0x7eb28950, 0xa7c3e7ae, 0x2cc23ca2)
  {
    hide MixA, MixB, MixC;
    DoobsLastA();
    DoobsLastB();
    DoobsLastC();
  }

  lemma DoobsLength()
    ensures Length(23) == 0x00000017 && Add(0xabc5380b, 0x00000017) == 0xabc53822
  {
  }

  lemma DoobsAnswer(key: Bytes)
    requires key == [
               0x61, 0xe9, 0x63, 0xff, 0x65, 0x66, 0x80, 0x68, 0x69, 0x6a, 0x6b, 0xec,
               0x6d, 0xee, 0x6f, 0x70, 0xf1, 0x72, 0x73, 0x74, 0xf5, 0x76, 0xf7
             ]
    ensures FinalState(key, 0x12345678) == State(0x7eb28950, 0xa7c3e7ae, 0x2cc23ca2)
  {
    hide Mix, AddBlock, Plus, Length, Add;
    var b, t := key[..12], key[12..];
    assert b == [0x61, 0xe9, 0x63, 0xff, 0x65, 0x66, 0x80, 0x68, 0x69, 0x6a, 0x6b, 0xec];
    assert t == [0x6d, 0xee, 0x6f, 0x70, 0xf1, 0x72, 0x73, 0x74, 0xf5, 0x76, 0xf7];
    assert Rest(key) == t;
    DoobsBlock(b);
    DoobsMixIs();
    assert AfterRounds(key, 0x12345678) == Rounds(State(0x2196a1b0, 0xa4c099b8, 0xabc5380b), t) == State(0x2196a1b0, 0xa4c099b8, 0xabc5380b);
    DoobsLength();
    RestA(t);
    RestB(t);
    RestC(t);
    DoobsLastIs();
  }
}

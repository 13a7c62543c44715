/**
 Known answers of section A.5 of RFC 1321: the empty message, "abc", and the
 sixty-two letters and digits, which take two blocks. So the initial registers,
 the table of constants, the shifts, the order of the words, the padding and the
 byte orders are those of the standard.
 */
module Md5Answers {
  import opened Words
  import opened Md5Rounds
  import opened Md5
  import opened Md5Operations

  /** Four bytes with the first lowest. */
  function Joined(a: int, b: int, c: int, d: int): int {
    a + 0x100 * (b + 0x100 * (c + 0x100 * d))
  }

  lemma BitsBack(v: bv32)
    ensures ToBits(FromBits(v)) == v
  {
  }

  lemma WordAt(block: seq<byte>, i: nat, a: byte, b: byte, c: byte, d: byte, w: u32, v: bv32)
    requires |block| == 64 && i < 16 && FromBits(v) == w && Joined(a, b, c, d) == w
    requires block[4 * i] == a && block[4 * i + 1] == b && block[4 * i + 2] == c && block[4 * i + 3] == d
    ensures LittleWords(block)[i] == v
  {
    hide ToBits, FromBits;
    BitsBack(v);
    var s := block[4 * i..4 * i + 4];
    assert s[0] == a && s[1] == b && s[2] == c && s[3] == d;
  }

  lemma ZeroWordAt(block: seq<byte>, i: nat)
    requires |block| == 64 && i < 16 && forall j :: 4 * i <= j < 4 * i + 4 ==> block[j] == 0
    ensures LittleWords(block)[i] == 0
  {
    hide ToBits;
    ZeroBits(0);
    var s := block[4 * i..4 * i + 4];
    assert s[0] == 0 && s[1] == 0 && s[2] == 0 && s[3] == 0;
  }

  lemma ZeroWords(block: seq<byte>, from: nat, to: nat)
    requires |block| == 64 && from <= to <= 16 && forall j :: 4 * from <= j < 4 * to ==> block[j] == 0
    ensures forall i :: from <= i < to ==> LittleWords(block)[i] == 0
  {
    hide LittleWords;
    forall i | from <= i < to
      ensures LittleWords(block)[i] == 0
    {
      ZeroWordAt(block, i);
    }
  }

  /** The capital letters, the small letters and the digits, in ASCII. */
  predicate Letters(b: seq<byte>)
    requires |b| >= 62
  {
    && (forall i :: 0 <= i < 26 ==> b[i] == 0x41 + i)
    && (forall i :: 26 <= i < 52 ==> b[i] == 0x61 + (i - 26))
    && (forall i :: 52 <= i < 62 ==> b[i] == 0x30 + (i - 52))
  }

  lemma Stored(v: bv32, w: u32, a: byte, b: byte, c: byte, d: byte)
    requires FromBits(v) == w && Joined(a, b, c, d) == w
    ensures ToLittle(FromBits(v)) == [a, b, c, d]
  {
    hide ToLittle, FromBits;
    FromToLittle([a, b, c, d]);
  }

  /** The mark, zeros, and a length of less than 2^32 bits. */
  lemma Padded(message: seq<byte>, zeros: nat, bits: u32, length: seq<byte>)
    requires zeros == if |message| % 64 < 56 then 55 - |message| % 64 else 119 - |message| % 64
    requires bits == 8 * |message| && length == ToLittle(bits)
    ensures message + Padding(|message|) == message + [0x80] + Zeros(zeros) + length + Zeros(4)
  {
    hide ToLittle, FromLittle;
    FromToLittle(Zeros(4));
    assert FromLittle(Zeros(4)) == 0 by { NoBytes(); }
    assert High(|message|) == 0 && Low(|message|) == 8 * |message|;
    PaddingEnds(message, |message|);
    MarkIs(message, |message|);
  }

  lemma NoBytes()
    ensures FromLittle(Zeros(4)) == 0 && ToLittle(0) == Zeros(4)
  {
    assert Zeros(4) == [0, 0, 0, 0];
    FromToLittle(Zeros(4));
  }

  lemma LengthIs(n: u32, a: byte, b: byte, c: byte, d: byte)
    requires n == Joined(a, b, c, d)
    ensures ToLittle(n) == [a, b, c, d]
  {
    hide ToLittle;
    FromToLittle([a, b, c, d]);
  }

  lemma Written(r: Registers, a: seq<byte>, b: seq<byte>, c: seq<byte>, d: seq<byte>)
    requires ToLittle(FromBits(r.a)) == a && ToLittle(FromBits(r.b)) == b
    requires ToLittle(FromBits(r.c)) == c && ToLittle(FromBits(r.d)) == d
    ensures Output(r) == a + b + c + d
  {
    hide ToLittle, FromBits;
  }

  // ----- The empty message -----

  predicate EmptyBlock(b: seq<byte>) {
    |b| == 64 && b[0] == 0x80 && forall i :: 1 <= i < 64 ==> b[i] == 0
  }

  lemma EmptyWord0(b: seq<byte>)
    requires EmptyBlock(b)
    ensures |b| == 64 && LittleWords(b)[0] == 0x00000080
  {
    hide LittleWords;
    WordAt(b, 0, 0x80, 0x00, 0x00, 0x00, 0x00000080, 0x00000080);
  }

  lemma EmptyWordsAre(b: seq<byte>)
    requires EmptyBlock(b)
    ensures |b| == 64 && EmptyWords(LittleWords(b))
  {
    hide LittleWords;
    EmptyWord0(b);
    ZeroWords(b, 1, 16);
  }

  lemma EmptyOutput()
    ensures Output(Registers(0xd98c1dd4, 0x04b2008f, 0x980980e9, 0x7e42f8ec)) == [
              0xd4, 0x1d, 0x8c, 0xd9, 0x8f, 0x00, 0xb2, 0x04, 0xe9, 0x80, 0x09, 0x98, 0xec, 0xf8, 0x42, 0x7e
            ]
  {
    hide Output, ToLittle, FromBits;
    StoredAsEmpty0();
    StoredAsEmpty1();
    StoredAsEmpty2();
    StoredAsEmpty3();
    Written(Registers(0xd98c1dd4, 0x04b2008f, 0x980980e9, 0x7e42f8ec),
            [0xd4, 0x1d, 0x8c, 0xd9], [0x8f, 0x00, 0xb2, 0x04], [0xe9, 0x80, 0x09, 0x98], [0xec, 0xf8, 0x42, 0x7e]);
  }

  lemma StoredAsEmpty0()
    ensures ToLittle(FromBits(0xd98c1dd4)) == [0xd4, 0x1d, 0x8c, 0xd9]
  {
    Stored(0xd98c1dd4, 0xd98c1dd4, 0xd4, 0x1d, 0x8c, 0xd9);
  }

  lemma StoredAsEmpty1()
    ensures ToLittle(FromBits(0x04b2008f)) == [0x8f, 0x00, 0xb2, 0x04]
  {
    Stored(0x04b2008f, 0x04b2008f, 0x8f, 0x00, 0xb2, 0x04);
  }

  lemma StoredAsEmpty2()
    ensures ToLittle(FromBits(0x980980e9)) == [0xe9, 0x80, 0x09, 0x98]
  {
    Stored(0x980980e9, 0x980980e9, 0xe9, 0x80, 0x09, 0x98);
  }

  lemma StoredAsEmpty3()
    ensures ToLittle(FromBits(0x7e42f8ec)) == [0xec, 0xf8, 0x42, 0x7e]
  {
    Stored(0x7e42f8ec, 0x7e42f8ec, 0xec, 0xf8, 0x42, 0x7e);
  }

  /** The empty message. */
  lemma EmptyDigest(message: seq<byte>)
    requires message == []
    ensures Digest(message) == [
              0xd4, 0x1d, 0x8c, 0xd9, 0x8f, 0x00, 0xb2, 0x04, 0xe9, 0x80, 0x09, 0x98, 0xec, 0xf8, 0x42, 0x7e
            ]
  {
    hide Padding, ToLittle, Compress, Output, LittleWords, Fold;
    NoBytes();
    Padded(message, 55, 0, Zeros(4));
    var p := message + Padding(|message|);
    EmptyWordsAre(p);
    EmptyCompressed(LittleWords(p));
    FoldSingle(INITIAL, p);
    EmptyOutput();
  }

  // ----- "abc" -----

  predicate AbcBlock(b: seq<byte>) {
    && |b| == 64 && b[0] == 0x61 && b[1] == 0x62 && b[2] == 0x63 && b[3] == 0x80
    && b[56] == 0x18 && forall i :: 4 <= i < 64 && i != 56 ==> b[i] == 0
  }

  lemma AbcWord0(b: seq<byte>)
    requires AbcBlock(b)
    ensures |b| == 64 && LittleWords(b)[0] == 0x80636261
  {
    hide LittleWords;
    WordAt(b, 0, 0x61, 0x62, 0x63, 0x80, 0x80636261, 0x80636261);
  }

  lemma AbcWord14(b: seq<byte>)
    requires AbcBlock(b)
    ensures |b| == 64 && LittleWords(b)[14] == 0x00000018
  {
    hide LittleWords;
    WordAt(b, 14, 0x18, 0x00, 0x00, 0x00, 0x00000018, 0x00000018);
  }

  lemma AbcWordsAre(b: seq<byte>)
    requires AbcBlock(b)
    ensures |b| == 64 && AbcWords(LittleWords(b))
  {
    hide LittleWords;
    AbcWord0(b);
    ZeroWords(b, 1, 14);
    AbcWord14(b);
    ZeroWords(b, 15, 16);
  }

  lemma AbcOutput()
    ensures Output(Registers(0x98500190, 0xb04fd23c, 0x7d3f96d6, 0x727fe128)) == [
              0x90, 0x01, 0x50, 0x98, 0x3c, 0xd2, 0x4f, 0xb0, 0xd6, 0x96, 0x3f, 0x7d, 0x28, 0xe1, 0x7f, 0x72
            ]
  {
    hide Output, ToLittle, FromBits;
    StoredAsAbc0();
    StoredAsAbc1();
    StoredAsAbc2();
    StoredAsAbc3();
    Written(Registers(0x98500190, 0xb04fd23c, 0x7d3f96d6, 0x727fe128),
            [0x90, 0x01, 0x50, 0x98], [0x3c, 0xd2, 0x4f, 0xb0], [0xd6, 0x96, 0x3f, 0x7d], [0x28, 0xe1, 0x7f, 0x72]);
  }

  lemma StoredAsAbc0()
    ensures ToLittle(FromBits(0x98500190)) == [0x90, 0x01, 0x50, 0x98]
  {
    Stored(0x98500190, 0x98500190, 0x90, 0x01, 0x50, 0x98);
  }

  lemma StoredAsAbc1()
    ensures ToLittle(FromBits(0xb04fd23c)) == [0x3c, 0xd2, 0x4f, 0xb0]
  {
    Stored(0xb04fd23c, 0xb04fd23c, 0x3c, 0xd2, 0x4f, 0xb0);
  }

  lemma StoredAsAbc2()
    ensures ToLittle(FromBits(0x7d3f96d6)) == [0xd6, 0x96, 0x3f, 0x7d]
  {
    Stored(0x7d3f96d6, 0x7d3f96d6, 0xd6, 0x96, 0x3f, 0x7d);
  }

  lemma StoredAsAbc3()
    ensures ToLittle(FromBits(0x727fe128)) == [0x28, 0xe1, 0x7f, 0x72]
  {
    Stored(0x727fe128, 0x727fe128, 0x28, 0xe1, 0x7f, 0x72);
  }

  /** "abc". */
  lemma AbcDigest(message: seq<byte>)
    requires |message| == 3 && message[0] == 0x61 && message[1] == 0x62 && message[2] == 0x63
    ensures Digest(message) == [
              0x90, 0x01, 0x50, 0x98, 0x3c, 0xd2, 0x4f, 0xb0, 0xd6, 0x96, 0x3f, 0x7d, 0x28, 0xe1, 0x7f, 0x72
            ]
  {
    hide Padding, ToLittle, Compress, Output, LittleWords, Fold;
    LengthIs(24, 0x18, 0x00, 0, 0);
    Padded(message, 52, 24, [0x18, 0x00, 0, 0]);
    var p := message + Padding(|message|);
    AbcWordsAre(p);
    AbcCompressed(LittleWords(p));
    FoldSingle(INITIAL, p);
    AbcOutput();
  }

  // ----- The letters and digits -----

  predicate Letters1Block(b: seq<byte>) {
    |b| == 64 && Letters(b) && b[62] == 0x80 && b[63] == 0
  }

  lemma Letters1Part1(b: seq<byte>)
    requires Letters1Block(b)
    ensures |b| == 64 && var w := LittleWords(b);
            w[0] == 0x44434241 && w[1] == 0x48474645 && w[2] == 0x4c4b4a49 && w[3] == 0x504f4e4d
  {
    hide LittleWords;
    WordAt(b, 0, 0x41, 0x42, 0x43, 0x44, 0x44434241, 0x44434241);
    WordAt(b, 1, 0x45, 0x46, 0x47, 0x48, 0x48474645, 0x48474645);
    WordAt(b, 2, 0x49, 0x4a, 0x4b, 0x4c, 0x4c4b4a49, 0x4c4b4a49);
    WordAt(b, 3, 0x4d, 0x4e, 0x4f, 0x50, 0x504f4e4d, 0x504f4e4d);
  }

  lemma Letters1Part2(b: seq<byte>)
    requires Letters1Block(b)
    ensures |b| == 64 && var w := LittleWords(b);
            w[4] == 0x54535251 && w[5] == 0x58575655 && w[6] == 0x62615a59 && w[7] == 0x66656463
  {
    hide LittleWords;
    WordAt(b, 4, 0x51, 0x52, 0x53, 0x54, 0x54535251, 0x54535251);
    WordAt(b, 5, 0x55, 0x56, 0x57, 0x58, 0x58575655, 0x58575655);
    WordAt(b, 6, 0x59, 0x5a, 0x61, 0x62, 0x62615a59, 0x62615a59);
    WordAt(b, 7, 0x63, 0x64, 0x65, 0x66, 0x66656463, 0x66656463);
  }

  lemma Letters1Part3(b: seq<byte>)
    requires Letters1Block(b)
    ensures |b| == 64 && var w := LittleWords(b);
            w[8] == 0x6a696867 && w[9] == 0x6e6d6c6b && w[10] == 0x7271706f && w[11] == 0x76757473
  {
    hide LittleWords;
    WordAt(b, 8, 0x67, 0x68, 0x69, 0x6a, 0x6a696867, 0x6a696867);
    WordAt(b, 9, 0x6b, 0x6c, 0x6d, 0x6e, 0x6e6d6c6b, 0x6e6d6c6b);
    WordAt(b, 10, 0x6f, 0x70, 0x71, 0x72, 0x7271706f, 0x7271706f);
    WordAt(b, 11, 0x73, 0x74, 0x75, 0x76, 0x76757473, 0x76757473);
  }

  lemma Letters1Part4(b: seq<byte>)
    requires Letters1Block(b)
    ensures |b| == 64 && var w := LittleWords(b);
            w[12] == 0x7a797877 && w[13] == 0x33323130 && w[14] == 0x37363534 && w[15] == 0x00803938
  {
    hide LittleWords;
    WordAt(b, 12, 0x77, 0x78, 0x79, 0x7a, 0x7a797877, 0x7a797877);
    WordAt(b, 13, 0x30, 0x31, 0x32, 0x33, 0x33323130, 0x33323130);
    WordAt(b, 14, 0x34, 0x35, 0x36, 0x37, 0x37363534, 0x37363534);
    WordAt(b, 15, 0x38, 0x39, 0x80, 0x00, 0x00803938, 0x00803938);
  }

  lemma Letters1WordsAre(b: seq<byte>)
    requires Letters1Block(b)
    ensures |b| == 64 && Letters1Words(LittleWords(b))
  {
    hide LittleWords;
    Letters1Part1(b);
    Letters1Part2(b);
    Letters1Part3(b);
    Letters1Part4(b);
  }

  predicate Letters2Block(b: seq<byte>) {
    |b| == 64 && b[56] == 0xf0 && b[57] == 0x01 && forall i :: 0 <= i < 64 && i != 56 && i != 57 ==> b[i] == 0
  }

  lemma Letters2Word14(b: seq<byte>)
    requires Letters2Block(b)
    ensures |b| == 64 && LittleWords(b)[14] == 0x000001f0
  {
    hide LittleWords;
    WordAt(b, 14, 0xf0, 0x01, 0x00, 0x00, 0x000001f0, 0x000001f0);
  }

  lemma Letters2WordsAre(b: seq<byte>)
    requires Letters2Block(b)
    ensures |b| == 64 && Letters2Words(LittleWords(b))
  {
    hide LittleWords;
    ZeroWords(b, 0, 14);
    Letters2Word14(b);
    ZeroWords(b, 15, 16);
  }

  lemma LettersOutput()
    ensures Output(Registers(0x98ab74d1, 0xf5d977d2, 0x2c1c61a5, 0x9f9d419f)) == [
              0xd1, 0x74, 0xab, 0x98, 0xd2, 0x77, 0xd9, 0xf5, 0xa5, 0x61, 0x1c, 0x2c, 0x9f, 0x41, 0x9d, 0x9f
            ]
  {
    hide Output, ToLittle, FromBits;
    StoredAsLetters0();
    StoredAsLetters1();
    StoredAsLetters2();
    StoredAsLetters3();
    Written(Registers(0x98ab74d1, 0xf5d977d2, 0x2c1c61a5, 0x9f9d419f),
            [0xd1, 0x74, 0xab, 0x98], [0xd2, 0x77, 0xd9, 0xf5], [0xa5, 0x61, 0x1c, 0x2c], [0x9f, 0x41, 0x9d, 0x9f]);
  }

  lemma StoredAsLetters0()
    ensures ToLittle(FromBits(0x98ab74d1)) == [0xd1, 0x74, 0xab, 0x98]
  {
    Stored(0x98ab74d1, 0x98ab74d1, 0xd1, 0x74, 0xab, 0x98);
  }

  lemma StoredAsLetters1()
    ensures ToLittle(FromBits(0xf5d977d2)) == [0xd2, 0x77, 0xd9, 0xf5]
  {
    Stored(0xf5d977d2, 0xf5d977d2, 0xd2, 0x77, 0xd9, 0xf5);
  }

  lemma StoredAsLetters2()
    ensures ToLittle(FromBits(0x2c1c61a5)) == [0xa5, 0x61, 0x1c, 0x2c]
  {
    Stored(0x2c1c61a5, 0x2c1c61a5, 0xa5, 0x61, 0x1c, 0x2c);
  }

  lemma StoredAsLetters3()
    ensures ToLittle(FromBits(0x9f9d419f)) == [0x9f, 0x41, 0x9d, 0x9f]
  {
    Stored(0x9f9d419f, 0x9f9d419f, 0x9f, 0x41, 0x9d, 0x9f);
  }

  /** The letters and digits. */
  lemma LettersDigest(message: seq<byte>)
    requires |message| == 62 && Letters(message)
    ensures Digest(message) == [
              0xd1, 0x74, 0xab, 0x98, 0xd2, 0x77, 0xd9, 0xf5, 0xa5, 0x61, 0x1c, 0x2c, 0x9f, 0x41, 0x9d, 0x9f
            ]
  {
    hide Padding, ToLittle, Compress, Output, LittleWords, Fold;
    LengthIs(496, 0xf0, 0x01, 0, 0);
    Padded(message, 57, 496, [0xf0, 0x01, 0, 0]);
    var p := message + Padding(|message|);
    var p1, p2 := p[..64], p[64..];
    assert p == p1 + p2;
    Letters1WordsAre(p1);
    Letters1Compressed(LittleWords(p1));
    Letters2WordsAre(p2);
    Letters2Compressed(LittleWords(p2));
    FoldAppend(INITIAL, p1, p2);
    FoldSingle(INITIAL, p1);
    FoldSingle(Registers(0x83fd320b, 0xdefbe5cf, 0xa9b1642f, 0xfa6f932a), p2);
    LettersOutput();
  }
}

/**
 The bytes of a small payload (src/base3/pickle.cc, src/base3/pickle.h).

 Integers have the low byte first, a string has its length in front of it, and every
 value lies at a multiple of four; what is between two values is left open.
 */
module PickleExamples {
  import opened Words
  import opened PickleFormat

  /** 0x01020304 has its low byte first, and a negative number is the complement of two. */
  lemma Integers()
    ensures EncodeInt(0x01020304) == [4, 3, 2, 1] && EncodeInt(-2) == [0xfe, 0xff, 0xff, 0xff]
    ensures EncodeInt64(0x0102030405060708) == [8, 7, 6, 5, 4, 3, 2, 1]
    ensures EncodeInt64(-2) == [0xfe, 0xff, 0xff, 0xff, 0xff, 0xff, 0xff, 0xff]
  {
    FourBytes();
    hide ToLittle;
  }

  lemma FourBytes()
    ensures ToLittle(0x01020304) == [4, 3, 2, 1] && ToLittle(0x05060708) == [8, 7, 6, 5]
    ensures ToLittle(0xffff_fffe) == [0xfe, 0xff, 0xff, 0xff] && ToLittle(0xffff_ffff) == [0xff, 0xff, 0xff, 0xff]
  {
  }

  lemma ChunksOf(v: Value, vs: seq<Value>)
    requires Fits(v) && forall x :: x in vs ==> Fits(x)
    ensures AllChunks([v] + vs) == Chunks(v) + AllChunks(vs)
  {
    hide Chunks, Fits;
    assert ([v] + vs)[1..] == vs;
  }

  lemma Words3()
    ensures EncodeInt(0x01020304) == [4, 3, 2, 1] && EncodeInt(3) == [3, 0, 0, 0] && EncodeInt(1) == [1, 0, 0, 0]
  {
  }

  lemma Spelled(vs: seq<Value>, abc: Bytes)
    requires abc == [0x61, 0x62, 0x63] && vs == [Int(0x01020304), Str(abc), Bool(true)]
    ensures (forall v :: v in vs ==> Fits(v)) && AllChunks(vs) == [[4, 3, 2, 1], [3, 0, 0, 0], abc, [1, 0, 0, 0]]
  {
    Words3();
    hide EncodeInt, AllChunks;
    var none: seq<Value> := [];
    assert AllChunks(none) == [] by { NoChunks(); }
    var last, more: seq<Value> := [Bool(true)], [Str(abc), Bool(true)];
    ChunksOf(Bool(true), none);
    assert [Bool(true)] + none == last;
    ChunksOf(Str(abc), last);
    assert [Str(abc)] + last == more;
    ChunksOf(Int(0x01020304), more);
    assert [Int(0x01020304)] + more == vs;
  }

  lemma NoChunks()
    ensures AllChunks([]) == []
  {
  }

  /** An integer, a string of three bytes, and a bool take sixteen bytes, one of them a gap. */
  lemma Payload(p: Bytes, abc: Bytes, vs: seq<Value>)
    requires abc == [0x61, 0x62, 0x63] && vs == [Int(0x01020304), Str(abc), Bool(true)]
    requires (forall v :: v in vs ==> Fits(v)) && Laid(p, AllChunks(vs))
    ensures |p| == 16 && p[..11] == [4, 3, 2, 1, 3, 0, 0, 0, 0x61, 0x62, 0x63] && p[12..] == [1, 0, 0, 0]
  {
    Spelled(vs, abc);
    var c := AllChunks(vs);
    hide AllChunks;
    assert Start(c, 1) == 4;
    assert Start(c, 2) == 8;
    assert Start(c, 3) == 12;
    assert At(p, 0, c[0]) && At(p, 4, c[1]) && At(p, 8, c[2]) && At(p, 12, c[3]);
    assert p[..11] == p[0..4] + p[4..8] + p[8..11];
  }
}

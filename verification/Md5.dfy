/**
 Streaming MD5 (src/base3/md5.cc): buffering, the two-word bit count, padding and
 byte order, against the one-shot definition of RFC 1321.
 */
module Md5 {
  import opened Words
  import opened Md5Rounds

  // ----- RFC 1321 -----

  function ToBits(w: u32): bv32 { w as bv32 }

  function FromBits(b: bv32): u32 { b as int }

  /** Section 2: sixteen words, low-order byte first. */
  function LittleWords(block: seq<byte>): (r: seq<bv32>)
    requires |block| == 64
    ensures |r| == 16
  {
    seq(16, i requires 0 <= i < 16 => ToBits(FromLittle(block[4 * i..4 * i + 4])))
  }

  function Block(r: Registers, block: seq<byte>): Registers
    requires |block| == 64
  {
    Compress(r, LittleWords(block))
  }

  lemma LessOneBlock(n: nat)
    requires n % 64 == 0 && n > 0
    ensures n >= 64 && (n - 64) % 64 == 0
  {
  }

  /** Section 3.4: the blocks in order. */
  function Fold(r: Registers, s: seq<byte>): Registers
    requires |s| % 64 == 0
    decreases |s|
  {
    if |s| == 0 then r else
      LessOneBlock(|s|);
      Fold(Block(r, s[..64]), s[64..])
  }

  /** Section 3.3. */
  const INITIAL := Registers(0x67452301, 0xefcdab89, 0x98badcfe, 0x10325476)

  /** Section 3.2: the length in bits, low word first, modulo 2^64. */
  function Low(n: nat): u32 { 8 * n % WIDTH }

  function High(n: nat): u32 { 8 * n / WIDTH % WIDTH }

  function Zeros(n: nat): (z: seq<byte>)
    ensures |z| == n
  {
    seq(n, _ => 0)
  }

  /** Sections 3.1 and 3.2: one bit, zeros up to 56 modulo 64, the length. */
  function Padding(n: nat): seq<byte> {
    Mark(n) + ToLittle(Low(n)) + ToLittle(High(n))
  }

  function Mark(n: nat): seq<byte> {
    [0x80] + Zeros(if n % 64 < 56 then 55 - n % 64 else 119 - n % 64)
  }

  lemma MarkIs(rest: seq<byte>, n: nat)
    ensures rest + Mark(n) == rest + [0x80] + Zeros(if n % 64 < 56 then 55 - n % 64 else 119 - n % 64)
  {
  }

  lemma PaddingEnds(rest: seq<byte>, n: nat)
    ensures rest + Padding(n) == rest + Mark(n) + ToLittle(Low(n)) + ToLittle(High(n))
  {
    hide Mark, ToLittle, Low, High;
  }

  lemma PaddedLength(n: nat)
    ensures (n + |Padding(n)|) % 64 == 0 && 9 <= |Padding(n)| <= 72
  {
    hide Low, High;
    var m, q := n % 64, n / 64;
    assert n + |Padding(n)| == 64 * (q + if m < 56 then 1 else 2);
  }

  /** Section 3.5: the registers, low-order byte first. */
  function Output(r: Registers): (d: seq<byte>)
    ensures |d| == 16
  {
    ToLittle(FromBits(r.a)) + ToLittle(FromBits(r.b)) + ToLittle(FromBits(r.c)) + ToLittle(FromBits(r.d))
  }

  function Digest(message: seq<byte>): (d: seq<byte>)
    ensures |d| == 16
  {
    PaddedLength(|message|);
    Output(Fold(INITIAL, message + Padding(|message|)))
  }

  lemma {:induction false} FoldAppend(r: Registers, s: seq<byte>, t: seq<byte>)
    requires |s| % 64 == 0 && |t| % 64 == 0
    ensures Fold(r, s + t) == Fold(Fold(r, s), t)
    decreases |s|
  {
    hide Block;
    if |s| == 0 {
      assert s + t == t;
    } else {
      assert (s + t)[..64] == s[..64] && (s + t)[64..] == s[64..] + t;
      FoldAppend(Block(r, s[..64]), s[64..], t);
    }
  }

  lemma FoldOne(r: Registers, s: seq<byte>, block: seq<byte>)
    requires |s| % 64 == 0 && |block| == 64
    ensures Fold(r, s + block) == Block(Fold(r, s), block)
  {
    hide Block;
    FoldAppend(r, s, block);
    assert block[..64] == block && block[64..] == [];
    assert Fold(Fold(r, s), block) == Fold(Block(Fold(r, s), block), []);
  }

  // ----- The bit count -----

  lemma Quotient(x: int, q: int, r: int)
    requires x == WIDTH * q + r && 0 <= r < WIDTH
    ensures x / WIDTH == q && x % WIDTH == r
  {
  }

  /** The low word of 8 * len is shifted out of the low word of len, the high word out of len. */
  lemma ShiftedLength(len: nat)
    ensures len % WIDTH * 8 % WIDTH == 8 * len % WIDTH && len / 0x2000_0000 == 8 * len / WIDTH
  {
    var a, b := len / WIDTH, len % WIDTH;
    Quotient(8 * len, 8 * a + 8 * b / WIDTH, 8 * b % WIDTH);
    var q, r := len / 0x2000_0000, len % 0x2000_0000;
    Quotient(8 * len, q, 8 * r);
  }

  /** Adding len bytes to the two words, with the carry tested by wrap-around. */
  lemma BitCount(n: nat, len: nat)
    ensures var t := Low(n);
            var low := (t + len % WIDTH * 8 % WIDTH) % WIDTH;
            var high := if low < t then (High(n) + 1) % WIDTH else High(n);
            low == Low(n + len) && (high + len / 0x2000_0000 % WIDTH) % WIDTH == High(n + len)
  {
    ShiftedLength(len);
    var hn, ln, hl, ll := 8 * n / WIDTH, 8 * n % WIDTH, 8 * len / WIDTH, 8 * len % WIDTH;
    var carry := if ln + ll < WIDTH then 0 else 1;
    Quotient(8 * (n + len), hn + hl + carry, ln + ll - WIDTH * carry);
    Quotient(ln + ll, carry, ln + ll - WIDTH * carry);
    WrappedSum(hn, carry);
    WrappedSum(hn + carry, hl);
    WrappedSum(hl, (hn + carry) % WIDTH);
  }

  // ----- Memory -----

  /** Sixteen words as machine m reads them from its memory. */
  function NativeWords(m: Machine, block: seq<byte>): (r: seq<bv32>)
    requires |block| == 64
    ensures |r| == 16
  {
    seq(16, i requires 0 <= i < 16 => ToBits(Load(m, block[4 * i..4 * i + 4])))
  }

  function Reordered(m: Machine, word: seq<byte>): (r: seq<byte>)
    requires |word| == 4
    ensures |r| == 4
  {
    Store(m, FromLittle(word))
  }

  /** The first words have been put into the byte order of the machine, and nothing else has changed. */
  ghost predicate HasReversed(m: Machine, was: seq<byte>, now: seq<byte>, longs: nat) {
    && |was| == |now| && 4 * longs <= |now|
    && (forall i :: 0 <= i < longs ==> now[4 * i..4 * i + 4] == Reordered(m, was[4 * i..4 * i + 4]))
    && now[4 * longs..] == was[4 * longs..]
  }

  lemma ReverseStep(m: Machine, was: seq<byte>, now: seq<byte>, after: seq<byte>, i: nat)
    requires HasReversed(m, was, now, i) && 4 * i + 4 <= |now| == |after|
    requires after[4 * i..4 * i + 4] == Reordered(m, now[4 * i..4 * i + 4])
    requires after[..4 * i] == now[..4 * i] && after[4 * i + 4..] == now[4 * i + 4..]
    ensures HasReversed(m, was, after, i + 1)
  {
    hide Reordered;
    forall k | 0 <= k < i
      ensures after[4 * k..4 * k + 4] == Reordered(m, was[4 * k..4 * k + 4])
    {
      assert after[4 * k..4 * k + 4] == after[..4 * i][4 * k..4 * k + 4];
      assert now[4 * k..4 * k + 4] == now[..4 * i][4 * k..4 * k + 4];
    }
    assert now[4 * i..4 * i + 4] == now[4 * i..][..4] == was[4 * i..][..4] == was[4 * i..4 * i + 4];
    assert after[4 * i + 4..] == now[4 * i..][4..] == was[4 * i..][4..] == was[4 * i + 4..];
  }

  /** One turn of byteReverse. */
  method ReverseWord(m: Machine, buf: array<byte>, at: nat)
    requires at + 4 <= buf.Length
    modifies buf
    ensures buf[..][at..at + 4] == Reordered(m, old(buf[..])[at..at + 4])
    ensures buf[..][..at] == old(buf[..])[..at] && buf[..][at + 4..] == old(buf[..])[at + 4..]
  {
    var w := Reordered(m, buf[..][at..at + 4]);
    hide Reordered;
    buf[at], buf[at + 1], buf[at + 2], buf[at + 3] := w[0], w[1], w[2], w[3];
  }

  /** byteReverse: little-endian words in memory become native ones, in place. */
  method ByteReverse(m: Machine, buf: array<byte>, longs: nat)
    requires 0 < longs && 4 * longs <= buf.Length
    modifies buf
    ensures HasReversed(m, old(buf[..]), buf[..], longs)
  {
    hide Reordered;
    ghost var was := buf[..];
    var i := 0;
    while i < longs
      invariant 0 <= i <= longs
      invariant HasReversed(m, was, buf[..], i)
    {
      ghost var now := buf[..];
      ReverseWord(m, buf, 4 * i);
      ReverseStep(m, was, now, buf[..], i);
      i := i + 1;
    }
  }

  lemma ReorderedLoads(m: Machine, word: seq<byte>)
    requires |word| == 4
    ensures Load(m, Reordered(m, word)) == FromLittle(word)
  {
    LoadStore(m, FromLittle(word));
  }

  /** A native word that has been through byteReverse lies in memory low-order byte first. */
  lemma ReorderedStore(m: Machine, w: u32)
    ensures Reordered(m, Store(m, w)) == ToLittle(w)
  {
    if m.BigEndian? {
      var swapped := Reversed4(ToLittle(w));
      FromToLittle(swapped);
      assert Reversed4(swapped) == ToLittle(w);
    }
  }

  /** After byteReverse the machine reads the words the standard means, whatever its byte order. */
  lemma NativeIsLittle(m: Machine, before: seq<byte>, after: seq<byte>, reversed: nat)
    requires |before| == |after| == 64 && reversed <= 16
    requires forall i :: 0 <= i < reversed ==> after[4 * i..4 * i + 4] == Reordered(m, before[4 * i..4 * i + 4])
    requires forall i :: reversed <= i < 16 ==>
               after[4 * i..4 * i + 4] == Store(m, FromLittle(before[4 * i..4 * i + 4]))
    ensures NativeWords(m, after) == LittleWords(before)
  {
    hide ToBits;
    forall i | 0 <= i < 16
      ensures NativeWords(m, after)[i] == LittleWords(before)[i]
    {
      ReorderedLoads(m, before[4 * i..4 * i + 4]);
    }
  }

  // ----- Messages in parts -----

  function Whole(s: seq<byte>): (w: seq<byte>)
    ensures |w| % 64 == 0
  {
    s[..|s| - |s| % 64]
  }

  function Rest(s: seq<byte>): (r: seq<byte>)
    ensures |r| == |s| % 64 && Whole(s) + r == s
  {
    s[|s| - |s| % 64..]
  }

  lemma SplitAt(w: seq<byte>, r: seq<byte>)
    requires |w| % 64 == 0 && |r| < 64
    ensures Whole(w + r) == w && Rest(w + r) == r
  {
  }

  lemma CountMod64(n: nat)
    ensures Low(n) / 8 % 64 == n % 64
  {
    var q, r := n / 0x2000_0000, n % 0x2000_0000;
    Quotient(8 * n, q, 8 * r);
    assert n == 64 * (0x80_0000 * q) + r;
  }

  lemma RestAligns(n: nat, p: nat)
    requires (n + p) % 64 == 0
    ensures (n % 64 + p) % 64 == 0
  {
    assert n % 64 + p == n + p - 64 * (n / 64);
  }

  /** The digest as the fold of what is buffered and its padding. */
  lemma DigestOfRest(message: seq<byte>)
    ensures (|Rest(message)| + |Padding(|message|)|) % 64 == 0
    ensures Digest(message) == Output(Fold(Fold(INITIAL, Whole(message)), Rest(message) + Padding(|message|)))
  {
    hide Padding, Output, Fold;
    PaddedLength(|message|);
    RestAligns(|message|, |Padding(|message|)|);
    var tail := Rest(message) + Padding(|message|);
    assert message + Padding(|message|) == Whole(message) + tail;
    FoldAppend(INITIAL, Whole(message), tail);
  }

  /** The block that ends the padded message. */
  function LastBlock(message: seq<byte>): (b: seq<byte>)
    ensures |b| == 64
  {
    PaddedLength(|message|);
    RestAligns(|message|, |Padding(|message|)|);
    var tail := Rest(message) + Padding(|message|);
    tail[|tail| - 64..]
  }

  lemma LastBlockIs(message: seq<byte>, extra: seq<byte>, last: seq<byte>)
    requires extra + last == Rest(message) + Padding(|message|) && |last| == 64
    ensures LastBlock(message) == last
  {
    hide Padding, Rest;
    assert (extra + last)[|extra|..] == last;
  }

  lemma ZeroBytes(b: seq<byte>)
    requires |b| == 4
    ensures FromLittle(b) != 0 <==> exists i :: 0 <= i < 4 && b[i] != 0
  {
    if FromLittle(b) != 0 {
      assert b[0] != 0 || b[1] != 0 || b[2] != 0 || b[3] != 0;
    }
  }

  /** The mark is in the last block, or the bit count is not zero. */
  lemma LastBlockNotZero(message: seq<byte>)
    ensures exists i :: 0 <= i < 64 && LastBlock(message)[i] != 0
  {
    hide ToLittle, FromLittle, Low, High, Padding;
    var n, b := |message|, LastBlock(message);
    PaddedLength(n);
    PaddingEnds(Rest(message), n);
    MarkIs(Rest(message), n);
    if n % 64 < 56 {
      assert b[n % 64] == 0x80;
    } else {
      CountMod64(n);
      ZeroBytes(ToLittle(Low(n)));
      var i :| 0 <= i < 4 && ToLittle(Low(n))[i] != 0;
      assert b[56 + i] == ToLittle(Low(n))[i];
    }
  }

  /** So memory that holds its words is not cleared. */
  lemma NotCleared(m: Machine, input: seq<byte>, message: seq<byte>)
    requires |input| == 64 && NativeWords(m, input) == LittleWords(LastBlock(message))
    ensures exists i :: 0 <= i < 64 && input[i] != 0
  {
    hide LastBlock, FromLittle, NativeWords, LittleWords;
    LastBlockNotZero(message);
    var b := LastBlock(message);
    var i :| 0 <= i < 64 && b[i] != 0;
    var k := i / 4;
    var x, y := b[4 * k..4 * k + 4], input[4 * k..4 * k + 4];
    assert x[i % 4] == b[i];
    ZeroBytes(x);
    ZeroWord(m, input, b, k);
    ZeroLoaded(m, y);
    var j :| 0 <= j < 4 && y[j] != 0;
    assert input[4 * k + j] != 0;
  }

  lemma ZeroWord(m: Machine, input: seq<byte>, b: seq<byte>, k: nat)
    requires |input| == |b| == 64 && k < 16 && NativeWords(m, input) == LittleWords(b)
    ensures Load(m, input[4 * k..4 * k + 4]) != 0 <==> FromLittle(b[4 * k..4 * k + 4]) != 0
  {
    hide FromLittle, Load, ToBits;
    var v, w := Load(m, input[4 * k..4 * k + 4]), FromLittle(b[4 * k..4 * k + 4]);
    assert ToBits(v) == NativeWords(m, input)[k] == LittleWords(b)[k] == ToBits(w);
    ZeroBits(v);
    ZeroBits(w);
  }

  lemma ZeroBits(v: u32)
    ensures ToBits(v) == 0 <==> v == 0
  {
  }

  lemma ZeroLoaded(m: Machine, b: seq<byte>)
    requires |b| == 4 && Load(m, b) != 0
    ensures exists i :: 0 <= i < 4 && b[i] != 0
  {
    hide FromLittle;
    ZeroBytes(b);
    ZeroBytes(Reversed4(b));
    if i :| 0 <= i < 4 && Reversed4(b)[i] != 0 {
      assert b[3 - i] != 0;
    }
  }

  // ----- The context -----

  class Context {
    const machine: Machine
    var buf: Registers
    var bits0: u32
    var bits1: u32
    const input: array<byte>
    ghost var message: seq<byte>  // everything passed to Update so far

    ghost predicate Valid()
      reads this, input
    {
      && input.Length == 64
      && bits0 == Low(|message|) && bits1 == High(|message|)
      && buf == Fold(INITIAL, Whole(message))
      && input[..|message| % 64] == Rest(message)
    }

    constructor (machine: Machine)
      ensures Valid() && message == [] && fresh(input)
    {
      this.machine := machine;
      buf := INITIAL;
      bits0, bits1 := 0, 0;
      input := new byte[64];
      message := [];
    }

    /** Reverse the buffer and feed it to the transform. */
    method TransformInput()
      requires input.Length == 64
      modifies this`buf, input
      ensures buf == Block(old(buf), old(input[..]))
    {
      hide Compress, Reordered;
      ghost var before := input[..];
      ByteReverse(machine, input, 16);
      NativeIsLittle(machine, before, input[..], 16);
      buf := MD5Transform(buf, NativeWords(machine, input[..]));
    }

    /** memcpy into the buffer. */
    method CopyIn(at: nat, data: seq<byte>)
      requires at + |data| <= input.Length
      modifies input
      ensures input[at..at + |data|] == data
      ensures input[..at] == old(input[..at]) && input[at + |data|..] == old(input[at + |data|..])
    {
      forall i | 0 <= i < |data| {
        input[at + i] := data[i];
      }
    }

    /** The bit count, with its carry; t is the number of bytes already buffered. */
    method AddToCount(len: nat, ghost n: nat) returns (t: int)
      requires bits0 == Low(n) && bits1 == High(n)
      modifies this`bits0, this`bits1
      ensures bits0 == Low(n + len) && bits1 == High(n + len) && t == n % 64
    {
      BitCount(n, len);
      CountMod64(n);
      hide Low, High;
      t := bits0;
      bits0 := (t + len % WIDTH * 8 % WIDTH) % WIDTH;
      if bits0 < t {
        bits1 := (bits1 + 1) % WIDTH;
      }
      bits1 := (bits1 + len / 0x2000_0000 % WIDTH) % WIDTH;
      t := t / 8 % 64;
    }

    /** Complete blocks go through the buffer one by one. */
    method ProcessChunks(data: seq<byte>, start: nat, ghost done: seq<byte>) returns (pos: nat)
      requires input.Length == 64 && start <= |data|
      requires |done| % 64 == 0 && buf == Fold(INITIAL, done)
      modifies this`buf, input
      ensures start <= pos <= |data| && |data| - pos < 64
      ensures |done + data[start..pos]| % 64 == 0 && buf == Fold(INITIAL, done + data[start..pos])
    {
      hide Block, Fold;
      pos := start;
      assert done + data[start..pos] == done;
      while |data| - pos >= 64
        invariant start <= pos <= |data|
        invariant |done + data[start..pos]| % 64 == 0 && buf == Fold(INITIAL, done + data[start..pos])
      {
        CopyIn(0, data[pos..pos + 64]);
        assert input[..] == data[pos..pos + 64];
        TransformInput();
        FoldOne(INITIAL, done + data[start..pos], data[pos..pos + 64]);
        assert done + data[start..pos] + data[pos..pos + 64] == done + data[start..pos + 64];
        pos := pos + 64;
      }
    }

    /** The buffered rest and the beginning of the data make a block. */
    method CompleteBlock(front: seq<byte>, ghost rest: seq<byte>, ghost done: seq<byte>)
      requires input.Length == 64 && |rest| + |front| == 64 && input[..|rest|] == rest
      requires |done| % 64 == 0 && |done + (rest + front)| % 64 == 0 && buf == Fold(INITIAL, done)
      modifies this`buf, input
      ensures buf == Fold(INITIAL, done + (rest + front))
    {
      hide Block, Fold;
      CopyIn(64 - |front|, front);
      assert input[..] == rest + front;
      TransformInput();
      FoldOne(INITIAL, done, rest + front);
    }

    method Update(data: seq<byte>)
      requires Valid() && |data| < 0x1_0000_0000_0000_0000
      modifies this, input
      ensures Valid() && message == old(message) + data
    {
      hide Block, Low, High, Fold, Whole, Rest;
      ghost var m0 := message;
      var t := AddToCount(|data|, |m0|);
      message := m0 + data;
      ghost var done := Whole(m0);
      var pos := 0;
      if t != 0 {
        var free := 64 - t;
        if |data| < free {
          CopyIn(t, data);
          assert input[..t + |data|] == Rest(m0) + data;
          ShortUpdate(m0, data, input[..t + |data|]);
          return;
        }
        CompleteBlock(data[..free], Rest(m0), done);
        done, pos := done + (Rest(m0) + data[..free]), free;
      }
      pos := ProcessChunks(data, pos, done);
      CopyIn(0, data[pos..]);
      LongUpdate(m0, data, t, done, if t != 0 then 64 - t else 0, pos);
    }

    /** Too little room for the length: the block is filled up and another one begun. */
    method PadTwoBlocks(p: nat, ghost front: seq<byte>) returns (ghost extra: seq<byte>)
      requires input.Length == 64 && p == |front| <= 64 && input[..p] == front
      modifies this`buf, input
      ensures |extra| % 64 == 0 && buf == Fold(old(buf), extra)
      ensures extra + input[..56] == front + Zeros(120 - p)
    {
      hide Block, Fold;
      CopyIn(p, Zeros(64 - p));
      extra := front + Zeros(64 - p);
      assert input[..] == extra;
      TransformInput();
      FoldSingle(old(buf), extra);
      CopyIn(0, Zeros(56));
      assert input[..56] == Zeros(56);
      assert Zeros(64 - p) + Zeros(56) == Zeros(120 - p);
    }

    /** The mark bit and the zeros: up to 56 bytes of the last block, or one block more if they do not fit. */
    method Pad() returns (ghost extra: seq<byte>)
      requires Valid()
      modifies this`buf, input
      ensures |extra| % 64 == 0 && buf == Fold(old(buf), extra)
      ensures extra + input[..56] == Rest(message) + Mark(|message|)
    {
      hide Block, Fold, Low, High, Whole, Rest, Zeros;
      CountMod64(|message|);
      ghost var front := Rest(message) + [0x80];
      var count := bits0 / 8 % 64;
      input[count] := 0x80;
      assert input[..count + 1] == front;
      var p := count + 1;
      count := 64 - 1 - count;
      if count < 8 {
        extra := PadTwoBlocks(p, front);
      } else {
        CopyIn(p, Zeros(count - 8));
        extra := [];
        assert input[..56] == front + Zeros(count - 8);
        FoldEmpty(old(buf));
      }
      MarkIs(Rest(message), |message|);
    }

    /** The length words are stored natively beside the fourteen reversed ones. */
    method AppendLength()
      requires input.Length == 64
      modifies this`buf, input
      ensures buf == Block(old(buf), old(input[..56]) + ToLittle(bits0) + ToLittle(bits1))
      ensures NativeWords(machine, input[..]) == LittleWords(old(input[..56]) + ToLittle(bits0) + ToLittle(bits1))
    {
      hide Compress, Reordered, ToLittle, FromLittle, Store, NativeWords, LittleWords;
      ghost var front, was := input[..56], input[..];
      ByteReverse(machine, input, 14);
      ghost var words := input[..56];
      FrontReversed(machine, was, input[..], 14);
      CopyIn(56, Store(machine, bits0));
      CopyIn(60, Store(machine, bits1));
      assert input[..] == words + Store(machine, bits0) + Store(machine, bits1);
      LengthWords(machine, front, words, input[..], bits0, bits1);
      buf := MD5Transform(buf, NativeWords(machine, input[..]));
    }

    /** The registers as they lie in memory. */
    method Memory() returns (bytes: array<byte>)
      ensures fresh(bytes) && bytes.Length == 16
      ensures bytes[0..4] == Store(machine, FromBits(buf.a)) && bytes[4..8] == Store(machine, FromBits(buf.b))
      ensures bytes[8..12] == Store(machine, FromBits(buf.c)) && bytes[12..16] == Store(machine, FromBits(buf.d))
    {
      hide Store, FromBits;
      bytes := new byte[16];
      var a, b, c, d := Store(machine, FromBits(buf.a)), Store(machine, FromBits(buf.b)),
                        Store(machine, FromBits(buf.c)), Store(machine, FromBits(buf.d));
      var native := a + b + c + d;
      FourParts(a, b, c, d);
      forall i | 0 <= i < 16 { bytes[i] := native[i]; }
      assert bytes[..] == native;
    }

    /** The registers are put into the byte order of the standard where they are, and copied out. */
    method Emit() returns (digest: seq<byte>)
      modifies this`buf
      ensures digest == Output(old(buf)) && buf == Registers(
                ToBits(Load(machine, digest[..4])), ToBits(Load(machine, digest[4..8])),
                ToBits(Load(machine, digest[8..12])), ToBits(Load(machine, digest[12..])))
    {
      hide ToLittle, Store, FromBits, Reordered, Load, ToBits;
      var bytes := Memory();
      ReorderedStore(machine, FromBits(buf.a));
      ReorderedStore(machine, FromBits(buf.b));
      ReorderedStore(machine, FromBits(buf.c));
      ReorderedStore(machine, FromBits(buf.d));
      ghost var before := bytes[..];
      ByteReverse(machine, bytes, 4);
      FourWords(machine, before, bytes[..], buf);
      digest := bytes[..];
      hide Output;
      buf := Registers(ToBits(Load(machine, digest[..4])), ToBits(Load(machine, digest[4..8])),
                       ToBits(Load(machine, digest[8..12])), ToBits(Load(machine, digest[12..])));
    }

    /**
     The last memset clears as many bytes as a pointer has: the first two registers. The second
     half of the digest, the length and the last block of the padded message stay in the context.
     */
    method Final() returns (digest: seq<byte>)
      requires Valid()
      modifies this`buf, input
      ensures digest == Digest(message)
      ensures buf == Registers(0, 0, ToBits(Load(machine, digest[8..12])), ToBits(Load(machine, digest[12..])))
      ensures bits0 == Low(|message|) && bits1 == High(|message|)
      ensures NativeWords(machine, input[..]) == LittleWords(LastBlock(message))
      ensures exists i :: 0 <= i < 64 && input[..][i] != 0
    {
      hide Block, Fold, Padding, Output, ToLittle, LastBlock, NativeWords, LittleWords, ToBits, Load, Whole, Rest, Low, High;
      DigestOfRest(message);
      ghost var extra := Pad();
      ghost var last := input[..56] + ToLittle(bits0) + ToLittle(bits1);
      FoldAppend(old(buf), extra, last);
      FoldSingle(buf, last);
      assert extra + last == Rest(message) + Padding(|message|) by {
        assert extra + last == extra + input[..56] + ToLittle(bits0) + ToLittle(bits1);
        PaddingEnds(Rest(message), |message|);
      }
      LastBlockIs(message, extra, last);
      AppendLength();
      digest := Emit();
      NotCleared(machine, input[..], message);
      buf := buf.(a := 0, b := 0);
    }
  }

  lemma LongUpdate(m0: seq<byte>, data: seq<byte>, t: int, done: seq<byte>, start: nat, pos: nat)
    requires t == |m0| % 64 && start == (if t != 0 then 64 - t else 0) && start <= pos <= |data| && |data| - pos < 64
    requires done == if t != 0 then Whole(m0) + (Rest(m0) + data[..start]) else Whole(m0)
    requires |done + data[start..pos]| % 64 == 0
    ensures Whole(m0 + data) == done + data[start..pos] && Rest(m0 + data) == data[pos..]
  {
    assert done == m0 + data[..start];
    assert m0 + data == (done + data[start..pos]) + data[pos..];
    SplitAt(done + data[start..pos], data[pos..]);
  }

  lemma FoldEmpty(r: Registers)
    ensures Fold(r, []) == r
  {
  }

  lemma FoldSingle(r: Registers, block: seq<byte>)
    requires |block| == 64
    ensures Fold(r, block) == Block(r, block)
  {
    hide Block, Fold;
    FoldOne(r, [], block);
    assert [] + block == block;
    FoldEmpty(r);
  }

  lemma FourParts(a: seq<byte>, b: seq<byte>, c: seq<byte>, d: seq<byte>)
    requires |a| == |b| == |c| == |d| == 4
    ensures
      var s := a + b + c + d;
      s[0..4] == a && s[4..8] == b && s[8..12] == c && s[12..16] == d
  {
    assert a + b + c + d == a + (b + (c + d));
  }

  lemma FourWords(m: Machine, before: seq<byte>, after: seq<byte>, r: Registers)
    requires |before| == 16 && HasReversed(m, before, after, 4)
    requires Reordered(m, before[0..4]) == ToLittle(FromBits(r.a)) && Reordered(m, before[4..8]) == ToLittle(FromBits(r.b))
    requires Reordered(m, before[8..12]) == ToLittle(FromBits(r.c)) && Reordered(m, before[12..16]) == ToLittle(FromBits(r.d))
    ensures after == Output(r)
  {
    hide Reordered, ToLittle, FromBits;
    assert after[4 * 0..4 * 0 + 4] == ToLittle(FromBits(r.a));
    assert after[4 * 1..4 * 1 + 4] == ToLittle(FromBits(r.b));
    assert after[4 * 2..4 * 2 + 4] == ToLittle(FromBits(r.c));
    assert after[4 * 3..4 * 3 + 4] == ToLittle(FromBits(r.d));
    assert after == after[0..4] + after[4..8] + after[8..12] + after[12..16];
  }

  lemma FrontReversed(m: Machine, was: seq<byte>, now: seq<byte>, longs: nat)
    requires HasReversed(m, was, now, longs)
    ensures HasReversed(m, was[..4 * longs], now[..4 * longs], longs)
  {
    hide Reordered;
    forall i | 0 <= i < longs
      ensures now[..4 * longs][4 * i..4 * i + 4] == Reordered(m, was[..4 * longs][4 * i..4 * i + 4])
    {
      assert now[..4 * longs][4 * i..4 * i + 4] == now[4 * i..4 * i + 4];
      assert was[..4 * longs][4 * i..4 * i + 4] == was[4 * i..4 * i + 4];
    }
  }

  lemma LengthWords(m: Machine, front: seq<byte>, words: seq<byte>, after: seq<byte>, low: u32, high: u32)
    requires |front| == 56 && HasReversed(m, front, words, 14)
    requires after == words + Store(m, low) + Store(m, high)
    ensures NativeWords(m, after) == LittleWords(front + ToLittle(low) + ToLittle(high))
  {
    hide ToLittle, FromLittle, Store, Reordered;
    var before := front + ToLittle(low) + ToLittle(high);
    forall i | 0 <= i < 14
      ensures after[4 * i..4 * i + 4] == Reordered(m, before[4 * i..4 * i + 4])
    {
      assert after[4 * i..4 * i + 4] == words[4 * i..4 * i + 4];
      assert before[4 * i..4 * i + 4] == front[4 * i..4 * i + 4];
    }
    assert before[56..60] == ToLittle(low) && before[60..64] == ToLittle(high);
    assert after[56..60] == Store(m, low) && after[60..64] == Store(m, high);
    forall i | 14 <= i < 16
      ensures after[4 * i..4 * i + 4] == Store(m, FromLittle(before[4 * i..4 * i + 4]))
    {
      assert i == 14 || i == 15;
    }
    NativeIsLittle(m, before, after, 14);
  }

  lemma ShortUpdate(m0: seq<byte>, data: seq<byte>, buffered: seq<byte>)
    requires |m0| % 64 + |data| < 64 && buffered == Rest(m0) + data
    ensures Whole(m0 + data) == Whole(m0) && Rest(m0 + data) == buffered && |m0 + data| % 64 == |buffered|
  {
    assert m0 + data == Whole(m0) + buffered;
    SplitAt(Whole(m0), buffered);
  }

  method MD5Sum(machine: Machine, data: seq<byte>) returns (digest: seq<byte>)
    requires |data| < 0x1_0000_0000_0000_0000
    ensures digest == Digest(data)
  {
    hide *;
    var ctx := new Context(machine);
    ctx.Update(data);
    assert [] + data == data;
    digest := ctx.Final();
  }

  function Concat(parts: seq<seq<byte>>): seq<byte> {
    if parts == [] then [] else Concat(parts[..|parts| - 1]) + parts[|parts| - 1]
  }

  /** However a message is cut into parts, and on either machine, the digest is that of the whole. */
  method DigestInParts(machine: Machine, parts: seq<seq<byte>>) returns (digest: seq<byte>)
    requires forall i :: 0 <= i < |parts| ==> |parts[i]| < 0x1_0000_0000_0000_0000
    ensures digest == Digest(Concat(parts))
  {
    hide Digest, Fold, Whole, Rest, Low, High;
    var ctx := new Context(machine);
    var i := 0;
    while i < |parts|
      invariant 0 <= i <= |parts| && ctx.Valid() && ctx.message == Concat(parts[..i])
      invariant fresh(ctx) && fresh(ctx.input)
    {
      assert parts[..i + 1][..i] == parts[..i];
      ctx.Update(parts[i]);
      i := i + 1;
    }
    assert parts[..i] == parts;
    digest := ctx.Final();
  }
}

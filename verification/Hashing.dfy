/**
 The block mixers of the library's hash functions.

 MurmurHash2 (src/base3/hash.h) mixes one word at a time, doobs_hash
 (src/base3/doobs_hash.cc) three. No step merges states, so keys that
 differ in one block only cannot collide there.
 */
module Hashing {

  type Bytes = seq<bv8>

  // ----- Words -----

  /** Four bytes read as an unsigned int on a little-endian machine. */
  function Word(b: Bytes): bv32
    requires |b| == 4
  {
    Joined(b[0], b[1], b[2], b[3])
  }

  function Joined(a: bv8, b: bv8, c: bv8, d: bv8): bv32 {
    (a as bv32) | ((b as bv32) << 8) | ((c as bv32) << 16) | ((d as bv32) << 24)
  }

  lemma WordInjective(x: Bytes, y: Bytes)
    requires |x| == |y| == 4 && Word(x) == Word(y)
    ensures x == y
  {
    hide Joined;
    FourBytes(x[0], x[1], x[2], x[3], y[0], y[1], y[2], y[3]);
  }

  lemma FourBytes(a: bv8, b: bv8, c: bv8, d: bv8, e: bv8, f: bv8, g: bv8, h: bv8)
    requires Joined(a, b, c, d) == Joined(e, f, g, h)
    ensures a == e && b == f && c == g && d == h
  {
  }

  // ----- Inverses of the elementary steps -----

  // Every elementary step is injective in the word it changes.

  function Times(x: bv32): bv32 { x * 0x5bd1e995 }

  /** Multiplication by the inverse of the odd constant. */
  function Untimes(x: bv32): bv32 { x * 0xe59b19bd }

  lemma InverseFactor(x: bv32)
    ensures Untimes(x * 0x5bd1e995) == x
  {
  }

  lemma TimesUndone(x: bv32)
    ensures Untimes(Times(x)) == x
  {
    hide Untimes;
    InverseFactor(x);
  }

  lemma TimesInjective(x: bv32, y: bv32)
    requires Times(x) == Times(y)
    ensures x == y
  {
    hide Times, Untimes;
    TimesUndone(x);
    TimesUndone(y);
  }

  function Xor(x: bv32, y: bv32): bv32 { x ^ y }

  lemma XorSame(x: bv32, y: bv32, z: bv32)
    ensures x ^ z == y ^ z ==> x == y
    ensures z ^ x == z ^ y ==> x == y
  {
  }

  lemma XorInjective(x: bv32, y: bv32, z: bv32)
    ensures Xor(x, z) == Xor(y, z) ==> x == y
    ensures Xor(z, x) == Xor(z, y) ==> x == y
  {
    XorSame(x, y, z);
  }

  lemma Exchange(x: bv32, y: bv32, s: bv32, t: bv32)
    requires x ^ s == y ^ t
    ensures x ^ y == s ^ t
  {
  }

  lemma XorExchange(x: bv32, y: bv32, s: bv32, t: bv32)
    requires Xor(x, s) == Xor(y, t)
    ensures Xor(x, y) == Xor(s, t)
  {
    Exchange(x, y, s, t);
  }

  lemma XorZero(x: bv32, y: bv32)
    requires Xor(x, y) == 0
    ensures x == y
  {
  }

  // x ^= x >> n loses nothing: a difference d of two words with the same image is its own shift.

  function Shr13(x: bv32): bv32 { x >> 13 }

  function Fold13(x: bv32): bv32 { Xor(x, Shr13(x)) }

  lemma Shr13Xor(x: bv32, y: bv32)
    ensures Shr13(Xor(x, y)) == Xor(Shr13(x), Shr13(y))
  {
  }

  lemma OwnShift13(d: bv32)
    requires d == d >> 13
    ensures d == 0
  {
  }

  lemma OwnShr13(d: bv32)
    requires d == Shr13(d)
    ensures d == 0
  {
    OwnShift13(d);
  }

  lemma Fold13Injective(x: bv32, y: bv32)
    requires Fold13(x) == Fold13(y)
    ensures x == y
  {
    hide Shr13, Xor;
    XorExchange(x, y, Shr13(x), Shr13(y));
    Shr13Xor(x, y);
    OwnShr13(Xor(x, y));
    XorZero(x, y);
  }

  function Shr15(x: bv32): bv32 { x >> 15 }

  function Fold15(x: bv32): bv32 { Xor(x, Shr15(x)) }

  lemma Shr15Xor(x: bv32, y: bv32)
    ensures Shr15(Xor(x, y)) == Xor(Shr15(x), Shr15(y))
  {
  }

  lemma OwnShift15(d: bv32)
    requires d == d >> 15
    ensures d == 0
  {
  }

  lemma OwnShr15(d: bv32)
    requires d == Shr15(d)
    ensures d == 0
  {
    OwnShift15(d);
  }

  lemma Fold15Injective(x: bv32, y: bv32)
    requires Fold15(x) == Fold15(y)
    ensures x == y
  {
    hide Shr15, Xor;
    XorExchange(x, y, Shr15(x), Shr15(y));
    Shr15Xor(x, y);
    OwnShr15(Xor(x, y));
    XorZero(x, y);
  }

  function Shr24(x: bv32): bv32 { x >> 24 }

  function Fold24(x: bv32): bv32 { Xor(x, Shr24(x)) }

  lemma Shr24Xor(x: bv32, y: bv32)
    ensures Shr24(Xor(x, y)) == Xor(Shr24(x), Shr24(y))
  {
  }

  lemma OwnShift24(d: bv32)
    requires d == d >> 24
    ensures d == 0
  {
  }

  lemma OwnShr24(d: bv32)
    requires d == Shr24(d)
    ensures d == 0
  {
    OwnShift24(d);
  }

  lemma Fold24Injective(x: bv32, y: bv32)
    requires Fold24(x) == Fold24(y)
    ensures x == y
  {
    hide Shr24, Xor;
    XorExchange(x, y, Shr24(x), Shr24(y));
    Shr24Xor(x, y);
    OwnShr24(Xor(x, y));
    XorZero(x, y);
  }

  // ----- MurmurHash2 -----

  function Scramble(k: bv32): bv32 { Times(Fold24(Times(k))) }

  /** One round of the block loop. */
  function Absorb(h: bv32, k: bv32): bv32 { Xor(Times(h), Scramble(k)) }

  function Blocks(h: bv32, s: Bytes): bv32
    decreases |s|
  {
    if |s| < 4 then h else Blocks(Absorb(h, Word(s[..4])), s[4..])
  }

  /** The one to three bytes that are left, as the switch combines them. */
  function TailWord(t: Bytes): bv32
    requires |t| < 4
  {
    if |t| == 0 then 0
    else if |t| == 1 then t[0] as bv32
    else if |t| == 2 then Xor((t[1] as bv32) << 8, t[0] as bv32)
    else Xor(Xor((t[2] as bv32) << 16, (t[1] as bv32) << 8), t[0] as bv32)
  }

  function AbsorbTail(h: bv32, t: Bytes): bv32
    requires |t| < 4
  {
    if t == [] then h else Times(Xor(h, TailWord(t)))
  }

  function Finish(h: bv32): bv32 {
    Fold15(Times(Fold13(h)))
  }

  function Tail(s: Bytes): (t: Bytes)
    ensures |t| < 4 && |t| == |s| % 4
  {
    s[|s| - |s| % 4..]
  }

  /** A length as an unsigned 32-bit word. */
  function Length(n: nat): bv32
    requires n < 0x1_0000_0000
  {
    n as bv32
  }

  function Start(length: nat, seed: bv32): bv32
    requires length < 0x1_0000_0000
  {
    Xor(seed, Length(length))
  }

  function Murmur(key: Bytes, seed: bv32): bv32
    requires |key| < 0x1_0000_0000
  {
    Finish(AbsorbTail(Blocks(Start(|key|, seed), key), Tail(key)))
  }

  method MurmurHash2(key: Bytes, seed: bv32) returns (h: bv32)
    requires |key| < 0x1_0000_0000
    ensures h == Murmur(key, seed)
  {
    hide Times, Xor, Fold13, Fold15, Fold24, Word, AbsorbTail, Length;
    h := Xor(seed, Length(|key|));
    var data, len := 0, |key|;
    assert key[0..] == key;
    while len >= 4
      invariant 0 <= data && 0 <= len && data + len == |key| && data % 4 == 0
      invariant Blocks(h, key[data..]) == Blocks(Start(|key|, seed), key)
    {
      assert key[data..][..4] == key[data..data + 4] && key[data..][4..] == key[data + 4..];
      var k := Word(key[data..data + 4]);
      k := Times(k);
      k := Fold24(k);
      k := Times(k);
      h := Times(h);
      h := Xor(h, k);
      data := data + 4;
      len := len - 4;
    }
    RestIsTail(key, data);
    h := MixTail(h, key[data..]);
    h := Fold13(h);
    h := Times(h);
    h := Fold15(h);
  }

  /** The switch on the remaining length, whose cases fall through. */
  method MixTail(h0: bv32, t: Bytes) returns (h: bv32)
    requires |t| < 4
    ensures h == AbsorbTail(h0, t)
  {
    hide Times, Xor;
    h := h0;
    XorAssociates(h0, t);
    if |t| == 3 { h := Xor(h, (t[2] as bv32) << 16); }
    if |t| >= 2 { h := Xor(h, (t[1] as bv32) << 8); }
    if |t| >= 1 {
      h := Xor(h, t[0] as bv32);
      h := Times(h);
    }
  }

  lemma RestIsTail(key: Bytes, data: nat)
    requires data <= |key| < data + 4 && data % 4 == 0
    ensures Tail(key) == key[data..] && forall h :: Blocks(h, key[data..]) == h
  {
  }

  lemma XorAssociates(h: bv32, t: Bytes)
    requires |t| < 4
    ensures |t| == 1 ==> Xor(h, t[0] as bv32) == Xor(h, TailWord(t))
    ensures |t| == 2 ==> Xor(Xor(h, (t[1] as bv32) << 8), t[0] as bv32) == Xor(h, TailWord(t))
    ensures |t| == 3 ==> Xor(Xor(Xor(h, (t[2] as bv32) << 16), (t[1] as bv32) << 8), t[0] as bv32) == Xor(h, TailWord(t))
  {
    if |t| == 2 {
      XorAssociative(h, (t[1] as bv32) << 8, t[0] as bv32);
    } else if |t| == 3 {
      var x, y, z := (t[2] as bv32) << 16, (t[1] as bv32) << 8, t[0] as bv32;
      XorAssociative(h, x, y);
      XorAssociative(h, Xor(x, y), z);
    }
  }

  lemma XorAssociative(x: bv32, y: bv32, z: bv32)
    ensures Xor(Xor(x, y), z) == Xor(x, Xor(y, z))
  {
  }

  // ----- MurmurHash2 keeps differences -----

  lemma AbsorbInjective(h: bv32, h': bv32, k: bv32, k': bv32)
    ensures Absorb(h, k) == Absorb(h', k) ==> h == h'
    ensures Absorb(h, k) == Absorb(h, k') ==> k == k'
  {
    hide Times, Fold24, Xor;
    XorInjective(Times(h), Times(h'), Scramble(k));
    XorInjective(Scramble(k), Scramble(k'), Times(h));
    if Times(h) == Times(h') { TimesInjective(h, h'); }
    if Scramble(k) == Scramble(k') {
      TimesInjective(Fold24(Times(k)), Fold24(Times(k')));
      Fold24Injective(Times(k), Times(k'));
      TimesInjective(k, k');
    }
  }

  lemma {:induction false} BlocksInjective(h: bv32, h': bv32, s: Bytes)
    requires Blocks(h, s) == Blocks(h', s)
    ensures h == h'
    decreases |s|
  {
    hide Absorb, Word;
    if |s| >= 4 {
      var k := Word(s[..4]);
      BlocksInjective(Absorb(h, k), Absorb(h', k), s[4..]);
      AbsorbInjective(h, h', k, k);
    }
  }

  lemma TailInjective(h: bv32, h': bv32, t: Bytes, t': Bytes)
    requires |t| == |t'| < 4
    ensures AbsorbTail(h, t) == AbsorbTail(h', t) ==> h == h'
    ensures AbsorbTail(h, t) == AbsorbTail(h, t') ==> t == t'
  {
    hide Times, Xor;
    if t != [] {
      XorInjective(h, h', TailWord(t));
      XorInjective(TailWord(t), TailWord(t'), h);
      if Times(Xor(h, TailWord(t))) == Times(Xor(h', TailWord(t))) {
        TimesInjective(Xor(h, TailWord(t)), Xor(h', TailWord(t)));
      }
      if Times(Xor(h, TailWord(t))) == Times(Xor(h, TailWord(t'))) {
        TimesInjective(Xor(h, TailWord(t)), Xor(h, TailWord(t')));
        TailWordInjective(t, t');
      }
    }
  }

  lemma TailWordInjective(t: Bytes, t': Bytes)
    requires |t| == |t'| < 4 && TailWord(t) == TailWord(t')
    ensures t == t'
  {
    hide Xor;
    if |t| == 1 {
      OneByte(t[0], t'[0]);
    } else if |t| == 2 {
      TwoBytesXor(t[0], t[1], t'[0], t'[1]);
    } else if |t| == 3 {
      ThreeBytesXor(t[0], t[1], t[2], t'[0], t'[1], t'[2]);
    }
  }

  lemma OneByte(a: bv8, b: bv8)
    requires a as bv32 == b as bv32
    ensures a == b
  {
  }

  lemma TwoBytesXor(a: bv8, b: bv8, e: bv8, f: bv8)
    requires Xor((b as bv32) << 8, a as bv32) == Xor((f as bv32) << 8, e as bv32)
    ensures a == e && b == f
  {
  }

  lemma ThreeBytesXor(a: bv8, b: bv8, c: bv8, e: bv8, f: bv8, g: bv8)
    requires Xor(Xor((c as bv32) << 16, (b as bv32) << 8), a as bv32)
             == Xor(Xor((g as bv32) << 16, (f as bv32) << 8), e as bv32)
    ensures a == e && b == f && c == g
  {
  }

  lemma FinishInjective(h: bv32, h': bv32)
    requires Finish(h) == Finish(h')
    ensures h == h'
  {
    hide Times, Fold13, Fold15;
    Fold15Injective(Times(Fold13(h)), Times(Fold13(h')));
    TimesInjective(Fold13(h), Fold13(h'));
    Fold13Injective(h, h');
  }

  lemma {:induction false} BlocksSplit(h: bv32, p: Bytes, s: Bytes)
    requires |p| % 4 == 0
    ensures Blocks(h, p + s) == Blocks(Blocks(h, p), s)
    decreases |p|
  {
    hide Absorb, Word;
    if p == [] {
      assert p + s == s;
    } else {
      assert (p + s)[..4] == p[..4] && (p + s)[4..] == p[4..] + s;
      BlocksSplit(Absorb(h, Word(p[..4])), p[4..], s);
    }
  }

  /** Keys of one length that differ inside one aligned block have different hashes. */
  lemma MurmurSeparatesBlocks(p: Bytes, x: Bytes, y: Bytes, s: Bytes, seed: bv32)
    requires |p| % 4 == 0 && |x| == |y| == 4 && x != y && |p| + 4 + |s| < 0x1_0000_0000
    ensures Murmur(p + x + s, seed) != Murmur(p + y + s, seed)
  {
    hide Absorb, AbsorbTail, Finish, Word, Start;
    var h0 := Start(|p| + 4 + |s|, seed);
    BlockThenRest(h0, p, x, s);
    BlockThenRest(h0, p, y, s);
    SameTail(p, x, y, s);
    var h := Blocks(h0, p);
    var hx, hy := Absorb(h, Word(x)), Absorb(h, Word(y));
    if Murmur(p + x + s, seed) == Murmur(p + y + s, seed) {
      FinishInjective(AbsorbTail(Blocks(hx, s), Tail(p + x + s)), AbsorbTail(Blocks(hy, s), Tail(p + y + s)));
      TailInjective(Blocks(hx, s), Blocks(hy, s), Tail(p + x + s), Tail(p + x + s));
      BlocksInjective(hx, hy, s);
      AbsorbInjective(h, h, Word(x), Word(y));
      WordInjective(x, y);
    }
  }

  lemma BlockThenRest(h: bv32, p: Bytes, x: Bytes, s: Bytes)
    requires |p| % 4 == 0 && |x| == 4
    ensures Blocks(h, p + x + s) == Blocks(Absorb(Blocks(h, p), Word(x)), s)
  {
    hide Absorb, Word;
    assert p + x + s == p + (x + s);
    BlocksSplit(h, p, x + s);
    assert (x + s)[..4] == x && (x + s)[4..] == s;
  }

  lemma SameTail(p: Bytes, x: Bytes, y: Bytes, s: Bytes)
    requires |p| % 4 == 0 && |x| == |y| == 4
    ensures Tail(p + x + s) == Tail(p + y + s)
  {
    TailOf(p + x, s);
    TailOf(p + y, s);
  }

  lemma TailOf(p: Bytes, s: Bytes)
    requires |p| % 4 == 0
    ensures Tail(p + s) == Tail(s)
  {
    assert |p + s| % 4 == |s| % 4;
  }

  /** The same for keys that differ only behind the last block. */
  lemma MurmurSeparatesTails(p: Bytes, x: Bytes, y: Bytes, seed: bv32)
    requires |p| % 4 == 0 && |x| == |y| < 4 && x != y && |p| + |x| < 0x1_0000_0000
    ensures Murmur(p + x, seed) != Murmur(p + y, seed)
  {
    hide Absorb, AbsorbTail, Finish, Word, Start;
    var h := Blocks(Start(|p| + |x|, seed), p);
    BlocksSplit(Start(|p| + |x|, seed), p, x);
    BlocksSplit(Start(|p| + |x|, seed), p, y);
    TailOf(p, x);
    TailOf(p, y);
    assert Tail(x) == x && Tail(y) == y;
    if Murmur(p + x, seed) == Murmur(p + y, seed) {
      FinishInjective(AbsorbTail(h, x), AbsorbTail(h, y));
      TailInjective(h, h, x, y);
    }
  }

  // ----- doobs_hash -----

  /** A plain char is signed: it is extended when it becomes a 32-bit word. */
  function Extend(c: bv8): bv32 {
    if c < 128 then c as bv32 else (c as bv32) | 0xffff_ff00
  }

  function Add(x: bv32, y: bv32): bv32 { x + y }

  function Sub(x: bv32, y: bv32): bv32 { x - y }

  function Shl8(x: bv32): bv32 { x << 8 }

  function Shl16(x: bv32): bv32 { x << 16 }

  function Shl24(x: bv32): bv32 { x << 24 }

  function Sum4(e0: bv32, e1: bv32, e2: bv32, e3: bv32): bv32 {
    e0 + (e1 << 8) + (e2 << 16) + (e3 << 24)
  }

  /** Four chars added up, each in its place. */
  function Chars(b: Bytes): bv32
    requires |b| == 4
  {
    Sum4(Extend(b[0]), Extend(b[1]), Extend(b[2]), Extend(b[3]))
  }

  datatype State = State(a: bv32, b: bv32, c: bv32)

  // x -= y; x -= z; x ^= w
  function Twist(x: bv32, y: bv32, z: bv32, w: bv32): bv32 { Xor(Sub(Sub(x, y), z), w) }

  function Shr12(x: bv32): bv32 { x >> 12 }
  function Shr5(x: bv32): bv32 { x >> 5 }
  function Shr3(x: bv32): bv32 { x >> 3 }
  function Shl10(x: bv32): bv32 { x << 10 }

  /** The nine lines of the macro mix, three at a time. */
  function MixA(s: State): State {
    var a := Twist(s.a, s.b, s.c, Shr13(s.c));
    var b := Twist(s.b, s.c, a, Shl8(a));
    var c := Twist(s.c, a, b, Shr13(b));
    State(a, b, c)
  }

  function MixB(s: State): State {
    var a := Twist(s.a, s.b, s.c, Shr12(s.c));
    var b := Twist(s.b, s.c, a, Shl16(a));
    var c := Twist(s.c, a, b, Shr5(b));
    State(a, b, c)
  }

  function MixC(s: State): State {
    var a := Twist(s.a, s.b, s.c, Shr3(s.c));
    var b := Twist(s.b, s.c, a, Shl10(a));
    var c := Twist(s.c, a, b, Shr15(b));
    State(a, b, c)
  }

  function Mix(s: State): State { MixC(MixB(MixA(s))) }

  /** Where Twist came from, given the other words: mix runs backward as well as forward. */
  function Untwist(x: bv32, y: bv32, z: bv32, w: bv32): bv32 { Add(Add(Xor(x, w), z), y) }

  function UnmixA(s: State): State {
    var c := Untwist(s.c, s.a, s.b, Shr13(s.b));
    var b := Untwist(s.b, c, s.a, Shl8(s.a));
    var a := Untwist(s.a, b, c, Shr13(c));
    State(a, b, c)
  }

  function UnmixB(s: State): State {
    var c := Untwist(s.c, s.a, s.b, Shr5(s.b));
    var b := Untwist(s.b, c, s.a, Shl16(s.a));
    var a := Untwist(s.a, b, c, Shr12(c));
    State(a, b, c)
  }

  function UnmixC(s: State): State {
    var c := Untwist(s.c, s.a, s.b, Shr15(s.b));
    var b := Untwist(s.b, c, s.a, Shl10(s.a));
    var a := Untwist(s.a, b, c, Shr3(c));
    State(a, b, c)
  }

  function Unmix(s: State): State { UnmixA(UnmixB(UnmixC(s))) }

  lemma AddSub(x: bv32, y: bv32)
    ensures Add(Sub(x, y), y) == x && Sub(Add(x, y), y) == x
  {
    hide Add, Sub;
    SubUndone(x, y);
    AddUndone(x, y);
  }

  lemma SubUndone(x: bv32, y: bv32)
    ensures Add(Sub(x, y), y) == x
  {
    hide Add;
    AddRaw(x, y);
  }

  lemma AddUndone(x: bv32, y: bv32)
    ensures Sub(Add(x, y), y) == x
  {
    hide Sub;
    SubRaw(x, y);
  }

  lemma AddRaw(x: bv32, y: bv32)
    ensures Add(x - y, y) == x
  {
  }

  lemma SubRaw(x: bv32, y: bv32)
    ensures Sub(x + y, y) == x
  {
  }

  lemma TwistUndone(x: bv32, y: bv32, z: bv32, w: bv32)
    ensures Untwist(Twist(x, y, z, w), y, z, w) == x && Twist(Untwist(x, y, z, w), y, z, w) == x
  {
    hide Add, Sub, Xor;
    XorTwice(Sub(Sub(x, y), z), w);
    AddSub(Sub(x, y), z);
    AddSub(x, y);
    AddSub(Add(Xor(x, w), z), y);
    AddSub(Xor(x, w), z);
    XorTwice(x, w);
  }

  lemma XorTwice(x: bv32, w: bv32)
    ensures Xor(Xor(x, w), w) == x
  {
  }

  /** mix is a bijection on three words. */
  lemma MixBijective(s: State)
    ensures Unmix(Mix(s)) == s && Mix(Unmix(s)) == s
  {
    hide MixA, MixB, MixC, UnmixA, UnmixB, UnmixC;
    MixAUndone(s);
    MixBUndone(MixA(s));
    MixCUndone(MixB(MixA(s)));
    MixCUndone(s);
    MixBUndone(UnmixC(s));
    MixAUndone(UnmixB(UnmixC(s)));
  }

  lemma MixAUndone(s: State)
    ensures UnmixA(MixA(s)) == s && MixA(UnmixA(s)) == s
  {
    hide Twist, Untwist, Shr13, Shl8;
    var t, u := MixA(s), UnmixA(s);
    TwistUndone(s.a, s.b, s.c, Shr13(s.c));
    TwistUndone(s.b, s.c, t.a, Shl8(t.a));
    TwistUndone(s.c, t.a, t.b, Shr13(t.b));
    TwistUndone(s.c, s.a, s.b, Shr13(s.b));
    TwistUndone(s.b, u.c, s.a, Shl8(s.a));
    TwistUndone(s.a, u.b, u.c, Shr13(u.c));
  }

  lemma MixBUndone(s: State)
    ensures UnmixB(MixB(s)) == s && MixB(UnmixB(s)) == s
  {
    hide Twist, Untwist, Shr12, Shl16, Shr5;
    var t, u := MixB(s), UnmixB(s);
    TwistUndone(s.a, s.b, s.c, Shr12(s.c));
    TwistUndone(s.b, s.c, t.a, Shl16(t.a));
    TwistUndone(s.c, t.a, t.b, Shr5(t.b));
    TwistUndone(s.c, s.a, s.b, Shr5(s.b));
    TwistUndone(s.b, u.c, s.a, Shl16(s.a));
    TwistUndone(s.a, u.b, u.c, Shr12(u.c));
  }

  lemma MixCUndone(s: State)
    ensures UnmixC(MixC(s)) == s && MixC(UnmixC(s)) == s
  {
    hide Twist, Untwist, Shr3, Shl10, Shr15;
    var t, u := MixC(s), UnmixC(s);
    TwistUndone(s.a, s.b, s.c, Shr3(s.c));
    TwistUndone(s.b, s.c, t.a, Shl10(t.a));
    TwistUndone(s.c, t.a, t.b, Shr15(t.b));
    TwistUndone(s.c, s.a, s.b, Shr15(s.b));
    TwistUndone(s.b, u.c, s.a, Shl10(s.a));
    TwistUndone(s.a, u.b, u.c, Shr3(u.c));
  }

  // ----- The key -----

  function AddBlock(s: State, b: Bytes): State
    requires |b| == 12
  {
    State(Add(s.a, Chars(b[..4])), Add(s.b, Chars(b[4..8])), Add(s.c, Chars(b[8..])))
  }

  function Rounds(s: State, k: Bytes): State
    decreases |k|
  {
    if |k| < 12 then s else Rounds(Mix(AddBlock(s, k[..12])), k[12..])
  }

  function Rest(k: Bytes): (t: Bytes)
    ensures |t| < 12 && |t| == |k| % 12
  {
    k[|k| - |k| % 12..]
  }

  /** x += t[i] << 8 * place, in the cases of the switch that reach byte i. */
  function Plus(x: bv32, t: Bytes, i: nat, place: nat): bv32 {
    if i >= |t| then x
    else if place == 0 then Add(x, Extend(t[i]))
    else if place == 1 then Add(x, Shl8(Extend(t[i])))
    else if place == 2 then Add(x, Shl16(Extend(t[i])))
    else Add(x, Shl24(Extend(t[i])))
  }

  /** The last eleven bytes; the low byte of c is left to the length. */
  function AddRest(s: State, t: Bytes): State
    requires |t| < 12
  {
    State(Plus(Plus(Plus(Plus(s.a, t, 3, 3), t, 2, 2), t, 1, 1), t, 0, 0),
          Plus(Plus(Plus(Plus(s.b, t, 7, 3), t, 6, 2), t, 5, 1), t, 4, 0),
          Plus(Plus(Plus(s.c, t, 10, 3), t, 9, 2), t, 8, 1))
  }

  const GOLDEN: bv32 := 0x9e3779b9

  function AfterRounds(k: Bytes, initval: bv32): State {
    Rounds(State(GOLDEN, GOLDEN, initval), k)
  }

  /** What happens to the state behind the last block of twelve. */
  function Closing(s: State, t: Bytes, length: bv32): State
    requires |t| < 12
  {
    Mix(AddRest(State(s.a, s.b, Add(s.c, length)), t))
  }

  /** The words a, b, c when the hash is done; c is the hash. */
  function FinalState(k: Bytes, initval: bv32): State
    requires |k| < 0x1_0000_0000
  {
    Closing(AfterRounds(k, initval), Rest(k), Length(|k|))
  }

  /** The macro, which updates the three words one after the other. */
  method MixWords(s: State) returns (s': State)
    ensures s' == Mix(s)
  {
    hide Xor, Sub, Shr13, Shl8, Shr12, Shl16, Shr5, Shr3, Shl10, Shr15;
    var a, b, c := s.a, s.b, s.c;
    a := Sub(a, b); a := Sub(a, c); a := Xor(a, Shr13(c));
    b := Sub(b, c); b := Sub(b, a); b := Xor(b, Shl8(a));
    c := Sub(c, a); c := Sub(c, b); c := Xor(c, Shr13(b));
    assert State(a, b, c) == MixA(s);
    a := Sub(a, b); a := Sub(a, c); a := Xor(a, Shr12(c));
    b := Sub(b, c); b := Sub(b, a); b := Xor(b, Shl16(a));
    c := Sub(c, a); c := Sub(c, b); c := Xor(c, Shr5(b));
    assert State(a, b, c) == MixB(MixA(s));
    a := Sub(a, b); a := Sub(a, c); a := Xor(a, Shr3(c));
    b := Sub(b, c); b := Sub(b, a); b := Xor(b, Shl10(a));
    c := Sub(c, a); c := Sub(c, b); c := Xor(c, Shr15(b));
    s' := State(a, b, c);
  }

  /** The switch whose cases all fall through. */
  method RestWords(s: State, t: Bytes) returns (s': State)
    requires |t| < 12
    ensures s' == AddRest(s, t)
  {
    hide Add, Extend, Shl8, Shl16, Shl24;
    var a, b, c, len := s.a, s.b, s.c, |t|;
    if len >= 11 { c := Add(c, Shl24(Extend(t[10]))); }
    if len >= 10 { c := Add(c, Shl16(Extend(t[9]))); }
    if len >= 9 { c := Add(c, Shl8(Extend(t[8]))); }
    if len >= 8 { b := Add(b, Shl24(Extend(t[7]))); }
    if len >= 7 { b := Add(b, Shl16(Extend(t[6]))); }
    if len >= 6 { b := Add(b, Shl8(Extend(t[5]))); }
    if len >= 5 { b := Add(b, Extend(t[4])); }
    if len >= 4 { a := Add(a, Shl24(Extend(t[3]))); }
    if len >= 3 { a := Add(a, Shl16(Extend(t[2]))); }
    if len >= 2 { a := Add(a, Shl8(Extend(t[1]))); }
    if len >= 1 { a := Add(a, Extend(t[0])); }
    s' := State(a, b, c);
  }

  method DoobsHash(key: Bytes, initval: bv32) returns (hash: bv32)
    requires |key| < 0x1_0000_0000
    ensures hash == FinalState(key, initval).c
  {
    hide Mix, Chars, AddRest, Add, Length;
    var s := State(GOLDEN, GOLDEN, initval);
    var k, len := 0, |key|;
    assert key[0..] == key;
    while len >= 12
      invariant 0 <= k && 0 <= len && k + len == |key| && k % 12 == 0
      invariant Rounds(s, key[k..]) == AfterRounds(key, initval)
    {
      var block := key[k..k + 12];
      assert key[k..][..12] == block && key[k..][12..] == key[k + 12..];
      s := State(Add(s.a, Chars(block[..4])), Add(s.b, Chars(block[4..8])), Add(s.c, Chars(block[8..])));
      s := MixWords(s);
      k := k + 12;
      len := len - 12;
    }
    RestIsLast(key, k);
    s := State(s.a, s.b, Add(s.c, Length(|key|)));
    s := RestWords(s, key[k..]);
    s := MixWords(s);
    hash := s.c;
  }

  lemma RestIsLast(key: Bytes, k: nat)
    requires k <= |key| < k + 12 && k % 12 == 0
    ensures Rest(key) == key[k..] && forall s :: Rounds(s, key[k..]) == s
  {
  }

  // ----- doobs_hash keeps differences -----

  function Low(w: bv32): bv8 { (w & 0xff) as bv8 }

  function Byte1(w: bv32, e0: bv32): bv8 { (((w - e0) >> 8) & 0xff) as bv8 }

  function Byte2(w: bv32, e0: bv32, e1: bv32): bv8 { (((w - e0 - (e1 << 8)) >> 16) & 0xff) as bv8 }

  function Byte3(w: bv32, e0: bv32, e1: bv32, e2: bv32): bv8 {
    (((w - e0 - (e1 << 8) - (e2 << 16)) >> 24) & 0xff) as bv8
  }

  lemma LowOfExtend(c: bv8)
    ensures Low(Extend(c)) == c
  {
  }

  lemma LowOfRaw(e0: bv32, e1: bv32, e2: bv32, e3: bv32)
    ensures Low(e0 + (e1 << 8) + (e2 << 16) + (e3 << 24)) == Low(e0)
  {
  }

  lemma LowOfSum(e0: bv32, e1: bv32, e2: bv32, e3: bv32)
    ensures Low(Sum4(e0, e1, e2, e3)) == Low(e0)
  {
    hide Low, Byte1, Byte2, Byte3;
    LowOfRaw(e0, e1, e2, e3);
  }

  lemma Byte1OfRaw(e0: bv32, e1: bv32, e2: bv32, e3: bv32)
    ensures Byte1(e0 + (e1 << 8) + (e2 << 16) + (e3 << 24), e0) == Low(e1)
  {
  }

  lemma Byte1OfSum(e0: bv32, e1: bv32, e2: bv32, e3: bv32)
    ensures Byte1(Sum4(e0, e1, e2, e3), e0) == Low(e1)
  {
    hide Low, Byte1, Byte2, Byte3;
    Byte1OfRaw(e0, e1, e2, e3);
  }

  lemma Byte2OfRaw(e0: bv32, e1: bv32, e2: bv32, e3: bv32)
    ensures Byte2(e0 + (e1 << 8) + (e2 << 16) + (e3 << 24), e0, e1) == Low(e2)
  {
  }

  lemma Byte2OfSum(e0: bv32, e1: bv32, e2: bv32, e3: bv32)
    ensures Byte2(Sum4(e0, e1, e2, e3), e0, e1) == Low(e2)
  {
    hide Low, Byte1, Byte2, Byte3;
    Byte2OfRaw(e0, e1, e2, e3);
  }

  lemma Byte3OfRaw(e0: bv32, e1: bv32, e2: bv32, e3: bv32)
    ensures Byte3(e0 + (e1 << 8) + (e2 << 16) + (e3 << 24), e0, e1, e2) == Low(e3)
  {
  }

  lemma Byte3OfSum(e0: bv32, e1: bv32, e2: bv32, e3: bv32)
    ensures Byte3(Sum4(e0, e1, e2, e3), e0, e1, e2) == Low(e3)
  {
    hide Low, Byte1, Byte2, Byte3;
    Byte3OfRaw(e0, e1, e2, e3);
  }

  /** The sum of sign-extended chars still determines them, from the lowest to the highest. */
  lemma CharsDetermine(b: Bytes)
    requires |b| == 4
    ensures var w := Chars(b);
            && b[0] == Low(w) && b[1] == Byte1(w, Extend(b[0])) && b[2] == Byte2(w, Extend(b[0]), Extend(b[1]))
            && b[3] == Byte3(w, Extend(b[0]), Extend(b[1]), Extend(b[2]))
  {
    hide Low, Byte1, Byte2, Byte3, Extend, Sum4;
    var e0, e1, e2, e3 := Extend(b[0]), Extend(b[1]), Extend(b[2]), Extend(b[3]);
    LowOfSum(e0, e1, e2, e3);
    Byte1OfSum(e0, e1, e2, e3);
    Byte2OfSum(e0, e1, e2, e3);
    Byte3OfSum(e0, e1, e2, e3);
    LowOfExtend(b[0]);
    LowOfExtend(b[1]);
    LowOfExtend(b[2]);
    LowOfExtend(b[3]);
  }

  lemma CharsInjective(x: Bytes, y: Bytes)
    requires |x| == |y| == 4 && Chars(x) == Chars(y)
    ensures x == y
  {
    hide Low, Byte1, Byte2, Byte3, Extend, Chars;
    CharsDetermine(x);
    CharsDetermine(y);
  }

  lemma AddInjective(x: bv32, y: bv32, z: bv32)
    ensures Add(x, z) == Add(y, z) ==> x == y
    ensures Add(z, x) == Add(z, y) ==> x == y
  {
    hide Add, Sub;
    AddSub(x, z);
    AddSub(y, z);
    AddCommutes(x, z);
    AddCommutes(y, z);
  }

  lemma AddCommutes(x: bv32, y: bv32)
    ensures Add(x, y) == Add(y, x)
  {
  }

  lemma MixInjective(s: State, t: State)
    requires Mix(s) == Mix(t)
    ensures s == t
  {
    hide Mix, Unmix;
    MixBijective(s);
    MixBijective(t);
  }

  lemma AddBlockInjective(s: State, t: State, x: Bytes, y: Bytes)
    requires |x| == |y| == 12
    ensures AddBlock(s, x) == AddBlock(t, x) ==> s == t
    ensures AddBlock(s, x) == AddBlock(s, y) ==> x == y
  {
    hide Add, Chars;
    AddInjective(s.a, t.a, Chars(x[..4]));
    AddInjective(s.b, t.b, Chars(x[4..8]));
    AddInjective(s.c, t.c, Chars(x[8..]));
    if AddBlock(s, x) == AddBlock(s, y) {
      AddInjective(Chars(x[..4]), Chars(y[..4]), s.a);
      AddInjective(Chars(x[4..8]), Chars(y[4..8]), s.b);
      AddInjective(Chars(x[8..]), Chars(y[8..]), s.c);
      CharsInjective(x[..4], y[..4]);
      CharsInjective(x[4..8], y[4..8]);
      CharsInjective(x[8..], y[8..]);
      assert x == x[..4] + x[4..8] + x[8..] && y == y[..4] + y[4..8] + y[8..];
    }
  }

  lemma {:induction false} RoundsInjective(s: State, t: State, k: Bytes)
    requires Rounds(s, k) == Rounds(t, k)
    ensures s == t
    decreases |k|
  {
    hide Mix, AddBlock;
    if |k| >= 12 {
      RoundsInjective(Mix(AddBlock(s, k[..12])), Mix(AddBlock(t, k[..12])), k[12..]);
      MixInjective(AddBlock(s, k[..12]), AddBlock(t, k[..12]));
      AddBlockInjective(s, t, k[..12], k[..12]);
    }
  }

  lemma PlusInjective(x: bv32, y: bv32, t: Bytes, i: nat, place: nat)
    requires Plus(x, t, i, place) == Plus(y, t, i, place)
    ensures x == y
  {
    hide Add, Shl8, Shl16, Shl24, Extend;
    if i < |t| {
      var e := Extend(t[i]);
      AddInjective(x, y, if place == 0 then e else if place == 1 then Shl8(e) else if place == 2 then Shl16(e) else Shl24(e));
    }
  }

  lemma ThreePlus(x: bv32, y: bv32, t: Bytes, i: nat)
    requires Plus(Plus(Plus(x, t, i + 2, 3), t, i + 1, 2), t, i, 1) == Plus(Plus(Plus(y, t, i + 2, 3), t, i + 1, 2), t, i, 1)
    ensures x == y
  {
    hide Plus;
    PlusInjective(Plus(Plus(x, t, i + 2, 3), t, i + 1, 2), Plus(Plus(y, t, i + 2, 3), t, i + 1, 2), t, i, 1);
    PlusInjective(Plus(x, t, i + 2, 3), Plus(y, t, i + 2, 3), t, i + 1, 2);
    PlusInjective(x, y, t, i + 2, 3);
  }

  lemma ClosingInjective(s: State, u: State, t: Bytes, length: bv32)
    requires |t| < 12 && Closing(s, t, length) == Closing(u, t, length)
    ensures s == u
  {
    hide Plus, Add, Mix;
    var x, y := State(s.a, s.b, Add(s.c, length)), State(u.a, u.b, Add(u.c, length));
    MixInjective(AddRest(x, t), AddRest(y, t));
    PlusInjective(Plus(Plus(Plus(x.a, t, 3, 3), t, 2, 2), t, 1, 1), Plus(Plus(Plus(y.a, t, 3, 3), t, 2, 2), t, 1, 1), t, 0, 0);
    PlusInjective(Plus(Plus(Plus(x.b, t, 7, 3), t, 6, 2), t, 5, 1), Plus(Plus(Plus(y.b, t, 7, 3), t, 6, 2), t, 5, 1), t, 4, 0);
    ThreePlus(x.a, y.a, t, 1);
    ThreePlus(x.b, y.b, t, 5);
    ThreePlus(x.c, y.c, t, 8);
    AddInjective(s.c, u.c, length);
  }

  lemma {:induction false} RoundsSplit(s: State, p: Bytes, k: Bytes)
    requires |p| % 12 == 0
    ensures Rounds(s, p + k) == Rounds(Rounds(s, p), k)
    decreases |p|
  {
    hide Mix, AddBlock;
    if p == [] {
      assert p + k == k;
    } else {
      assert (p + k)[..12] == p[..12] && (p + k)[12..] == p[12..] + k;
      RoundsSplit(Mix(AddBlock(s, p[..12])), p[12..], k);
    }
  }

  lemma RoundThenRest(s: State, p: Bytes, x: Bytes, k: Bytes)
    requires |p| % 12 == 0 && |x| == 12
    ensures Rounds(s, p + x + k) == Rounds(Mix(AddBlock(Rounds(s, p), x)), k)
  {
    hide Mix, AddBlock;
    assert p + x + k == p + (x + k);
    RoundsSplit(s, p, x + k);
    assert (x + k)[..12] == x && (x + k)[12..] == k;
  }

  lemma RestOf(p: Bytes, k: Bytes)
    requires |p| % 12 == 0
    ensures Rest(p + k) == Rest(k)
  {
    assert |p + k| % 12 == |k| % 12;
  }

  /** Keys of one length that differ inside one block of twelve leave different words a, b, c. */
  lemma DoobsSeparatesBlocks(p: Bytes, x: Bytes, y: Bytes, k: Bytes, initval: bv32)
    requires |p| % 12 == 0 && |x| == |y| == 12 && x != y && |p| + 12 + |k| < 0x1_0000_0000
    ensures FinalState(p + x + k, initval) != FinalState(p + y + k, initval)
  {
    hide Mix, AddBlock, Closing, Length;
    var s0 := State(GOLDEN, GOLDEN, initval);
    RoundThenRest(s0, p, x, k);
    RoundThenRest(s0, p, y, k);
    RestOf(p + x, k);
    RestOf(p + y, k);
    var s := Rounds(s0, p);
    var sx, sy := Mix(AddBlock(s, x)), Mix(AddBlock(s, y));
    if FinalState(p + x + k, initval) == FinalState(p + y + k, initval) {
      ClosingInjective(Rounds(sx, k), Rounds(sy, k), Rest(k), Length(|p + x + k|));
      RoundsInjective(sx, sy, k);
      MixInjective(AddBlock(s, x), AddBlock(s, y));
      AddBlockInjective(s, s, x, y);
    }
  }

  // ----- The last eleven bytes -----

  /** What byte i contributes before it is shifted; nothing behind the end. */
  function Term(t: Bytes, i: nat): bv32 {
    if i < |t| then Extend(t[i]) else 0
  }

  lemma NothingAdded(x: bv32)
    ensures Add(x, 0) == x && Shl8(0) == 0 && Shl16(0) == 0 && Shl24(0) == 0
  {
  }

  lemma PlusTerm(x: bv32, t: Bytes, i: nat, place: nat)
    ensures Plus(x, t, i, place) ==
            Add(x, if place == 0 then Term(t, i) else if place == 1 then Shl8(Term(t, i))
                   else if place == 2 then Shl16(Term(t, i)) else Shl24(Term(t, i)))
  {
    NothingAdded(x);
    hide Add, Shl8, Shl16, Shl24, Extend;
  }

  function LowSum(e0: bv32, e1: bv32): bv32 { e0 + (e1 << 8) }

  function Sum3(e0: bv32, e1: bv32, e2: bv32): bv32 { e0 + (e1 << 8) + (e2 << 16) }

  lemma AddIs(x: bv32, y: bv32)
    ensures Add(x, y) == x + y
  {
  }

  lemma AssociatesRaw(x: bv32, y: bv32, z: bv32)
    ensures Add(x + y, z) == Add(x, y + z)
  {
  }

  lemma AddAssociates(x: bv32, y: bv32, z: bv32)
    ensures Add(Add(x, y), z) == Add(x, Add(y, z))
  {
    hide Add;
    AddIs(x, y);
    AddIs(y, z);
    AssociatesRaw(x, y, z);
  }

  lemma Sum4Raw(e0: bv32, e1: bv32, e2: bv32, e3: bv32)
    ensures Add(e0 + (e1 << 8) + (e2 << 16), e3 << 24) == e0 + (e1 << 8) + (e2 << 16) + (e3 << 24)
  {
  }

  lemma Sum4Once(e0: bv32, e1: bv32, e2: bv32, e3: bv32)
    ensures Add(Sum3(e0, e1, e2), Shl24(e3)) == Sum4(e0, e1, e2, e3)
  {
    hide Add;
    Sum4Raw(e0, e1, e2, e3);
  }

  lemma Sum3Raw(e0: bv32, e1: bv32, e2: bv32)
    ensures Add(e0 + (e1 << 8), e2 << 16) == e0 + (e1 << 8) + (e2 << 16)
  {
  }

  lemma Sum3Once(e0: bv32, e1: bv32, e2: bv32)
    ensures Add(LowSum(e0, e1), Shl16(e2)) == Sum3(e0, e1, e2)
  {
    hide Add;
    Sum3Raw(e0, e1, e2);
  }

  lemma LowRaw(e0: bv32, e1: bv32)
    ensures Add(e0, e1 << 8) == e0 + (e1 << 8)
  {
  }

  lemma LowOnce(e0: bv32, e1: bv32)
    ensures Add(e0, Shl8(e1)) == LowSum(e0, e1)
  {
    hide Add;
    LowRaw(e0, e1);
  }

  lemma SumOfAdds(e0: bv32, e1: bv32, e2: bv32, e3: bv32)
    ensures Sum4(e0, e1, e2, e3) == Add(Add(Add(e0, Shl8(e1)), Shl16(e2)), Shl24(e3))
  {
    hide Add, Shl8, Shl16, Shl24, LowSum, Sum3, Sum4;
    Sum4Once(e0, e1, e2, e3);
    Sum3Once(e0, e1, e2);
    LowOnce(e0, e1);
  }

  lemma AddBackwards(x: bv32, a: bv32, b: bv32, c: bv32, d: bv32)
    ensures Add(Add(Add(Add(x, d), c), b), a) == Add(x, Add(Add(Add(a, b), c), d))
  {
    hide Add;
    AddAssociates(x, d, c);
    AddAssociates(x, Add(d, c), b);
    AddAssociates(x, Add(Add(d, c), b), a);
    AddCommutes(Add(Add(d, c), b), a);
    AddCommutes(Add(d, c), b);
    AddCommutes(d, c);
    AddAssociates(a, b, Add(c, d));
    AddAssociates(Add(a, b), c, d);
  }

  lemma SumTogether(x: bv32, e0: bv32, e1: bv32, e2: bv32, e3: bv32)
    ensures Add(Add(Add(Add(x, Shl24(e3)), Shl16(e2)), Shl8(e1)), e0) == Add(x, Sum4(e0, e1, e2, e3))
  {
    hide Add, Shl8, Shl16, Shl24, Sum4;
    SumOfAdds(e0, e1, e2, e3);
    AddBackwards(x, e0, Shl8(e1), Shl16(e2), Shl24(e3));
  }

  /** The four cases of the switch that add to one word. */
  lemma FourPlus(x: bv32, t: Bytes, i: nat)
    ensures Plus(Plus(Plus(Plus(x, t, i + 3, 3), t, i + 2, 2), t, i + 1, 1), t, i, 0)
            == Add(x, Sum4(Term(t, i), Term(t, i + 1), Term(t, i + 2), Term(t, i + 3)))
  {
    hide Plus, Add, Shl8, Shl16, Shl24, Sum4, Term;
    var x3 := Plus(x, t, i + 3, 3);
    var x2 := Plus(x3, t, i + 2, 2);
    var x1 := Plus(x2, t, i + 1, 1);
    PlusTerm(x, t, i + 3, 3);
    PlusTerm(x3, t, i + 2, 2);
    PlusTerm(x2, t, i + 1, 1);
    PlusTerm(x1, t, i, 0);
    SumTogether(x, Term(t, i), Term(t, i + 1), Term(t, i + 2), Term(t, i + 3));
  }

  lemma ThreePlusSum(x: bv32, t: Bytes, i: nat)
    ensures Plus(Plus(Plus(x, t, i + 2, 3), t, i + 1, 2), t, i, 1)
            == Add(x, Sum4(0, Term(t, i), Term(t, i + 1), Term(t, i + 2)))
  {
    hide Plus, Add, Shl8, Shl16, Shl24, Sum4, Term;
    var x2 := Plus(x, t, i + 2, 3);
    var x1 := Plus(x2, t, i + 1, 2);
    PlusTerm(x, t, i + 2, 3);
    PlusTerm(x2, t, i + 1, 2);
    PlusTerm(x1, t, i, 1);
    NothingAdded(Plus(x1, t, i, 1));
    SumTogether(x, 0, Term(t, i), Term(t, i + 1), Term(t, i + 2));
  }

  lemma TermsAgree(x: Bytes, y: Bytes, i: nat)
    requires |x| == |y| && Low(Term(x, i)) == Low(Term(y, i))
    ensures Term(x, i) == Term(y, i) && (i < |x| ==> x[i] == y[i])
  {
    hide Low, Extend;
    if i < |x| {
      LowOfExtend(x[i]);
      LowOfExtend(y[i]);
    }
  }

  /** The sum determines its terms, from the lowest to the highest, when the first ones agree. */
  lemma SumDetermines(x: Bytes, y: Bytes, i: nat, e0: bv32)
    requires |x| == |y|
    requires Sum4(e0, Term(x, i), Term(x, i + 1), Term(x, i + 2)) == Sum4(e0, Term(y, i), Term(y, i + 1), Term(y, i + 2))
    ensures forall j :: i <= j < i + 3 && j < |x| ==> x[j] == y[j]
  {
    hide Low, Byte1, Byte2, Byte3, Sum4, Term;
    Byte1OfSum(e0, Term(x, i), Term(x, i + 1), Term(x, i + 2));
    Byte1OfSum(e0, Term(y, i), Term(y, i + 1), Term(y, i + 2));
    TermsAgree(x, y, i);
    Byte2OfSum(e0, Term(x, i), Term(x, i + 1), Term(x, i + 2));
    Byte2OfSum(e0, Term(y, i), Term(y, i + 1), Term(y, i + 2));
    TermsAgree(x, y, i + 1);
    Byte3OfSum(e0, Term(x, i), Term(x, i + 1), Term(x, i + 2));
    Byte3OfSum(e0, Term(y, i), Term(y, i + 1), Term(y, i + 2));
    TermsAgree(x, y, i + 2);
  }

  lemma FourDetermine(x: Bytes, y: Bytes, i: nat)
    requires |x| == |y|
    requires Sum4(Term(x, i), Term(x, i + 1), Term(x, i + 2), Term(x, i + 3))
             == Sum4(Term(y, i), Term(y, i + 1), Term(y, i + 2), Term(y, i + 3))
    ensures forall j :: i <= j < i + 4 && j < |x| ==> x[j] == y[j]
  {
    hide Low, Sum4, Term;
    LowOfSum(Term(x, i), Term(x, i + 1), Term(x, i + 2), Term(x, i + 3));
    LowOfSum(Term(y, i), Term(y, i + 1), Term(y, i + 2), Term(y, i + 3));
    TermsAgree(x, y, i);
    SumDetermines(x, y, i + 1, Term(x, i));
  }

  lemma AddRestInjective(s: State, x: Bytes, y: Bytes)
    requires |x| == |y| < 12 && AddRest(s, x) == AddRest(s, y)
    ensures x == y
  {
    hide Plus, Add, Sum4, Term;
    FourPlus(s.a, x, 0);
    FourPlus(s.a, y, 0);
    FourPlus(s.b, x, 4);
    FourPlus(s.b, y, 4);
    ThreePlusSum(s.c, x, 8);
    ThreePlusSum(s.c, y, 8);
    AddInjective(Sum4(Term(x, 0), Term(x, 1), Term(x, 2), Term(x, 3)), Sum4(Term(y, 0), Term(y, 1), Term(y, 2), Term(y, 3)), s.a);
    AddInjective(Sum4(Term(x, 4), Term(x, 5), Term(x, 6), Term(x, 7)), Sum4(Term(y, 4), Term(y, 5), Term(y, 6), Term(y, 7)), s.b);
    AddInjective(Sum4(0, Term(x, 8), Term(x, 9), Term(x, 10)), Sum4(0, Term(y, 8), Term(y, 9), Term(y, 10)), s.c);
    FourDetermine(x, y, 0);
    FourDetermine(x, y, 4);
    SumDetermines(x, y, 8, 0);
  }

  /** The same for keys that differ only behind the last block of twelve. */
  lemma DoobsSeparatesTails(p: Bytes, x: Bytes, y: Bytes, initval: bv32)
    requires |p| % 12 == 0 && |x| == |y| < 12 && x != y && |p| + |x| < 0x1_0000_0000
    ensures FinalState(p + x, initval) != FinalState(p + y, initval)
  {
    hide Mix, AddBlock, AddRest, Length, Add;
    var s0 := State(GOLDEN, GOLDEN, initval);
    RoundsSplit(s0, p, x);
    RoundsSplit(s0, p, y);
    RestOf(p, x);
    RestOf(p, y);
    assert Rest(x) == x && Rest(y) == y;
    var s, n := Rounds(s0, p), Length(|p + x|);
    if FinalState(p + x, initval) == FinalState(p + y, initval) {
      var u := State(s.a, s.b, Add(s.c, n));
      MixInjective(AddRest(u, x), AddRest(u, y));
      AddRestInjective(u, x, y);
    }
  }
}

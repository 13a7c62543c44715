/**
 The block transform of MD5 (src/base3/md5.cc), sixty-four unrolled steps, against
 the regular description in section 3.4 of RFC 1321.
 */
module Md5Rounds {

  datatype Registers = Registers(a: bv32, b: bv32, c: bv32, d: bv32)

  // ----- Section 3.4 of RFC 1321 -----

  function F(x: bv32, y: bv32, z: bv32): bv32 { (x & y) | (!x & z) }
  function G(x: bv32, y: bv32, z: bv32): bv32 { (x & z) | (y & !z) }
  function H(x: bv32, y: bv32, z: bv32): bv32 { x ^ y ^ z }
  function I(x: bv32, y: bv32, z: bv32): bv32 { y ^ (x | !z) }

  /** The table T[1..64] of the standard. */
  function T(round: nat, j: nat): bv32
    requires round < 4 && j < 16
  {
    match 16 * round + j
    case 0 => 0xd76aa478 case 1 => 0xe8c7b756 case 2 => 0x242070db case 3 => 0xc1bdceee
    case 4 => 0xf57c0faf case 5 => 0x4787c62a case 6 => 0xa8304613 case 7 => 0xfd469501
    case 8 => 0x698098d8 case 9 => 0x8b44f7af case 10 => 0xffff5bb1 case 11 => 0x895cd7be
    case 12 => 0x6b901122 case 13 => 0xfd987193 case 14 => 0xa679438e case 15 => 0x49b40821
    case 16 => 0xf61e2562 case 17 => 0xc040b340 case 18 => 0x265e5a51 case 19 => 0xe9b6c7aa
    case 20 => 0xd62f105d case 21 => 0x02441453 case 22 => 0xd8a1e681 case 23 => 0xe7d3fbc8
    case 24 => 0x21e1cde6 case 25 => 0xc33707d6 case 26 => 0xf4d50d87 case 27 => 0x455a14ed
    case 28 => 0xa9e3e905 case 29 => 0xfcefa3f8 case 30 => 0x676f02d9 case 31 => 0x8d2a4c8a
    case 32 => 0xfffa3942 case 33 => 0x8771f681 case 34 => 0x6d9d6122 case 35 => 0xfde5380c
    case 36 => 0xa4beea44 case 37 => 0x4bdecfa9 case 38 => 0xf6bb4b60 case 39 => 0xbebfbc70
    case 40 => 0x289b7ec6 case 41 => 0xeaa127fa case 42 => 0xd4ef3085 case 43 => 0x04881d05
    case 44 => 0xd9d4d039 case 45 => 0xe6db99e5 case 46 => 0x1fa27cf8 case 47 => 0xc4ac5665
    case 48 => 0xf4292244 case 49 => 0x432aff97 case 50 => 0xab9423a7 case 51 => 0xfc93a039
    case 52 => 0x655b59c3 case 53 => 0x8f0ccc92 case 54 => 0xffeff47d case 55 => 0x85845dd1
    case 56 => 0x6fa87e4f case 57 => 0xfe2ce6e0 case 58 => 0xa3014314 case 59 => 0x4e0811a1
    case 60 => 0xf7537e82 case 61 => 0xbd3af235 case 62 => 0x2ad7d2bb case _ => 0xeb86d391
  }

  function Shift(round: nat, j: nat): bv6
    requires round < 4 && j < 16
  {
    match (round, j % 4)
    case (0, 0) => 7 case (0, 1) => 12 case (0, 2) => 17 case (0, _) => 22
    case (1, 0) => 5 case (1, 1) => 9 case (1, 2) => 14 case (1, _) => 20
    case (2, 0) => 4 case (2, 1) => 11 case (2, 2) => 16 case (2, _) => 23
    case (_, 0) => 6 case (_, 1) => 10 case (_, 2) => 15 case (_, _) => 21
  }

  /** Which message word operation j of a round uses. */
  function Index(round: nat, j: nat): nat
    requires round < 4
  {
    if round == 0 then j % 16
    else if round == 1 then (5 * j + 1) % 16
    else if round == 2 then (3 * j + 5) % 16
    else 7 * j % 16
  }

  function Mix(round: nat, x: bv32, y: bv32, z: bv32): bv32 {
    if round == 0 then F(x, y, z) else if round == 1 then G(x, y, z) else if round == 2 then H(x, y, z) else I(x, y, z)
  }

  function Add(x: bv32, y: bv32): bv32 { x + y }

  function RotateLeft(x: bv32, s: bv6): bv32
  {
    if 0 < s < 32 then (x << s) | (x >> (32 - s)) else x
  }

  /** a = b + ((a + Mix(b,c,d) + X[k] + T[i]) <<< s), and the registers change places. */
  function Operation(round: nat, j: nat, r: Registers, x: seq<bv32>): Registers
    requires round < 4 && j < 16 && |x| == 16
  {
    Registers(r.d,
              Add(r.b, RotateLeft(Add(r.a, Add(Mix(round, r.b, r.c, r.d), Add(x[Index(round, j)], T(round, j)))),
                                  Shift(round, j))),
              r.b, r.c)
  }

  function Operations(round: nat, n: nat, r: Registers, x: seq<bv32>): Registers
    requires round < 4 && n <= 16 && |x| == 16
  {
    if n == 0 then r else Operation(round, n - 1, Operations(round, n - 1, r, x), x)
  }

  function Compress(r: Registers, x: seq<bv32>): Registers
    requires |x| == 16
  {
    var r4 := Operations(3, |x|, Operations(2, |x|, Operations(1, |x|, Operations(0, |x|, r, x), x), x), x);
    Registers(Add(r.a, r4.a), Add(r.b, r4.b), Add(r.c, r4.c), Add(r.d, r4.d))
  }

  // ----- The macros of the source -----

  function F1(x: bv32, y: bv32, z: bv32): bv32 { z ^ (x & (y ^ z)) }
  function F2(x: bv32, y: bv32, z: bv32): bv32 { F1(z, x, y) }
  function F3(x: bv32, y: bv32, z: bv32): bv32 { x ^ y ^ z }
  function F4(x: bv32, y: bv32, z: bv32): bv32 { y ^ (x | !z) }

  lemma Choose(x: bv32, y: bv32, z: bv32)
    ensures z ^ (x & (y ^ z)) == (x & y) | (!x & z)
  {
  }

  lemma F1IsF(x: bv32, y: bv32, z: bv32)
    ensures F1(x, y, z) == F(x, y, z)
  {
    Choose(x, y, z);
  }

  lemma F2IsG(x: bv32, y: bv32, z: bv32)
    ensures F2(x, y, z) == G(x, y, z)
  {
    Choose(z, x, y);
    assert (z & x) | (!z & y) == (x & z) | (y & !z);
  }

  /** MD5STEP, the value of the macro argument f(x, y, z) being passed in. */
  function Md5Step(f: bv32, w: bv32, x: bv32, data: bv32, s: bv6): bv32
  {
    Add(RotateLeft(Add(w, Add(f, data)), s), x)
  }

  // One method for each group of sixteen calls in MD5Transform.

  lemma SumCommutes(a: bv32, b: bv32)
    ensures Add(a, b) == Add(b, a)
  {
  }

  /** One macro call is one operation of the standard, up to the order of the sums. */
  lemma StepIsOperation(r: Registers, m: bv32, x: bv32, t: bv32, s: bv6)
    ensures Md5Step(m, r.a, r.b, Add(x, t), s) == Add(r.b, RotateLeft(Add(r.a, Add(m, Add(x, t))), s))
  {
    hide Add, RotateLeft;
    SumCommutes(RotateLeft(Add(r.a, Add(m, Add(x, t))), s), r.b);
  }

  lemma StartRound(round: nat, r: Registers, x: seq<bv32>)
    requires round < 4 && |x| == 16
    ensures Operations(round, 0, r, x) == r
  {
  }

  lemma F3IsH(x: bv32, y: bv32, z: bv32)
    ensures F3(x, y, z) == H(x, y, z)
  {
  }

  lemma F4IsI(x: bv32, y: bv32, z: bv32)
    ensures F4(x, y, z) == I(x, y, z)
  {
  }

  /** Operation j of the round uses word k, constant t and shift s. */
  predicate Plan(round: nat, j: nat, k: nat, t: bv32, s: bv6) {
    round < 4 && j < 16 && Index(round, j) == k && T(round, j) == t && Shift(round, j) == s
  }

  lemma Advance(round: nat, j: nat, r0: Registers, r: Registers, x: seq<bv32>, f: bv32, k: nat, t: bv32, s: bv6)
    requires |x| == 16 && k < 16 && Plan(round, j, k, t, s)
    requires r == Operations(round, j, r0, x) && f == Mix(round, r.b, r.c, r.d)
    ensures Operations(round, j + 1, r0, x) == Registers(r.d, Md5Step(f, r.a, r.b, Add(x[k], t), s), r.b, r.c)
  {
    hide Add, RotateLeft, Md5Step, Mix, T, Shift;
    StepIsOperation(r, f, x[k], t, s);
  }

  lemma Plan1()
    ensures Plan(0, 0, 0, 0xd76aa478, 7) && Plan(0, 1, 1, 0xe8c7b756, 12)
    ensures Plan(0, 2, 2, 0x242070db, 17) && Plan(0, 3, 3, 0xc1bdceee, 22)
    ensures Plan(0, 4, 4, 0xf57c0faf, 7) && Plan(0, 5, 5, 0x4787c62a, 12)
    ensures Plan(0, 6, 6, 0xa8304613, 17) && Plan(0, 7, 7, 0xfd469501, 22)
    ensures Plan(0, 8, 8, 0x698098d8, 7) && Plan(0, 9, 9, 0x8b44f7af, 12)
    ensures Plan(0, 10, 10, 0xffff5bb1, 17) && Plan(0, 11, 11, 0x895cd7be, 22)
    ensures Plan(0, 12, 12, 0x6b901122, 7) && Plan(0, 13, 13, 0xfd987193, 12)
    ensures Plan(0, 14, 14, 0xa679438e, 17) && Plan(0, 15, 15, 0x49b40821, 22)
  {
  }

  lemma Plan2()
    ensures Plan(1, 0, 1, 0xf61e2562, 5) && Plan(1, 1, 6, 0xc040b340, 9)
    ensures Plan(1, 2, 11, 0x265e5a51, 14) && Plan(1, 3, 0, 0xe9b6c7aa, 20)
    ensures Plan(1, 4, 5, 0xd62f105d, 5) && Plan(1, 5, 10, 0x02441453, 9)
    ensures Plan(1, 6, 15, 0xd8a1e681, 14) && Plan(1, 7, 4, 0xe7d3fbc8, 20)
    ensures Plan(1, 8, 9, 0x21e1cde6, 5) && Plan(1, 9, 14, 0xc33707d6, 9)
    ensures Plan(1, 10, 3, 0xf4d50d87, 14) && Plan(1, 11, 8, 0x455a14ed, 20)
    ensures Plan(1, 12, 13, 0xa9e3e905, 5) && Plan(1, 13, 2, 0xfcefa3f8, 9)
    ensures Plan(1, 14, 7, 0x676f02d9, 14) && Plan(1, 15, 12, 0x8d2a4c8a, 20)
  {
  }

  lemma Plan3()
    ensures Plan(2, 0, 5, 0xfffa3942, 4) && Plan(2, 1, 8, 0x8771f681, 11)
    ensures Plan(2, 2, 11, 0x6d9d6122, 16) && Plan(2, 3, 14, 0xfde5380c, 23)
    ensures Plan(2, 4, 1, 0xa4beea44, 4) && Plan(2, 5, 4, 0x4bdecfa9, 11)
    ensures Plan(2, 6, 7, 0xf6bb4b60, 16) && Plan(2, 7, 10, 0xbebfbc70, 23)
    ensures Plan(2, 8, 13, 0x289b7ec6, 4) && Plan(2, 9, 0, 0xeaa127fa, 11)
    ensures Plan(2, 10, 3, 0xd4ef3085, 16) && Plan(2, 11, 6, 0x04881d05, 23)
    ensures Plan(2, 12, 9, 0xd9d4d039, 4) && Plan(2, 13, 12, 0xe6db99e5, 11)
    ensures Plan(2, 14, 15, 0x1fa27cf8, 16) && Plan(2, 15, 2, 0xc4ac5665, 23)
  {
  }

  lemma Plan4()
    ensures Plan(3, 0, 0, 0xf4292244, 6) && Plan(3, 1, 7, 0x432aff97, 10)
    ensures Plan(3, 2, 14, 0xab9423a7, 15) && Plan(3, 3, 5, 0xfc93a039, 21)
    ensures Plan(3, 4, 12, 0x655b59c3, 6) && Plan(3, 5, 3, 0x8f0ccc92, 10)
    ensures Plan(3, 6, 10, 0xffeff47d, 15) && Plan(3, 7, 1, 0x85845dd1, 21)
    ensures Plan(3, 8, 8, 0x6fa87e4f, 6) && Plan(3, 9, 15, 0xfe2ce6e0, 10)
    ensures Plan(3, 10, 6, 0xa3014314, 15) && Plan(3, 11, 13, 0x4e0811a1, 21)
    ensures Plan(3, 12, 4, 0xf7537e82, 6) && Plan(3, 13, 11, 0xbd3af235, 10)
    ensures Plan(3, 14, 2, 0x2ad7d2bb, 15) && Plan(3, 15, 9, 0xeb86d391, 21)
  {
  }

  lemma Mix1(x: bv32, y: bv32, z: bv32)
    ensures F1(x, y, z) == Mix(0, x, y, z)
  {
    hide F, G, H, I, F1;
    F1IsF(x, y, z);
  }

  lemma Mix2(x: bv32, y: bv32, z: bv32)
    ensures F2(x, y, z) == Mix(1, x, y, z)
  {
    hide F, G, H, I, F2;
    F2IsG(x, y, z);
  }

  lemma Mix3(x: bv32, y: bv32, z: bv32)
    ensures F3(x, y, z) == Mix(2, x, y, z)
  {
    hide F, G, H, I, F3;
    F3IsH(x, y, z);
  }

  lemma Mix4(x: bv32, y: bv32, z: bv32)
    ensures F4(x, y, z) == Mix(3, x, y, z)
  {
    hide F, G, H, I, F4;
    F4IsI(x, y, z);
  }

  method Round1(a0: bv32, b0: bv32, c0: bv32, d0: bv32, x: seq<bv32>)
    returns (a: bv32, b: bv32, c: bv32, d: bv32)
    requires |x| == 16
    ensures Registers(a, b, c, d) == Operations(0, |x|, Registers(a0, b0, c0, d0), x)
  {
    hide *;
    ghost var r := Registers(a0, b0, c0, d0);
    a, b, c, d := a0, b0, c0, d0;
    StartRound(0, r, x);
    Plan1();
    Mix1(b, c, d);
    Advance(0, 0, r, Registers(a, b, c, d), x, F1(b, c, d), 0, 0xd76aa478, 7);
    a := Md5Step(F1(b, c, d), a, b, Add(x[0], 0xd76aa478), 7);
    Mix1(a, b, c);
    Advance(0, 1, r, Registers(d, a, b, c), x, F1(a, b, c), 1, 0xe8c7b756, 12);
    d := Md5Step(F1(a, b, c), d, a, Add(x[1], 0xe8c7b756), 12);
    Mix1(d, a, b);
    Advance(0, 2, r, Registers(c, d, a, b), x, F1(d, a, b), 2, 0x242070db, 17);
    c := Md5Step(F1(d, a, b), c, d, Add(x[2], 0x242070db), 17);
    Mix1(c, d, a);
    Advance(0, 3, r, Registers(b, c, d, a), x, F1(c, d, a), 3, 0xc1bdceee, 22);
    b := Md5Step(F1(c, d, a), b, c, Add(x[3], 0xc1bdceee), 22);
    Mix1(b, c, d);
    Advance(0, 4, r, Registers(a, b, c, d), x, F1(b, c, d), 4, 0xf57c0faf, 7);
    a := Md5Step(F1(b, c, d), a, b, Add(x[4], 0xf57c0faf), 7);
    Mix1(a, b, c);
    Advance(0, 5, r, Registers(d, a, b, c), x, F1(a, b, c), 5, 0x4787c62a, 12);
    d := Md5Step(F1(a, b, c), d, a, Add(x[5], 0x4787c62a), 12);
    Mix1(d, a, b);
    Advance(0, 6, r, Registers(c, d, a, b), x, F1(d, a, b), 6, 0xa8304613, 17);
    c := Md5Step(F1(d, a, b), c, d, Add(x[6], 0xa8304613), 17);
    Mix1(c, d, a);
    Advance(0, 7, r, Registers(b, c, d, a), x, F1(c, d, a), 7, 0xfd469501, 22);
    b := Md5Step(F1(c, d, a), b, c, Add(x[7], 0xfd469501), 22);
    Mix1(b, c, d);
    Advance(0, 8, r, Registers(a, b, c, d), x, F1(b, c, d), 8, 0x698098d8, 7);
    a := Md5Step(F1(b, c, d), a, b, Add(x[8], 0x698098d8), 7);
    Mix1(a, b, c);
    Advance(0, 9, r, Registers(d, a, b, c), x, F1(a, b, c), 9, 0x8b44f7af, 12);
    d := Md5Step(F1(a, b, c), d, a, Add(x[9], 0x8b44f7af), 12);
    Mix1(d, a, b);
    Advance(0, 10, r, Registers(c, d, a, b), x, F1(d, a, b), 10, 0xffff5bb1, 17);
    c := Md5Step(F1(d, a, b), c, d, Add(x[10], 0xffff5bb1), 17);
    Mix1(c, d, a);
    Advance(0, 11, r, Registers(b, c, d, a), x, F1(c, d, a), 11, 0x895cd7be, 22);
    b := Md5Step(F1(c, d, a), b, c, Add(x[11], 0x895cd7be), 22);
    Mix1(b, c, d);
    Advance(0, 12, r, Registers(a, b, c, d), x, F1(b, c, d), 12, 0x6b901122, 7);
    a := Md5Step(F1(b, c, d), a, b, Add(x[12], 0x6b901122), 7);
    Mix1(a, b, c);
    Advance(0, 13, r, Registers(d, a, b, c), x, F1(a, b, c), 13, 0xfd987193, 12);
    d := Md5Step(F1(a, b, c), d, a, Add(x[13], 0xfd987193), 12);
    Mix1(d, a, b);
    Advance(0, 14, r, Registers(c, d, a, b), x, F1(d, a, b), 14, 0xa679438e, 17);
    c := Md5Step(F1(d, a, b), c, d, Add(x[14], 0xa679438e), 17);
    Mix1(c, d, a);
    Advance(0, 15, r, Registers(b, c, d, a), x, F1(c, d, a), 15, 0x49b40821, 22);
    b := Md5Step(F1(c, d, a), b, c, Add(x[15], 0x49b40821), 22);
  }

  method Round2(a0: bv32, b0: bv32, c0: bv32, d0: bv32, x: seq<bv32>)
    returns (a: bv32, b: bv32, c: bv32, d: bv32)
    requires |x| == 16
    ensures Registers(a, b, c, d) == Operations(1, |x|, Registers(a0, b0, c0, d0), x)
  {
    hide *;
    ghost var r := Registers(a0, b0, c0, d0);
    a, b, c, d := a0, b0, c0, d0;
    StartRound(1, r, x);
    Plan2();
    Mix2(b, c, d);
    Advance(1, 0, r, Registers(a, b, c, d), x, F2(b, c, d), 1, 0xf61e2562, 5);
    a := Md5Step(F2(b, c, d), a, b, Add(x[1], 0xf61e2562), 5);
    Mix2(a, b, c);
    Advance(1, 1, r, Registers(d, a, b, c), x, F2(a, b, c), 6, 0xc040b340, 9);
    d := Md5Step(F2(a, b, c), d, a, Add(x[6], 0xc040b340), 9);
    Mix2(d, a, b);
    Advance(1, 2, r, Registers(c, d, a, b), x, F2(d, a, b), 11, 0x265e5a51, 14);
    c := Md5Step(F2(d, a, b), c, d, Add(x[11], 0x265e5a51), 14);
    Mix2(c, d, a);
    Advance(1, 3, r, Registers(b, c, d, a), x, F2(c, d, a), 0, 0xe9b6c7aa, 20);
    b := Md5Step(F2(c, d, a), b, c, Add(x[0], 0xe9b6c7aa), 20);
    Mix2(b, c, d);
    Advance(1, 4, r, Registers(a, b, c, d), x, F2(b, c, d), 5, 0xd62f105d, 5);
    a := Md5Step(F2(b, c, d), a, b, Add(x[5], 0xd62f105d), 5);
    Mix2(a, b, c);
    Advance(1, 5, r, Registers(d, a, b, c), x, F2(a, b, c), 10, 0x02441453, 9);
    d := Md5Step(F2(a, b, c), d, a, Add(x[10], 0x02441453), 9);
    Mix2(d, a, b);
    Advance(1, 6, r, Registers(c, d, a, b), x, F2(d, a, b), 15, 0xd8a1e681, 14);
    c := Md5Step(F2(d, a, b), c, d, Add(x[15], 0xd8a1e681), 14);
    Mix2(c, d, a);
    Advance(1, 7, r, Registers(b, c, d, a), x, F2(c, d, a), 4, 0xe7d3fbc8, 20);
    b := Md5Step(F2(c, d, a), b, c, Add(x[4], 0xe7d3fbc8), 20);
    Mix2(b, c, d);
    Advance(1, 8, r, Registers(a, b, c, d), x, F2(b, c, d), 9, 0x21e1cde6, 5);
    a := Md5Step(F2(b, c, d), a, b, Add(x[9], 0x21e1cde6), 5);
    Mix2(a, b, c);
    Advance(1, 9, r, Registers(d, a, b, c), x, F2(a, b, c), 14, 0xc33707d6, 9);
    d := Md5Step(F2(a, b, c), d, a, Add(x[14], 0xc33707d6), 9);
    Mix2(d, a, b);
    Advance(1, 10, r, Registers(c, d, a, b), x, F2(d, a, b), 3, 0xf4d50d87, 14);
    c := Md5Step(F2(d, a, b), c, d, Add(x[3], 0xf4d50d87), 14);
    Mix2(c, d, a);
    Advance(1, 11, r, Registers(b, c, d, a), x, F2(c, d, a), 8, 0x455a14ed, 20);
    b := Md5Step(F2(c, d, a), b, c, Add(x[8], 0x455a14ed), 20);
    Mix2(b, c, d);
    Advance(1, 12, r, Registers(a, b, c, d), x, F2(b, c, d), 13, 0xa9e3e905, 5);
    a := Md5Step(F2(b, c, d), a, b, Add(x[13], 0xa9e3e905), 5);
    Mix2(a, b, c);
    Advance(1, 13, r, Registers(d, a, b, c), x, F2(a, b, c), 2, 0xfcefa3f8, 9);
    d := Md5Step(F2(a, b, c), d, a, Add(x[2], 0xfcefa3f8), 9);
    Mix2(d, a, b);
    Advance(1, 14, r, Registers(c, d, a, b), x, F2(d, a, b), 7, 0x676f02d9, 14);
    c := Md5Step(F2(d, a, b), c, d, Add(x[7], 0x676f02d9), 14);
    Mix2(c, d, a);
    Advance(1, 15, r, Registers(b, c, d, a), x, F2(c, d, a), 12, 0x8d2a4c8a, 20);
    b := Md5Step(F2(c, d, a), b, c, Add(x[12], 0x8d2a4c8a), 20);
  }

  method Round3(a0: bv32, b0: bv32, c0: bv32, d0: bv32, x: seq<bv32>)
    returns (a: bv32, b: bv32, c: bv32, d: bv32)
    requires |x| == 16
    ensures Registers(a, b, c, d) == Operations(2, |x|, Registers(a0, b0, c0, d0), x)
  {
    hide *;
    ghost var r := Registers(a0, b0, c0, d0);
    a, b, c, d := a0, b0, c0, d0;
    StartRound(2, r, x);
    Plan3();
    Mix3(b, c, d);
    Advance(2, 0, r, Registers(a, b, c, d), x, F3(b, c, d), 5, 0xfffa3942, 4);
    a := Md5Step(F3(b, c, d), a, b, Add(x[5], 0xfffa3942), 4);
    Mix3(a, b, c);
    Advance(2, 1, r, Registers(d, a, b, c), x, F3(a, b, c), 8, 0x8771f681, 11);
    d := Md5Step(F3(a, b, c), d, a, Add(x[8], 0x8771f681), 11);
    Mix3(d, a, b);
    Advance(2, 2, r, Registers(c, d, a, b), x, F3(d, a, b), 11, 0x6d9d6122, 16);
    c := Md5Step(F3(d, a, b), c, d, Add(x[11], 0x6d9d6122), 16);
    Mix3(c, d, a);
    Advance(2, 3, r, Registers(b, c, d, a), x, F3(c, d, a), 14, 0xfde5380c, 23);
    b := Md5Step(F3(c, d, a), b, c, Add(x[14], 0xfde5380c), 23);
    Mix3(b, c, d);
    Advance(2, 4, r, Registers(a, b, c, d), x, F3(b, c, d), 1, 0xa4beea44, 4);
    a := Md5Step(F3(b, c, d), a, b, Add(x[1], 0xa4beea44), 4);
    Mix3(a, b, c);
    Advance(2, 5, r, Registers(d, a, b, c), x, F3(a, b, c), 4, 0x4bdecfa9, 11);
    d := Md5Step(F3(a, b, c), d, a, Add(x[4], 0x4bdecfa9), 11);
    Mix3(d, a, b);
    Advance(2, 6, r, Registers(c, d, a, b), x, F3(d, a, b), 7, 0xf6bb4b60, 16);
    c := Md5Step(F3(d, a, b), c, d, Add(x[7], 0xf6bb4b60), 16);
    Mix3(c, d, a);
    Advance(2, 7, r, Registers(b, c, d, a), x, F3(c, d, a), 10, 0xbebfbc70, 23);
    b := Md5Step(F3(c, d, a), b, c, Add(x[10], 0xbebfbc70), 23);
    Mix3(b, c, d);
    Advance(2, 8, r, Registers(a, b, c, d), x, F3(b, c, d), 13, 0x289b7ec6, 4);
    a := Md5Step(F3(b, c, d), a, b, Add(x[13], 0x289b7ec6), 4);
    Mix3(a, b, c);
    Advance(2, 9, r, Registers(d, a, b, c), x, F3(a, b, c), 0, 0xeaa127fa, 11);
    d := Md5Step(F3(a, b, c), d, a, Add(x[0], 0xeaa127fa), 11);
    Mix3(d, a, b);
    Advance(2, 10, r, Registers(c, d, a, b), x, F3(d, a, b), 3, 0xd4ef3085, 16);
    c := Md5Step(F3(d, a, b), c, d, Add(x[3], 0xd4ef3085), 16);
    Mix3(c, d, a);
    Advance(2, 11, r, Registers(b, c, d, a), x, F3(c, d, a), 6, 0x04881d05, 23);
    b := Md5Step(F3(c, d, a), b, c, Add(x[6], 0x04881d05), 23);
    Mix3(b, c, d);
    Advance(2, 12, r, Registers(a, b, c, d), x, F3(b, c, d), 9, 0xd9d4d039, 4);
    a := Md5Step(F3(b, c, d), a, b, Add(x[9], 0xd9d4d039), 4);
    Mix3(a, b, c);
    Advance(2, 13, r, Registers(d, a, b, c), x, F3(a, b, c), 12, 0xe6db99e5, 11);
    d := Md5Step(F3(a, b, c), d, a, Add(x[12], 0xe6db99e5), 11);
    Mix3(d, a, b);
    Advance(2, 14, r, Registers(c, d, a, b), x, F3(d, a, b), 15, 0x1fa27cf8, 16);
    c := Md5Step(F3(d, a, b), c, d, Add(x[15], 0x1fa27cf8), 16);
    Mix3(c, d, a);
    Advance(2, 15, r, Registers(b, c, d, a), x, F3(c, d, a), 2, 0xc4ac5665, 23);
    b := Md5Step(F3(c, d, a), b, c, Add(x[2], 0xc4ac5665), 23);
  }

  method Round4(a0: bv32, b0: bv32, c0: bv32, d0: bv32, x: seq<bv32>)
    returns (a: bv32, b: bv32, c: bv32, d: bv32)
    requires |x| == 16
    ensures Registers(a, b, c, d) == Operations(3, |x|, Registers(a0, b0, c0, d0), x)
  {
    hide *;
    ghost var r := Registers(a0, b0, c0, d0);
    a, b, c, d := a0, b0, c0, d0;
    StartRound(3, r, x);
    Plan4();
    Mix4(b, c, d);
    Advance(3, 0, r, Registers(a, b, c, d), x, F4(b, c, d), 0, 0xf4292244, 6);
    a := Md5Step(F4(b, c, d), a, b, Add(x[0], 0xf4292244), 6);
    Mix4(a, b, c);
    Advance(3, 1, r, Registers(d, a, b, c), x, F4(a, b, c), 7, 0x432aff97, 10);
    d := Md5Step(F4(a, b, c), d, a, Add(x[7], 0x432aff97), 10);
    Mix4(d, a, b);
    Advance(3, 2, r, Registers(c, d, a, b), x, F4(d, a, b), 14, 0xab9423a7, 15);
    c := Md5Step(F4(d, a, b), c, d, Add(x[14], 0xab9423a7), 15);
    Mix4(c, d, a);
    Advance(3, 3, r, Registers(b, c, d, a), x, F4(c, d, a), 5, 0xfc93a039, 21);
    b := Md5Step(F4(c, d, a), b, c, Add(x[5], 0xfc93a039), 21);
    Mix4(b, c, d);
    Advance(3, 4, r, Registers(a, b, c, d), x, F4(b, c, d), 12, 0x655b59c3, 6);
    a := Md5Step(F4(b, c, d), a, b, Add(x[12], 0x655b59c3), 6);
    Mix4(a, b, c);
    Advance(3, 5, r, Registers(d, a, b, c), x, F4(a, b, c), 3, 0x8f0ccc92, 10);
    d := Md5Step(F4(a, b, c), d, a, Add(x[3], 0x8f0ccc92), 10);
    Mix4(d, a, b);
    Advance(3, 6, r, Registers(c, d, a, b), x, F4(d, a, b), 10, 0xffeff47d, 15);
    c := Md5Step(F4(d, a, b), c, d, Add(x[10], 0xffeff47d), 15);
    Mix4(c, d, a);
    Advance(3, 7, r, Registers(b, c, d, a), x, F4(c, d, a), 1, 0x85845dd1, 21);
    b := Md5Step(F4(c, d, a), b, c, Add(x[1], 0x85845dd1), 21);
    Mix4(b, c, d);
    Advance(3, 8, r, Registers(a, b, c, d), x, F4(b, c, d), 8, 0x6fa87e4f, 6);
    a := Md5Step(F4(b, c, d), a, b, Add(x[8], 0x6fa87e4f), 6);
    Mix4(a, b, c);
    Advance(3, 9, r, Registers(d, a, b, c), x, F4(a, b, c), 15, 0xfe2ce6e0, 10);
    d := Md5Step(F4(a, b, c), d, a, Add(x[15], 0xfe2ce6e0), 10);
    Mix4(d, a, b);
    Advance(3, 10, r, Registers(c, d, a, b), x, F4(d, a, b), 6, 0xa3014314, 15);
    c := Md5Step(F4(d, a, b), c, d, Add(x[6], 0xa3014314), 15);
    Mix4(c, d, a);
    Advance(3, 11, r, Registers(b, c, d, a), x, F4(c, d, a), 13, 0x4e0811a1, 21);
    b := Md5Step(F4(c, d, a), b, c, Add(x[13], 0x4e0811a1), 21);
    Mix4(b, c, d);
    Advance(3, 12, r, Registers(a, b, c, d), x, F4(b, c, d), 4, 0xf7537e82, 6);
    a := Md5Step(F4(b, c, d), a, b, Add(x[4], 0xf7537e82), 6);
    Mix4(a, b, c);
    Advance(3, 13, r, Registers(d, a, b, c), x, F4(a, b, c), 11, 0xbd3af235, 10);
    d := Md5Step(F4(a, b, c), d, a, Add(x[11], 0xbd3af235), 10);
    Mix4(d, a, b);
    Advance(3, 14, r, Registers(c, d, a, b), x, F4(d, a, b), 2, 0x2ad7d2bb, 15);
    c := Md5Step(F4(d, a, b), c, d, Add(x[2], 0x2ad7d2bb), 15);
    Mix4(c, d, a);
    Advance(3, 15, r, Registers(b, c, d, a), x, F4(c, d, a), 9, 0xeb86d391, 21);
    b := Md5Step(F4(c, d, a), b, c, Add(x[9], 0xeb86d391), 21);
  }

  method MD5Transform(buf: Registers, x: seq<bv32>) returns (buf': Registers)
    requires |x| == 16
    ensures buf' == Compress(buf, x)
  {
    hide Add, Operations;
    var a, b, c, d := buf.a, buf.b, buf.c, buf.d;
    a, b, c, d := Round1(a, b, c, d, x);
    a, b, c, d := Round2(a, b, c, d, x);
    a, b, c, d := Round3(a, b, c, d, x);
    a, b, c, d := Round4(a, b, c, d, x);
    buf' := Registers(Add(buf.a, a), Add(buf.b, b), Add(buf.c, c), Add(buf.d, d));
  }
}

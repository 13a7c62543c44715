/**
 Decimal printing and parsing of signed integers
 (src/base3/string_number_conversions.cc), for 32-bit and 64-bit types.
 */
module NumberConversions {

  type Text = seq<char>

  /** The two instantiations of the templates. */
  datatype Width = Int32 | Int64 {
    function Max(): int { if Int32? then 0x7fff_ffff else 0x7fff_ffff_ffff_ffff }
    function Min(): int { -Max() - 1 }
    function Modulus(): int { 2 * (Max() + 1) }
    function SizeOf(): nat { if Int32? then 4 else 8 }
    predicate InRange(x: int) { Min() <= x <= Max() }

    /** What a computation in this type leaves of a mathematical integer. */
    function Wrap(x: int): (w: int)
      ensures InRange(w) && (InRange(x) ==> w == x)
    {
      (x - Min()) % Modulus() + Min()
    }

    function Clamp(x: int): int {
      if x > Max() then Max() else if x < Min() then Min() else x
    }
  }

  // ----- Division of the source language -----

  /** Integer division truncates toward zero. */
  function Quot(a: int, b: int): int
    requires b > 0
  {
    if a >= 0 then a / b else -(-a / b)
  }

  function Rem(a: int, b: int): int
    requires b > 0
  {
    a - b * Quot(a, b)
  }

  // ----- Decimal notation -----

  predicate IsDigit(c: char) { '0' <= c <= '9' }

  function DigitValue(c: char): (d: int)
    ensures IsDigit(c) ==> 0 <= d <= 9
  {
    c as int - '0' as int
  }

  predicate AllDigits(s: Text) {
    forall i :: 0 <= i < |s| ==> IsDigit(s[i])
  }

  /** The number a digit string denotes. */
  function Value(s: Text): (n: nat)
    requires AllDigits(s)
  {
    if s == [] then 0 else 10 * Value(s[..|s| - 1]) + DigitValue(s[|s| - 1])
  }

  function DigitChar(d: int): (c: char)
    requires 0 <= d <= 9
    ensures IsDigit(c) && DigitValue(c) == d
  {
    d as char + '0'
  }

  function Digits(n: nat): (s: Text)
    ensures s != [] && AllDigits(s)
  {
    (if n < 10 then [] else Digits(n / 10)) + [DigitChar(n % 10)]
  }

  lemma {:induction false} ValueOfDigits(n: nat)
    ensures Value(Digits(n)) == n
  {
    var s := Digits(n);
    if n >= 10 {
      ValueOfDigits(n / 10);
      assert s[..|s| - 1] == Digits(n / 10);
    } else {
      assert s[..|s| - 1] == [];
    }
  }

  /** No digit in front is superfluous. */
  lemma {:induction false} NoLeadingZero(n: nat)
    ensures Digits(n)[0] == '0' <==> n == 0
  {
    if n >= 10 {
      NoLeadingZero(n / 10);
    }
  }

  function Power10(k: nat): nat {
    if k == 0 then 1 else 10 * Power10(k - 1)
  }

  lemma {:induction false} DigitsLength(n: nat, k: nat)
    requires k > 0 && n < Power10(k)
    ensures |Digits(n)| <= k
  {
    if n >= 10 {
      assert k > 1 by { assert Power10(1) == 10 * Power10(0) == 10; }
      DigitsLength(n / 10, k - 1);
    }
  }

  lemma {:induction false} ValueGrows(s: Text, i: nat)
    requires AllDigits(s) && i <= |s|
    ensures Value(s[..i]) <= Value(s)
  {
    if i < |s| {
      ValueGrows(s[..|s| - 1], i);
      assert s[..|s| - 1][..i] == s[..i];
    } else {
      assert s[..i] == s;
    }
  }

  // ----- What a string reads as -----

  predicate IsSpace(c: char) {
    c == ' ' || 9 <= c as int <= 13
  }

  /** The white space of the C locale. */
  lemma SpacesAre(c: char)
    ensures IsSpace(c) <==> c in " \t\n\U{0B}\U{0C}\r"
  {
  }

  /** How many leading characters satisfy a test. */
  function Leading(s: Text, test: char -> bool): (n: nat)
    ensures n <= |s| && (forall i :: 0 <= i < n ==> test(s[i])) && (n < |s| ==> !test(s[n]))
  {
    if s == [] || !test(s[0]) then 0 else 1 + Leading(s[1..], test)
  }

  function Run(s: Text): (r: Text)
    ensures AllDigits(r) && r <= s
  {
    s[..Leading(s, IsDigit)]
  }

  /** The text behind leading white space. */
  function Trimmed(s: Text): Text {
    s[Leading(s, IsSpace)..]
  }

  predicate HasSign(t: Text) { t != [] && (t[0] == '-' || t[0] == '+') }

  function Unsigned(t: Text): Text { if HasSign(t) then t[1..] else t }

  predicate Negative(t: Text) { t != [] && t[0] == '-' }

  /** An optional sign and one or more digits, nothing else. */
  predicate IsDecimal(s: Text) {
    Unsigned(s) != [] && AllDigits(Unsigned(s))
  }

  function Signed(negative: bool, n: int): int { if negative then -n else n }

  /** The value of the first run of digits behind white space and a sign. */
  function Reading(s: Text): int {
    Signed(Negative(Trimmed(s)), Value(Run(Unsigned(Trimmed(s)))))
  }

  // ----- Parsing -----

  method CharToDigit(c: char) returns (ok: bool, digit: int)
    ensures ok <==> IsDigit(c)
    ensures ok ==> digit == DigitValue(c)
  {
    ok, digit := false, 0;
    if c >= '0' && c as int < '0' as int + 10 {
      ok, digit := true, c as int - '0' as int;
    }
  }

  /** Positive::CheckBounds: would the next digit leave the range? */
  method CheckBoundsPositive(w: Width, output: int, digit: int) returns (ok: bool, output': int)
    requires 0 <= output <= w.Max() && 0 <= digit <= 9
    ensures ok <==> 10 * output + digit <= w.Max()
    ensures output' == if ok then output else w.Max()
  {
    if output > Quot(w.Max(), 10) || (output == Quot(w.Max(), 10) && digit > Rem(w.Max(), 10)) {
      return false, w.Max();
    }
    return true, output;
  }

  method CheckBoundsNegative(w: Width, output: int, digit: int) returns (ok: bool, output': int)
    requires w.Min() <= output <= 0 && 0 <= digit <= 9
    ensures ok <==> 10 * output - digit >= w.Min()
    ensures output' == if ok then output else w.Min()
  {
    if output < Quot(w.Min(), 10) || (output == Quot(w.Min(), 10) && digit > 0 - Rem(w.Min(), 10)) {
      return false, w.Min();
    }
    return true, output;
  }

  /** Base::Invoke for either sign: the first run of digits, clamped. */
  method InvokeDigits(w: Width, negative: bool, s: Text) returns (ok: bool, output: int)
    ensures ok <==> s != [] && AllDigits(s) && w.InRange(Signed(negative, Value(s)))
    ensures output == w.Clamp(Signed(negative, Value(Run(s))))
  {
    hide Leading, Run, Value;
    NoDigits(s);
    output := 0;
    if |s| == 0 {
      return false, output;
    }
    var i := 0;
    while i < |s|
      invariant 0 <= i <= |s| && AllDigits(s[..i])
      invariant output == Signed(negative, Value(s[..i])) && w.InRange(output)
    {
      var isDigit, digit := CharToDigit(s[i]);
      if !isDigit {
        RunUpTo(s, i);
        return false, output;
      }
      PrefixValue(s, i + 1);
      NextDigit(s, i);
      if i != 0 {
        var inBounds;
        if negative {
          inBounds, output := CheckBoundsNegative(w, output, digit);
        } else {
          inBounds, output := CheckBoundsPositive(w, output, digit);
        }
        if !inBounds {
          return false, output;
        }
        assert w.InRange(output * 10);  // no overflow
        output := w.Wrap(output * 10);
      }
      assert w.InRange(if negative then output - digit else output + digit);  // no overflow
      output := w.Wrap(if negative then output - digit else output + digit);
      i := i + 1;
    }
    assert s[..i] == s;
    RunUpTo(s, i);
    ok := true;
  }

  lemma NoDigits(s: Text)
    ensures Value([]) == 0 && Run([]) == [] && s[..0] == []
  {
  }

  lemma NextDigit(s: Text, i: nat)
    requires i < |s| && AllDigits(s[..i + 1])
    ensures AllDigits(s[..i]) && Value(s[..i + 1]) == 10 * Value(s[..i]) + DigitValue(s[i])
    ensures i == 0 ==> Value(s[..i]) == 0
  {
    assert s[..i + 1][..i] == s[..i];
  }

  lemma RunUpTo(s: Text, i: nat)
    requires i <= |s| && AllDigits(s[..i]) && (i < |s| ==> !IsDigit(s[i]))
    ensures Run(s) == s[..i]
  {
    var n := Leading(s, IsDigit);
    assert forall j :: 0 <= j < i ==> IsDigit(s[..i][j]);
  }

  /** Every prefix of digits is part of the run, so the run denotes at least as much. */
  lemma PrefixValue(s: Text, i: nat)
    requires i <= |s| && AllDigits(s[..i])
    ensures Value(s[..i]) <= Value(Run(s)) && (AllDigits(s) ==> Run(s) == s)
  {
    var n := Leading(s, IsDigit);
    assert forall j :: 0 <= j < i ==> IsDigit(s[..i][j]);
    assert i <= n && Run(s)[..i] == s[..i];
    ValueGrows(Run(s), i);
  }

  /** StringToInt and StringToInt64 on a byte range. */
  method Invoke(w: Width, s: Text) returns (ok: bool, output: int)
    ensures ok <==> IsDecimal(s) && w.InRange(Signed(Negative(s), Value(Unsigned(s))))
    ensures output == w.Clamp(Reading(s))
  {
    var valid := true;
    var begin := 0;
    while begin < |s| && IsSpace(s[begin])
      invariant 0 <= begin <= |s| && forall j :: 0 <= j < begin ==> IsSpace(s[j])
      invariant valid == (begin == 0)
    {
      valid := false;
      begin := begin + 1;
    }
    SpacesSkipped(s, begin);
    if begin != |s| && s[begin] == '-' {
      assert s[begin..][1..] == s[begin + 1..];
      ok, output := InvokeDigits(w, true, s[begin + 1..]);
    } else {
      if begin != |s| && s[begin] == '+' {
        assert s[begin..][1..] == s[begin + 1..];
        begin := begin + 1;
      }
      ok, output := InvokeDigits(w, false, s[begin..]);
    }
    ok := valid && ok;
  }

  lemma SpacesSkipped(s: Text, begin: nat)
    requires begin <= |s| && (forall j :: 0 <= j < begin ==> IsSpace(s[j])) && (begin < |s| ==> !IsSpace(s[begin]))
    ensures Trimmed(s) == s[begin..]
    ensures begin > 0 ==> !IsDecimal(s)
    ensures begin == 0 ==> Trimmed(s) == s
  {
    var n := Leading(s, IsSpace);
    if begin > 0 {
      assert IsSpace(s[0]) && !HasSign(s) && !IsDigit(s[0]);
    }
  }

  // ----- Printing -----

  function Decimal(v: int): Text {
    if v < 0 then ['-'] + Digits(-v) else Digits(v)
  }

  /** ToUnsigned: negation happens in the signed type, where the least value is its own negative. */
  function ToUnsigned(w: Width, v: int): (u: int)
    requires w.InRange(v)
    ensures u == if v < 0 then -v else v
  {
    WrapAndCast(w, if v < 0 then -v else v);
    w.Wrap(if v < 0 then -v else v) % w.Modulus()
  }

  lemma WrapAndCast(w: Width, x: int)
    requires 0 <= x <= w.Max() + 1
    ensures w.Wrap(x) % w.Modulus() == x
  {
    if x == w.Max() + 1 {
      if w.Int32? {
        assert w.Wrap(0x8000_0000) == -0x8000_0000;
      } else {
        assert w.Wrap(0x8000_0000_0000_0000) == -0x8000_0000_0000_0000;
      }
    } else {
      SmallModulus(x, w.Modulus());
    }
  }

  lemma SmallModulus(x: int, m: int)
    requires 0 <= x < m
    ensures x % m == x
  {
  }

  lemma DigitsStep(n: nat, tail: Text)
    ensures Digits(n) + tail == (if n / 10 == 0 then [] else Digits(n / 10)) + ([DigitChar(n % 10)] + tail)
  {
    hide DigitChar;
  }

  lemma DecimalIs(v: int)
    ensures Decimal(v) == if v < 0 then ['-'] + Digits(-v) else Digits(v)
  {
  }

  /** One character in front of what is written; the first cell is never reached, which the source checks. */
  method Put(outbuf: array<char>, it: nat, c: char) returns (next: nat)
    requires 1 < it <= outbuf.Length
    modifies outbuf
    ensures next == it - 1 && outbuf[next..] == [c] + old(outbuf[it..])
  {
    next := it - 1;
    outbuf[next] := c;
  }

  /** Digits are written from the right into a buffer that never fills up. */
  method IntToString(w: Width, value: int) returns (s: Text)
    requires w.InRange(value)
    ensures s == Decimal(value)
  {
    hide Digits, DigitChar, Decimal;
    DecimalIs(value);
    var size := 3 * w.SizeOf() + 1;
    var outbuf := new char[size](_ => '\0');
    var isNeg := value < 0;
    var res: int := ToUnsigned(w, value);
    ghost var all := Digits(res);
    Fits(w, res);
    assert outbuf[size..] == [] && all + [] == all;
    var it := size;
    while true
      invariant 0 <= res && 0 < it <= size
      invariant Digits(res) + outbuf[it..] == all && |all| + 1 < size
      decreases res, it
    {
      DigitsStep(res, outbuf[it..]);
      it := Put(outbuf, it, DigitChar(res % 10));
      res := res / 10;
      if res == 0 {
        if isNeg {
          it := Put(outbuf, it, '-');
        }
        return outbuf[it..];
      }
    }
  }

  /** The buffer has room for all digits, a sign, and one character more. */
  lemma Fits(w: Width, n: nat)
    requires n <= w.Max() + 1
    ensures |Digits(n)| + 1 < 3 * w.SizeOf() + 1
  {
    TwentyDigits();
    if w.Int32? {
      DigitsLength(n, 10);
    } else {
      DigitsLength(n, 19);
    }
  }

  lemma TwentyDigits()
    ensures Power10(10) == 10_000_000_000 && Power10(19) == 10_000_000_000_000_000_000
  {
    assert Power10(5) == 100000;
    assert Power10(10) == 10_000_000_000;
    assert Power10(15) == 1_000_000_000_000_000;
  }

  // ----- Round trip -----

  lemma DecimalReads(v: int)
    ensures IsDecimal(Decimal(v)) && Signed(Negative(Decimal(v)), Value(Unsigned(Decimal(v)))) == v
    ensures Reading(Decimal(v)) == v
  {
    hide Digits, Value, Trimmed, Run, Decimal, AllDigits;
    var s, n := Decimal(v), if v < 0 then -v else v;
    var d := Digits(n);
    ValueOfDigits(n);
    DecimalIs(v);
    FirstDigit(d);
    assert Unsigned(s) == d && s[0] == if v < 0 then '-' else d[0];
    NothingTrimmed(s);
    WholeRun(d);
  }

  lemma FirstDigit(d: Text)
    requires d != [] && AllDigits(d)
    ensures IsDigit(d[0]) && !IsSpace(d[0]) && d[0] != '-' && d[0] != '+'
  {
  }

  lemma NothingTrimmed(s: Text)
    requires s != [] && !IsSpace(s[0])
    ensures Trimmed(s) == s
  {
  }

  lemma WholeRun(d: Text)
    requires AllDigits(d)
    ensures Run(d) == d
  {
    hide Leading;
    assert d[..|d|] == d;
    RunUpTo(d, |d|);
  }

  /** Parsing what was printed gives the value back, for every value of the type. */
  method PrintAndParse(w: Width, v: int) returns (ok: bool, output: int)
    requires w.InRange(v)
    ensures ok && output == v
  {
    var s := IntToString(w, v);
    DecimalReads(v);
    ok, output := Invoke(w, s);
  }
}

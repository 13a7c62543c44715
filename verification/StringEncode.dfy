/**
 What the text codecs of src/base3/stringencode.cc and src/base3/escape.h write and
 read, UTF-8 and character references included.
 */
module StringEncode {

  /** One char of the source. */
  type Char = c: char | c as int < 0x100

  type Text = seq<Char>

  const NUL := '\0'

  // ----- Hexadecimal -----

  function HexEncode(v: nat): Char {
    if v < 10 then ('0' as int + v) as char
    else if v < 16 then ('a' as int + (v - 10)) as char
    else '!'
  }

  /** The hexadecimal digits of UrlQueryEscape are in upper case. */
  function UpperHex(v: nat): Char
    requires v < 16
  {
    (if v < 10 then '0' as int + v else 'A' as int + (v - 10)) as char
  }

  /** The value of a char, which is signed. */
  function Signed(c: Char): int {
    if c as int < 0x80 then c as int else c as int - 0x100
  }

  function ToLower(c: Char): Char {
    if 'A' <= c <= 'Z' then (c as int + 32) as char else c
  }

  /** Any char at all gives something, as an unsigned char. */
  function HexDecode(c: Char): (v: int)
    ensures 0 <= v < 0x100
  {
    (if Signed(c) <= '9' as int then Signed(c) - '0' as int else Signed(ToLower(c)) - 'a' as int + 10) % 0x100
  }

  function Or(a: nat, b: nat): nat
    decreases a + b
  {
    if a == 0 && b == 0 then 0 else (if a % 2 == 1 || b % 2 == 1 then 1 else 0) + 2 * Or(a / 2, b / 2)
  }

  function HexPair(high: Char, low: Char): Char {
    (Or(HexDecode(high) * 16, HexDecode(low)) % 0x100) as char
  }

  lemma {:induction false} OrZero(a: nat)
    ensures Or(a, 0) == a
  {
    if a > 0 {
      OrZero(a / 2);
    }
  }

  /** Or and addition agree where no bit is in both operands: here, a high and a low half. */
  lemma {:induction false} OrHalves(high: nat, low: nat, k: nat, width: nat)
    requires k <= 4 && width == Power2(k) && low < width
    ensures Or(high * width, low) == high * width + low
  {
    if k == 0 {
      OrZero(high);
    } else {
      var half := Power2(k - 1);
      assert high * width == 2 * (high * half);
      OrHalves(high, low / 2, k - 1, half);
    }
  }

  function Power2(k: nat): nat {
    if k == 0 then 1 else 2 * Power2(k - 1)
  }

  predicate IsHex(c: Char) {
    '0' <= c <= '9' || 'a' <= c <= 'f' || 'A' <= c <= 'F'
  }

  lemma OrByte(high: nat, low: nat)
    requires low < 16
    ensures Or(high * 16, low) == high * 16 + low
  {
    assert Power2(4) == 16;
    hide Or;
    OrHalves(high, low, 4, 16);
  }

  lemma HexPairOfDigits(high: Char, low: Char)
    requires HexDecode(high) < 16 && HexDecode(low) < 16
    ensures HexPair(high, low) as int == HexDecode(high) * 16 + HexDecode(low)
  {
    hide Or, HexDecode;
    OrByte(HexDecode(high), HexDecode(low));
  }

  lemma HexDigitReadBack(v: nat)
    requires v < 16
    ensures IsHex(HexEncode(v)) && HexDecode(HexEncode(v)) == v == HexDecode(UpperHex(v))
  {
  }

  lemma HexReadBack(c: Char)
    ensures HexPair(HexEncode(c as int / 16), HexEncode(c as int % 16)) == c
    ensures HexPair(UpperHex(c as int / 16), UpperHex(c as int % 16)) == c
  {
    hide HexDecode, HexEncode, UpperHex, HexPair;
    var high, low := c as int / 16, c as int % 16;
    HexDigitReadBack(high);
    HexDigitReadBack(low);
    HexPairOfDigits(HexEncode(high), HexEncode(low));
    HexPairOfDigits(UpperHex(high), UpperHex(low));
  }

  // ----- What is written for one character -----

  /** The table ASCII_CLASS: bit 0 is URL_UNSAFE, bit 1 is XML_UNSAFE and HTML_UNSAFE. */
  function AsciiClass(c: Char): nat
    requires c as int < 0x80
  {
    match c
    case '"' | '&' | '<' | '>' => 3
    case '\'' => 2
    case '#' | '$' | '%' | '+' | ',' | '/' | ':' | ';' | '=' | '?' | '@' => 1
    case '[' | '\\' | ']' | '^' | '`' | '{' | '|' | '}' | '\U{7F}' => 1
    case _ => if c <= ' ' then 1 else 0
  }

  predicate UrlUnsafe(c: Char) {
    c as int < 0x80 && AsciiClass(c) % 2 == 1
  }

  predicate XmlUnsafe(c: Char) {
    c as int < 0x80 && AsciiClass(c) / 2 % 2 == 1
  }

  /** What strchr answers: the end of the list counts as a member. */
  predicate InList(list: Text, c: Char) {
    c == NUL || c in list
  }

  /** The bits that are set in _safe_characters of UrlQueryEscape. */
  predicate QuerySafe(c: Char) {
    || '0' <= c <= '9' || 'A' <= c <= 'Z' || 'a' <= c <= 'z'
    || c == '!' || '(' <= c <= '*' || ',' <= c <= '/' || c == '_' || c == '~'
  }

  datatype Encoder =
      EscapeWith(illegal: Text, esc: Char)
    | HexWith(illegal: Text, esc: Char)
    | ForUrl
    | ForXml
    | ForQuery
  {

    /** What stands for one character. */
    function Unit(c: Char): (u: Text)
      ensures 1 <= |u| <= 6
    {
      match this
      case EscapeWith(illegal, esc) => if c == esc || InList(illegal, c) then [esc, c] else [c]
      case HexWith(illegal, esc) => if c == esc || InList(illegal, c) then HexUnit(esc, c) else [c]
      case ForUrl => if UrlUnsafe(c) then HexUnit('%', c) else [c]
      case ForXml => if XmlUnsafe(c) then Entity(c) else [c]
      case ForQuery =>
        if c == ' ' then ['+']
        else if QuerySafe(c) then [c]
        else ['%', UpperHex(c as int / 16), UpperHex(c as int % 16)]
    }

    function Matching(): Decoder {
      match this
      case EscapeWith(_, esc) => FromEscape(esc)
      case HexWith(_, esc) => FromHex(esc)
      case ForUrl => FromUrl
      case ForXml => FromXml
      case ForQuery => FromUrl
    }
  }

  function HexUnit(esc: Char, c: Char): (u: Text)
    ensures |u| == 3
  {
    [esc, HexEncode(c as int / 16), HexEncode(c as int % 16)]
  }

  /** The entities of xml_encode. */
  function Entity(c: Char): (u: Text)
    requires XmlUnsafe(c)
    ensures 4 <= |u| <= 6
  {
    match c
    case '<' => "&lt;"
    case '>' => "&gt;"
    case '\'' => "&apos;"
    case '"' => "&quot;"
    case _ => "&amp;"
  }

  function Encoded(e: Encoder, s: Text): Text {
    if s == [] then [] else e.Unit(s[0]) + Encoded(e, s[1..])
  }

  lemma {:induction false} EncodedAppend(e: Encoder, s: Text, t: Text)
    ensures Encoded(e, s + t) == Encoded(e, s) + Encoded(e, t)
  {
    hide Encoder.Unit;
    if s == [] {
      assert s + t == t;
    } else {
      var u := e.Unit(s[0]);
      EncodedAppend(e, s[1..], t);
      assert (s + t)[1..] == s[1..] + t && (s + t)[0] == s[0];
      assert u + (Encoded(e, s[1..]) + Encoded(e, t)) == u + Encoded(e, s[1..]) + Encoded(e, t);
    }
  }

  /** How many characters are written when the output may have so many bytes. */
  function Longest(e: Encoder, s: Text, room: nat): (n: nat)
    ensures n <= |s|
  {
    if s == [] || |e.Unit(s[0])| > room then 0 else 1 + Longest(e, s[1..], room - |e.Unit(s[0])|)
  }

  /** It is the length of the longest prefix whose whole encoding fits. */
  lemma {:induction false} LongestIsLongest(e: Encoder, s: Text, room: nat, n: nat)
    requires n <= |s|
    ensures |Encoded(e, s[..n])| <= room <==> n <= Longest(e, s, room)
  {
    if n > 0 {
      var u := e.Unit(s[0]);
      assert s[..n][1..] == s[1..][..n - 1];
      if |u| <= room {
        LongestIsLongest(e, s[1..], room - |u|, n - 1);
      }
    }
  }

  // ----- Removing the illegal characters -----

  /** The digits that stand for a character that is replaced are not themselves in the list. */
  predicate DigitsAllowed(list: Text, c: Char) {
    HexEncode(c as int / 16) !in list && HexEncode(c as int % 16) !in list
  }

  /** What the list and the escape character must satisfy. */
  predicate Removable(list: Text, esc: Char) {
    && esc !in list && NUL !in list
    && DigitsAllowed(list, NUL) && DigitsAllowed(list, esc)
    && forall i :: 0 <= i < |list| ==> DigitsAllowed(list, list[i])
  }

  ghost predicate Clean(list: Text, t: Text) {
    forall i :: 0 <= i < |t| ==> t[i] !in list
  }

  ghost predicate Removes(list: Text, esc: Char, s: Text) {
    Clean(list, Encoded(HexWith(list, esc), s))
  }

  lemma {:induction false} EncodedClean(list: Text, esc: Char, s: Text)
    requires Removable(list, esc)
    ensures Clean(list, Encoded(HexWith(list, esc), s))
  {
    if s != [] {
      EncodedClean(list, esc, s[1..]);
    }
  }

  /**
   encode removes the illegal characters from every text exactly when neither the escape
   character nor a digit it writes is illegal; a list is a C string, without NUL.
   */
  lemma IllegalRemovedIff(list: Text, esc: Char)
    requires NUL !in list
    ensures (forall s :: Removes(list, esc, s)) <==> Removable(list, esc)
  {
    if Removable(list, esc) {
      forall s ensures Removes(list, esc, s) {
        EncodedClean(list, esc, s);
      }
    } else {
      var c: Char := if !DigitsAllowed(list, NUL) then NUL else esc;
      if DigitsAllowed(list, NUL) && esc !in list && DigitsAllowed(list, esc) {
        var i :| 0 <= i < |list| && !DigitsAllowed(list, list[i]);
        c := list[i];
      }
      var e, one: Text := HexWith(list, esc), [c];
      var t := Encoded(e, one);
      assert e.Unit(c) == HexUnit(esc, c);
      assert t == e.Unit(one[0]) + Encoded(e, one[1..]);
      assert t[0] == esc && t[1] == HexEncode(c as int / 16) && t[2] == HexEncode(c as int % 16);
      assert !Removes(list, esc, one);
    }
  }

  /** The characters that need no escaping in a URL, and the bytes beyond ASCII, which url_encode leaves alone. */
  predicate UrlPlain(c: Char) {
    || '0' <= c <= '9' || 'A' <= c <= 'Z' || 'a' <= c <= 'z' || c as int >= 0x80
    || c == '!' || c == '\'' || c == '(' || c == ')' || c == '*' || c == '-' || c == '.' || c == '_' || c == '~'
  }

  /** The three tables, as lists of what needs no escaping, or does. */
  lemma TablesAre(c: Char)
    ensures UrlUnsafe(c) <==> !UrlPlain(c)
    ensures XmlUnsafe(c) <==> c in "<>&\"'"
    ensures QuerySafe(c) <==> '0' <= c <= '9' || 'A' <= c <= 'Z' || 'a' <= c <= 'z' || c in ".,_*/~!()-"
  {
  }

  predicate Markup(c: Char) {
    c == '<' || c == '>' || c == '"' || c == '\''
  }

  /** Which characters an encoded text may consist of. */
  predicate Harmless(e: Encoder, c: Char) {
    match e
    case ForUrl => c == '%' || UrlPlain(c)
    case ForQuery => c == '%' || c == '+' || QuerySafe(c)
    case ForXml => !Markup(c)
    case _ => true
  }

  lemma HexPlain(v: nat)
    requires v < 16
    ensures UrlPlain(HexEncode(v)) && QuerySafe(HexEncode(v)) && UrlPlain(UpperHex(v)) && QuerySafe(UpperHex(v))
  {
  }

  lemma PlainUnlessUnsafe(c: Char)
    ensures UrlUnsafe(c) || UrlPlain(c)
    ensures XmlUnsafe(c) || !Markup(c)
    ensures XmlUnsafe(c) ==> forall i :: 0 <= i < |Entity(c)| ==> !Markup(Entity(c)[i])
  {
  }

  lemma UnitHarmless(e: Encoder, c: Char)
    ensures forall i :: 0 <= i < |e.Unit(c)| ==> Harmless(e, e.Unit(c)[i])
  {
    HexPlain(c as int / 16);
    HexPlain(c as int % 16);
    PlainUnlessUnsafe(c);
    hide HexEncode, UpperHex, UrlPlain, QuerySafe, Markup, UrlUnsafe, XmlUnsafe, Entity;
  }

  /** Unsafe characters and markup do not get through url_encode, UrlQueryEscape and xml_encode. */
  lemma {:induction false} EncodedHarmless(e: Encoder, s: Text)
    ensures forall i :: 0 <= i < |Encoded(e, s)| ==> Harmless(e, Encoded(e, s)[i])
  {
    if s != [] {
      UnitHarmless(e, s[0]);
      EncodedHarmless(e, s[1..]);
      hide Harmless, Encoder.Unit;
    }
  }

  // ----- UTF-8 -----

  const MAX_RUNE := 0x1F_FFFF

  /** utf8_encode, given room. */
  function Utf8(v: nat): (u: Text)
    requires v <= MAX_RUNE
    ensures 1 <= |u| <= 4
  {
    if v <= 0x7F then [v as char]
    else if v <= 0x7FF then [(0xC0 + v / 0x40) as char, Trailer(v)]
    else if v <= 0xFFFF then [(0xE0 + v / 0x1000) as char, Trailer(v / 0x40), Trailer(v)]
    else [(0xF0 + v / 0x4_0000) as char, Trailer(v / 0x1000), Trailer(v / 0x40), Trailer(v)]
  }

  function Trailer(v: nat): Char {
    (0x80 + v % 0x40) as char
  }

  // ----- What UTF-8 is, in terms of bytes (section 3 of RFC 3629, up to 21 bits) -----

  /** How many bytes a value takes: 7, 11, 16 and 21 bits are room for it. */
  function Width(v: nat): nat {
    if v < 0x80 then 1 else if v < 0x800 then 2 else if v < 0x1_0000 then 3 else 4
  }

  predicate Trailers(t: Text) {
    forall i :: 0 <= i < |t| ==> 0x80 <= t[i] as int < 0xC0
  }

  /** The first byte tells the length, and marks the others. */
  predicate WellFormed(u: Text) {
    && u != [] && Trailers(u[1..])
    && match |u|
       case 1 => u[0] as int < 0x80
       case 2 => 0xC0 <= u[0] as int < 0xE0
       case 3 => 0xE0 <= u[0] as int < 0xF0
       case 4 => 0xF0 <= u[0] as int < 0xF8
       case _ => false
  }

  /** Six bits are read from each of the other bytes, the highest first. */
  function Bits(high: nat, t: Text): nat
    requires Trailers(t)
    decreases |t|
  {
    if t == [] then high else Bits(0x40 * high + (t[0] as int - 0x80), t[1..])
  }

  function Payload(u: Text): nat
    requires WellFormed(u)
  {
    Bits(u[0] as int - (match |u| case 1 => 0 case 2 => 0xC0 case 3 => 0xE0 case _ => 0xF0), u[1..])
  }

  /** The order of byte strings. */
  predicate Before(s: Text, t: Text) {
    t != [] && (s == [] || s[0] < t[0] || (s[0] == t[0] && Before(s[1..], t[1..])))
  }

  lemma {:induction false} BitsInjective(a: nat, b: nat, s: Text, t: Text)
    requires Trailers(s) && Trailers(t) && |s| == |t| && Bits(a, s) == Bits(b, t)
    ensures a == b && s == t
    decreases |s|
  {
    if s != [] {
      BitsInjective(0x40 * a + (s[0] as int - 0x80), 0x40 * b + (t[0] as int - 0x80), s[1..], t[1..]);
      assert s == [s[0]] + s[1..] && t == [t[0]] + t[1..];
    }
  }

  lemma {:induction false} BitsOrder(a: nat, b: nat, s: Text, t: Text)
    requires Trailers(s) && Trailers(t) && |s| == |t| && Bits(a, s) < Bits(b, t)
    ensures a < b || (a == b && Before(s, t))
    decreases |s|
  {
    if s != [] {
      BitsOrder(0x40 * a + (s[0] as int - 0x80), 0x40 * b + (t[0] as int - 0x80), s[1..], t[1..]);
    }
  }

  /** The bits of a sequence, digit by digit. */
  lemma PayloadDigits(u: Text)
    requires WellFormed(u)
    ensures |u| == 1 ==> Payload(u) == u[0] as int
    ensures |u| == 2 ==> Payload(u) == 0x40 * (u[0] as int - 0xC0) + (u[1] as int - 0x80)
    ensures |u| == 3 ==> Payload(u) == 0x40 * (0x40 * (u[0] as int - 0xE0) + (u[1] as int - 0x80)) + (u[2] as int - 0x80)
    ensures |u| == 4 ==>
              Payload(u) == 0x40 * (0x40 * (0x40 * (u[0] as int - 0xF0) + (u[1] as int - 0x80)) + (u[2] as int - 0x80))
                            + (u[3] as int - 0x80)
  {
    var n, lead := |u|, u[0] as int - match |u| case 1 => 0 case 2 => 0xC0 case 3 => 0xE0 case _ => 0xF0;
    assert n == 1 ==> u[1..] == [];
    if n == 2 {
      assert u[1..][1..] == [];
      assert Payload(u) == Bits(0x40 * lead + (u[1] as int - 0x80), []);
    } else if n == 3 {
      assert u[1..][1..] == u[2..] && u[2..][1..] == [];
      var high := 0x40 * lead + (u[1] as int - 0x80);
      assert Payload(u) == Bits(high, u[2..]) == Bits(0x40 * high + (u[2] as int - 0x80), []);
    } else if n == 4 {
      assert u[1..][1..] == u[2..] && u[2..][1..] == u[3..] && u[3..][1..] == [];
      var high := 0x40 * lead + (u[1] as int - 0x80);
      var more := 0x40 * high + (u[2] as int - 0x80);
      assert Payload(u) == Bits(high, u[2..]) == Bits(more, u[3..]) == Bits(0x40 * more + (u[3] as int - 0x80), []);
    }
  }

  lemma WellFormedIs(u: Text)
    ensures WellFormed(u) <==>
            || (|u| == 1 && u[0] as int < 0x80)
            || (|u| == 2 && 0xC0 <= u[0] as int < 0xE0 && 0x80 <= u[1] as int < 0xC0)
            || (|u| == 3 && 0xE0 <= u[0] as int < 0xF0 && 0x80 <= u[1] as int < 0xC0 && 0x80 <= u[2] as int < 0xC0)
            || (|u| == 4 && 0xF0 <= u[0] as int < 0xF8 && 0x80 <= u[1] as int < 0xC0 && 0x80 <= u[2] as int < 0xC0
                && 0x80 <= u[3] as int < 0xC0)
  {
    if u != [] {
      var t := u[1..];
      assert forall i :: 0 <= i < |t| ==> t[i] == u[i + 1];
      assert (|u| > 1 ==> u[1] == t[0]) && (|u| > 2 ==> u[2] == t[1]) && (|u| > 3 ==> u[3] == t[2]);
    }
  }

  lemma Utf8Bits(v: nat)
    requires v <= MAX_RUNE
    ensures WellFormed(Utf8(v)) && Payload(Utf8(v)) == v && |Utf8(v)| == Width(v)
  {
    var u := Utf8(v);
    assert v / 0x40 / 0x40 == v / 0x1000 && v / 0x1000 / 0x40 == v / 0x4_0000;
    PayloadDigits(u);
    hide Payload;
  }

  /** utf8_encode writes the one well-formed sequence of the right length that carries the value. */
  lemma Utf8Iff(u: Text, v: nat)
    requires v <= MAX_RUNE
    ensures u == Utf8(v) <==> WellFormed(u) && Payload(u) == v && |u| == Width(v)
  {
    Utf8Bits(v);
    hide Utf8;
    var w := Utf8(v);
    if WellFormed(u) && Payload(u) == v && |u| == Width(v) {
      var lead := match |u| case 1 => 0 case 2 => 0xC0 case 3 => 0xE0 case _ => 0xF0;
      BitsInjective(u[0] as int - lead, w[0] as int - lead, u[1..], w[1..]);
      assert u == [u[0]] + u[1..] && w == [w[0]] + w[1..];
    }
  }

  /** Byte strings are in the order of the values. */
  lemma Utf8Order(v: nat, w: nat)
    requires v < w <= MAX_RUNE
    ensures Before(Utf8(v), Utf8(w))
  {
    Utf8Bits(v);
    Utf8Bits(w);
    hide Utf8;
    var s, t := Utf8(v), Utf8(w);
    if |s| == |t| {
      var lead := match |s| case 1 => 0 case 2 => 0xC0 case 3 => 0xE0 case _ => 0xF0;
      BitsOrder(s[0] as int - lead, t[0] as int - lead, s[1..], t[1..]);
    }
  }

  /** The examples of section 7 of RFC 3629, a sequence of each length among them. */
  lemma Utf8Examples()
    ensures Utf8(0x41) == "A" && Utf8(0x391) == ['\U{CE}', '\U{91}']
    ensures Utf8(0x2262) == ['\U{E2}', '\U{89}', '\U{A2}'] && Utf8(0xD55C) == ['\U{ED}', '\U{95}', '\U{9C}']
    ensures Utf8(0x65E5) == ['\U{E6}', '\U{97}', '\U{A5}']
    ensures Utf8(0x2_33B4) == ['\U{F0}', '\U{A3}', '\U{8E}', '\U{B4}']
  {
  }

  // ----- What the decoders read at one position -----

  datatype Decoder = FromEscape(esc: Char) | FromHex(esc: Char) | FromUrl | FromXml

  /** Either the loop ends, or it writes some bytes for some of the input. */
  datatype Move = Stop | Emit(out: Text, used: nat)

  predicate Starts(s: Text, name: Text) {
    |s| > |name| && s[1..][..|name|] == name
  }

  function Read(d: Decoder, s: Text): (m: Move)
    requires s != []
    ensures m.Emit? ==> 1 <= |m.out| <= m.used <= |s|
  {
    match d
    case FromEscape(esc) =>
      if s[0] == esc && |s| > 1 then Emit([s[1]], 2) else Emit([s[0]], 1)
    case FromHex(esc) =>
      if s[0] == esc && |s| > 2 then Emit([HexPair(s[1], s[2])], 3) else Emit([s[0]], 1)
    case FromUrl =>
      if s[0] == '+' then Emit([' '], 1)
      else if s[0] == '%' && |s| > 2 then Emit([HexPair(s[1], s[2])], 3)
      else Emit([s[0]], 1)
    case FromXml =>
      if s[0] != '&' then Emit([s[0]], 1)
      else if Starts(s, "lt;") then Emit(['<'], 4)
      else if Starts(s, "gt;") then Emit(['>'], 4)
      else if Starts(s, "apos;") then Emit(['\''], 6)
      else if Starts(s, "quot;") then Emit(['"'], 6)
      else if Starts(s, "amp;") then Emit(['&'], 5)
      else if |s| > 1 && s[1] == '#' then ReadReference(s)
      else Stop
  }

  /** A character reference: digits up to a semicolon, hexadecimal behind an x, perhaps none. */
  function ReadReference(s: Text): (m: Move)
    requires |s| > 1
    ensures m.Emit? ==> 1 <= |m.out| <= m.used <= |s|
  {
    var base := if |s| > 2 && s[2] == 'x' then 16 else 10;
    var from := if base == 16 then 3 else 2;
    var n := Run(base, s[from..]);
    var v := Number(base, s[from..][..n]);
    if from + n < |s| && s[from + n] == ';' && v <= MAX_RUNE then Emit(Utf8(v), from + n + 1) else Stop
  }

  predicate IsDigitIn(base: nat, c: Char) {
    '0' <= c <= '9' || (base == 16 && IsHex(c))
  }

  /** The length of the run of digits at the front. */
  function Run(base: nat, s: Text): (n: nat)
    ensures n <= |s| && forall i :: 0 <= i < n ==> IsDigitIn(base, s[i])
    ensures n < |s| ==> !IsDigitIn(base, s[n])
  {
    if s == [] || !IsDigitIn(base, s[0]) then 0 else 1 + Run(base, s[1..])
  }

  /** The value of the digits: what strtoul gives, short of its upper bound. */
  function Number(base: nat, s: Text): (v: nat)
    requires forall i :: 0 <= i < |s| ==> IsDigitIn(base, s[i])
  {
    if s == [] then 0 else base * Number(base, s[..|s| - 1]) + HexDecode(s[|s| - 1])
  }

  /** Decoding without end of the buffer. */
  function Decoded(d: Decoder, s: Text): (t: Text)
    ensures |t| <= |s|
  {
    if s == [] then []
    else match Read(d, s)
      case Stop => []
      case Emit(out, used) => out + Decoded(d, s[used..])
  }

  /** What is decoded into a buffer of so many bytes, where one is kept for the terminator while it can be. */
  function DecodedIn(d: Decoder, s: Text, size: nat): (t: Text)
    ensures |t| <= size
    decreases |s|
  {
    if s == [] || size < 2 then []
    else match Read(d, s)
      case Stop => []
      case Emit(out, used) => if |out| > size then [] else out + DecodedIn(d, s[used..], size - |out|)
  }

  lemma OneByOne(d: Decoder, s: Text)
    requires s != []
    ensures !d.FromXml? ==> Read(d, s).Emit? && |Read(d, s).out| == 1
  {
  }

  /** A buffer cuts the output, but does not change it. */
  lemma {:induction false} DecodedPrefix(d: Decoder, s: Text, size: nat)
    ensures DecodedIn(d, s, size) <= Decoded(d, s)
    ensures |Decoded(d, s)| < size ==> DecodedIn(d, s, size) == Decoded(d, s)
    ensures !d.FromXml? && 0 < size <= |Decoded(d, s)| ==> |DecodedIn(d, s, size)| == size - 1
    decreases |s|
  {
    hide Read;
    if s != [] {
      OneByOne(d, s);
    }
    if s != [] && Read(d, s).Emit? {
      var m := Read(d, s);
      if |m.out| <= size {
        DecodedPrefix(d, s[m.used..], size - |m.out|);
      }
    }
  }

  /** The bytes written by each turn of the decoding loop, without end of the buffer. */
  function Widths(d: Decoder, s: Text): seq<nat>
    decreases |s|
  {
    if s == [] || Read(d, s).Stop? then []
    else [|Read(d, s).out|] + Widths(d, s[Read(d, s).used..])
  }

  function Total(w: seq<nat>): nat {
    if w == [] then 0 else w[0] + Total(w[1..])
  }

  /** Some turn that writes several bytes at once ends at the given length. */
  ghost predicate WideEndAt(w: seq<nat>, size: nat) {
    exists k :: 1 <= k <= |w| && Total(w[..k]) == size && w[k - 1] >= 2
  }

  lemma TotalStep(w: seq<nat>, k: nat)
    requires 1 <= k <= |w|
    ensures Total(w[..k]) == w[0] + Total(w[1..][..k - 1])
  {
    assert w[..k][1..] == w[1..][..k - 1];
  }

  lemma WideEndStep(w: seq<nat>, size: nat)
    requires w != []
    ensures WideEndAt(w, size) <==> (w[0] >= 2 && w[0] == size) || (w[0] <= size && WideEndAt(w[1..], size - w[0]))
  {
    if w[0] >= 2 && w[0] == size {
      TotalStep(w, 1);
    }
    if w[0] <= size && WideEndAt(w[1..], size - w[0]) {
      var k :| 1 <= k <= |w[1..]| && Total(w[1..][..k]) == size - w[0] && w[1..][k - 1] >= 2;
      TotalStep(w, k + 1);
      assert Total(w[..k + 1]) == size && w[k + 1 - 1] >= 2;
    }
    if WideEndAt(w, size) {
      var k :| 1 <= k <= |w| && Total(w[..k]) == size && w[k - 1] >= 2;
      TotalStep(w, k);
      if k > 1 {
        assert Total(w[1..][..k - 1]) == size - w[0] && w[1..][k - 1 - 1] >= 2;
      }
    }
  }

  lemma {:induction false} NoWideEndAtZero(w: seq<nat>)
    requires forall k :: 0 <= k < |w| ==> w[k] >= 1
    ensures !WideEndAt(w, 0) && !WideEndAt(w, 1)
  {
    if w != [] {
      NoWideEndAtZero(w[1..]);
      WideEndStep(w, 0);
      WideEndStep(w, 1);
    }
  }

  lemma {:induction false} WidthsPositive(d: Decoder, s: Text)
    ensures forall k :: 0 <= k < |Widths(d, s)| ==> Widths(d, s)[k] >= 1
    decreases |s|
  {
    if s != [] && Read(d, s).Emit? {
      WidthsPositive(d, s[Read(d, s).used..]);
    }
  }

  /**
   No byte is left for the terminator exactly when a character reference that needs several
   bytes ends at the end of the buffer.
   */
  lemma {:induction false} FilledIff(d: Decoder, s: Text, size: nat)
    requires size > 0
    ensures |DecodedIn(d, s, size)| == size <==> WideEndAt(Widths(d, s), size)
    decreases |s|
  {
    hide Read;
    var w := Widths(d, s);
    WidthsPositive(d, s);
    if size == 1 {
      NoWideEndAtZero(w);
    } else if s != [] && Read(d, s).Emit? {
      var m := Read(d, s);
      WideEndStep(w, size);
      assert w[1..] == Widths(d, s[m.used..]);
      if |m.out| < size {
        FilledIff(d, s[m.used..], size - |m.out|);
      } else {
        WidthsPositive(d, s[m.used..]);
        NoWideEndAtZero(w[1..]);
      }
    }
  }

  /** So it happens, although utf8_encode is documented to keep the last byte free. */
  lemma FilledExample()
    ensures |DecodedIn(FromXml, "&#128;", 2)| == 2
  {
    var s: Text := "&#128;";
    RunIs(10, s[2..], 3);
    NumberOf128(s[2..][..3]);
    hide Run, Number;
    assert s[1] == '#';
    assert Read(FromXml, s) == Emit(Utf8(128), 6);
  }

  lemma NumberOf128(digits: Text)
    requires digits == "128"
    ensures Number(10, digits) == 128
  {
    assert digits[..2][..1] == digits[..1] && digits[..1][..0] == [];
    assert Number(10, digits[..1]) == 1 && Number(10, digits[..2]) == 12;
  }

  lemma {:induction false} RunIs(base: nat, s: Text, n: nat)
    requires n < |s| && !IsDigitIn(base, s[n]) && forall i :: 0 <= i < n ==> IsDigitIn(base, s[i])
    ensures Run(base, s) == n
  {
    if n > 0 {
      RunIs(base, s[1..], n - 1);
    }
  }

  // ----- Decoding undoes encoding -----

  lemma ReadHexUnit(esc: Char, c: Char, rest: Text)
    ensures HexPair((HexUnit(esc, c) + rest)[1], (HexUnit(esc, c) + rest)[2]) == c
  {
    HexReadBack(c);
  }

  lemma ReadUnit(e: Encoder, c: Char, rest: Text)
    ensures Read(e.Matching(), e.Unit(c) + rest) == Emit([c], |e.Unit(c)|)
  {
    hide HexPair, HexEncode, UpperHex, ReadReference, Starts;
    match e
    case EscapeWith(illegal, esc) =>
    case HexWith(illegal, esc) => ReadHexUnit(esc, c, rest);
    case ForUrl => ReadHexUnit('%', c, rest);
    case ForQuery => HexReadBack(c);
    case ForXml =>
      if XmlUnsafe(c) {
        ReadEntity(c, rest);
      }
  }

  lemma ReadEntity(c: Char, rest: Text)
    requires XmlUnsafe(c)
    ensures Read(FromXml, Entity(c) + rest) == Emit([c], |Entity(c)|)
  {
    var u := Entity(c);
    var s := u + rest;
    assert s[1..][..|u| - 1] == u[1..];
    assert s[1] == u[1] && s[2] == u[2];
    assert Starts(s, u[1..]);
    hide ReadReference;
    assert s[1..][1] == u[2];
  }

  /** The matching decoder undoes every encoder, on every text and for every list of illegal characters. */
  lemma {:induction false} RoundTrip(e: Encoder, s: Text)
    ensures Decoded(e.Matching(), Encoded(e, s)) == s
  {
    if s != [] {
      var u, rest := e.Unit(s[0]), Encoded(e, s[1..]);
      ReadUnit(e, s[0], rest);
      assert (u + rest)[|u|..] == rest;
      RoundTrip(e, s[1..]);
    }
  }

  /** When the output is cut, the decoder recovers the longest prefix whose encoding fits. */
  lemma CutRoundTrip(e: Encoder, s: Text, room: nat)
    ensures Decoded(e.Matching(), Encoded(e, s[..Longest(e, s, room)])) == s[..Longest(e, s, room)]
    ensures forall n :: 0 <= n <= |s| && |Encoded(e, s[..n])| <= room ==>
                          n <= |Decoded(e.Matching(), Encoded(e, s[..Longest(e, s, room)]))|
  {
    RoundTrip(e, s[..Longest(e, s, room)]);
    forall n | 0 <= n <= |s| && |Encoded(e, s[..n])| <= room ensures n <= Longest(e, s, room) {
      LongestIsLongest(e, s, room, n);
    }
  }
}

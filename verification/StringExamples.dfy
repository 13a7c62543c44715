/**
 The codecs of src/base3/stringencode.cc and src/base3/escape.h on short texts.

 Names, digits and bytes are spelled out as they are in the source: what is written for
 single characters, what is read for single escapes, and the euro sign in both directions.
 */
module StringExamples {
  import opened StringEncode
  import opened HtmlEncode

  // ----- Encoding -----

  lemma Cons(e: Encoder, c: Char, s: Text, u: Text, t: Text)
    requires e.Unit(c) == u && Encoded(e, s) == t
    ensures Encoded(e, [c] + s) == u + t
  {
    hide Encoder.Unit;
    assert ([c] + s)[1..] == s;
  }

  lemma Three(e: Encoder, a: Char, b: Char, c: Char, t: Text)
    requires t == e.Unit(a) + e.Unit(b) + e.Unit(c)
    ensures Encoded(e, [a, b, c]) == t
  {
    hide Encoder.Unit;
    Cons(e, c, [], e.Unit(c), []);
    Cons(e, b, [c], e.Unit(b), e.Unit(c));
    Cons(e, a, [b, c], e.Unit(a), e.Unit(b) + e.Unit(c));
    assert [c] + [] == [c];
    assert [b] + [c] == [b, c];
    assert [a] + [b, c] == [a, b, c];
  }

  lemma BracketsWritten(s: Text)
    requires s == "<>&"
    ensures Encoded(ForXml, s) == "&lt;&gt;&amp;"
  {
    hide Encoded;
    Three(ForXml, '<', '>', '&', "&lt;&gt;&amp;");
  }

  lemma QuotesWritten(s: Text)
    requires s == "'\"a"
    ensures Encoded(ForXml, s) == "&apos;&quot;a"
  {
    hide Encoded;
    Three(ForXml, '\'', '"', 'a', "&apos;&quot;a");
  }

  /** The five entities; the ampersand is one of them. */
  lemma XmlWritten(s: Text, t: Text)
    requires s == "<>&" && t == "'\"a"
    ensures Encoded(ForXml, s) == "&lt;&gt;&amp;" && Encoded(ForXml, t) == "&apos;&quot;a"
  {
    hide *;
    BracketsWritten(s);
    QuotesWritten(t);
  }

  /** Hexadecimal digits, the high one first, are in lower case in url_encode. */
  lemma UrlWritten(s: Text)
    requires s == "a/ "
    ensures Encoded(ForUrl, s) == "a%2f%20"
  {
    hide Encoded;
    Three(ForUrl, 'a', '/', ' ', "a%2f%20");
  }

  /** They are in upper case in UrlQueryEscape, where a space becomes a plus sign. */
  lemma QueryWritten(s: Text)
    requires s == "/ +"
    ensures Encoded(ForQuery, s) == "/+%2B"
  {
    hide Encoded;
    Three(ForQuery, '/', ' ', '+', "/+%2B");
  }

  /** The escape character is itself escaped. */
  lemma EscapeWritten(s: Text)
    requires s == "a/%"
    ensures Encoded(EscapeWith("/", '%'), s) == "a%/%%" && Encoded(HexWith("/", '%'), s) == "a%2f%25"
  {
    hide Encoded;
    Three(EscapeWith("/", '%'), 'a', '/', '%', "a%/%%");
    Three(HexWith("/", '%'), 'a', '/', '%', "a%2f%25");
  }

  // ----- Decoding -----

  lemma One(d: Decoder, s: Text, out: Text)
    requires s != [] && Read(d, s) == Emit(out, |s|)
    ensures Decoded(d, s) == out
  {
    hide Read;
    assert s[|s|..] == [];
  }

  lemma LessRead(s: Text)
    requires s == "&lt;"
    ensures Decoded(FromXml, s) == "<"
  {
    hide Decoded;
    One(FromXml, s, "<");
  }

  lemma GreaterRead(s: Text)
    requires s == "&gt;"
    ensures Decoded(FromXml, s) == ">"
  {
    hide Decoded;
    assert !Starts(s, "lt;") by { assert s[1] == 'g'; }
    One(FromXml, s, ">");
  }

  lemma AmpersandRead(s: Text)
    requires s == "&amp;"
    ensures Decoded(FromXml, s) == "&"
  {
    hide Decoded;
    assert s[2] == 'm';
    One(FromXml, s, "&");
  }

  lemma QuotesRead(s: Text, t: Text)
    requires s == "&quot;" && t == "&apos;"
    ensures Decoded(FromXml, s) == "\"" && Decoded(FromXml, t) == "'"
  {
    hide Decoded;
    assert s[1] == 'q' && t[1] == 'a';
    One(FromXml, s, "\"");
    One(FromXml, t, "'");
  }

  lemma SlashRead(s: Text, f: Char)
    requires s == ['%', '2', f] && (f == 'f' || f == 'F')
    ensures Decoded(FromUrl, s) == "/"
  {
    hide Decoded, HexPair;
    SlashPair(f);
    One(FromUrl, s, "/");
  }

  lemma SlashPair(f: Char)
    requires f == 'f' || f == 'F'
    ensures HexPair('2', f) == '/'
  {
    hide Or, HexPair;
    HexPairOfDigits('2', f);
  }

  /** The digits may be in either case; a plus sign is a space. */
  lemma UrlRead(s: Text, t: Text, plus: Text)
    requires s == "%2f" && t == "%2F" && plus == "+"
    ensures Decoded(FromUrl, s) == "/" && Decoded(FromUrl, t) == "/" && Decoded(FromUrl, plus) == " "
  {
    hide Decoded;
    SlashRead(s, 'f');
    SlashRead(t, 'F');
    One(FromUrl, plus, " ");
  }

  lemma Rest(d: Decoder, s: Text, out: Text, used: nat, more: Text)
    requires s != [] && Read(d, s) == Emit(out, used) && Decoded(d, s[used..]) == more
    ensures Decoded(d, s) == out + more
  {
    hide Read;
  }

  /** An escape that is cut off at the end stands for itself. */
  lemma CutOff(s: Text, t: Text)
    requires s == "%2" && t == "a%"
    ensures Decoded(FromUrl, s) == "%2" && Decoded(FromHex('%'), s) == "%2" && Decoded(FromEscape('%'), t) == "a%"
  {
    hide Decoded;
    assert s[1..] == ['2'] && t[1..] == ['%'];
    One(FromUrl, s[1..], "2");
    Rest(FromUrl, s, "%", 1, "2");
    One(FromHex('%'), s[1..], "2");
    Rest(FromHex('%'), s, "%", 1, "2");
    One(FromEscape('%'), t[1..], "%");
    Rest(FromEscape('%'), t, "a", 1, "%");
  }

  /** xml_decode stops at an ampersand that it cannot read. */
  lemma Stops(s: Text)
    requires s == "a&b"
    ensures Decoded(FromXml, s) == "a"
  {
    var t: Text := "&b";
    assert s[1..] == t && t[1] == 'b';
    assert Read(FromXml, t) == Stop by { NoName(t, "lt;"); NoName(t, "gt;"); NoName(t, "apos;"); NoName(t, "quot;"); NoName(t, "amp;"); }
    assert Decoded(FromXml, t) == [];
    hide Decoded;
    Rest(FromXml, s, "a", 1, []);
  }

  // ----- Numbers -----

  lemma Longer(base: nat, s: Text, c: Char, v: nat)
    requires (forall i :: 0 <= i < |s| ==> IsDigitIn(base, s[i])) && IsDigitIn(base, c)
    requires base * Number(base, s) + HexDecode(c) == v
    ensures Number(base, s + [c]) == v
  {
    assert (s + [c])[..|s|] == s;
  }

  lemma DecimalNumber(s: Text)
    requires s == "8364"
    ensures (forall i :: 0 <= i < |s| ==> IsDigitIn(10, s[i])) && Number(10, s) == 8364 <= MAX_RUNE
  {
    hide Number;
    assert Number(10, []) == 0 by { NoDigits(10); }
    Longer(10, [], '8', 8);
    assert [] + ['8'] == ['8'];
    Longer(10, ['8'], '3', 83);
    assert ['8'] + ['3'] == ['8', '3'];
    Longer(10, ['8', '3'], '6', 836);
    assert ['8', '3'] + ['6'] == ['8', '3', '6'];
    Longer(10, ['8', '3', '6'], '4', 8364);
    assert ['8', '3', '6'] + ['4'] == s;
  }

  lemma HexNumber(s: Text)
    requires s == "20aC"
    ensures (forall i :: 0 <= i < |s| ==> IsDigitIn(16, s[i])) && Number(16, s) == 8364 <= MAX_RUNE
  {
    hide Number;
    assert Number(16, []) == 0 by { NoDigits(16); }
    Longer(16, [], '2', 0x2);
    assert [] + ['2'] == ['2'];
    Longer(16, ['2'], '0', 0x20);
    assert ['2'] + ['0'] == ['2', '0'];
    Longer(16, ['2', '0'], 'a', 0x20a);
    assert ['2', '0'] + ['a'] == ['2', '0', 'a'];
    Longer(16, ['2', '0', 'a'], 'C', 0x20ac);
    assert ['2', '0', 'a'] + ['C'] == s;
  }

  lemma NoDigits(base: nat)
    ensures Number(base, []) == 0
  {
  }

  /** A reference that makes up the whole text. */
  lemma ReferenceRead(s: Text, base: nat, from: nat, digits: Text)
    requires (base == 10 && from == 2) || (base == 16 && from == 3)
    requires |s| == from + |digits| + 1 && s[0] == '&' && s[1] == '#' && (base == 16 <==> s[2] == 'x')
    requires s[from..][..|digits|] == digits && s[from + |digits|] == ';' && digits != []
    requires (forall i :: 0 <= i < |digits| ==> IsDigitIn(base, digits[i])) && Number(base, digits) <= MAX_RUNE
    ensures Decoded(FromXml, s) == Utf8(Number(base, digits))
  {
    hide Number, Utf8, Decoded, HexDecode, IsDigitIn, IsHex;
    var t := s[from..];
    assert t[|digits|] == ';' && !IsDigitIn(base, ';') by { SemicolonIsNone(base); }
    assert forall i :: 0 <= i < |digits| ==> t[i] == digits[i];
    RunIs(base, t, |digits|);
    hide Run;
    assert ReadReference(s) == Emit(Utf8(Number(base, digits)), |s|);
    IsReference(s);
    One(FromXml, s, Utf8(Number(base, digits)));
  }

  lemma SemicolonIsNone(base: nat)
    ensures !IsDigitIn(base, ';')
  {
  }

  lemma IsReference(s: Text)
    requires |s| > 1 && s[0] == '&' && s[1] == '#'
    ensures Read(FromXml, s) == ReadReference(s)
  {
    hide ReadReference;
    NoName(s, "lt;");
    NoName(s, "gt;");
    NoName(s, "apos;");
    NoName(s, "quot;");
    NoName(s, "amp;");
    hide Starts;
  }

  lemma NoName(s: Text, name: Text)
    requires |s| > 1 && name != [] && name[0] != s[1]
    ensures !Starts(s, name)
  {
    assert |s| > |name| ==> s[1..][..|name|][0] == s[1];
  }

  lemma EuroBytes()
    ensures Utf8(8364) == ['\U{E2}', '\U{82}', '\U{AC}']
  {
  }

  /** The euro sign by its decimal number. */
  lemma EuroRead(s: Text)
    requires s == "&#8364;"
    ensures Decoded(FromXml, s) == ['\U{E2}', '\U{82}', '\U{AC}']
  {
    hide *;
    var digits: Text := "8364";
    DecimalNumber(digits);
    EuroBytes();
    assert s[2..][..4] == digits;
    ReferenceRead(s, 10, 2, digits);
  }

  /** And by its hexadecimal number, in digits of either case. */
  lemma EuroReadHex(s: Text)
    requires s == "&#x20aC;"
    ensures Decoded(FromXml, s) == ['\U{E2}', '\U{82}', '\U{AC}']
  {
    hide *;
    var digits: Text := "20aC";
    HexNumber(digits);
    EuroBytes();
    assert s[3..][..4] == digits;
    ReferenceRead(s, 16, 3, digits);
  }

  // ----- html_encode -----

  lemma HtmlOne(s: Text, u: Text)
    requires s != [] && HtmlUnit(s) == u && Used(s) == |s|
    ensures HtmlEncoded(s) == u
  {
    hide HtmlUnit;
    assert s[|s|..] == [];
  }

  lemma HtmlAscii(c: Char, u: Text)
    requires c as int < 0x80 && u == if XmlUnsafe(c) then HtmlEntity(c) else [c]
    ensures HtmlEncoded([c]) == u
  {
    hide XmlUnsafe, HtmlEntity;
    HtmlOne([c], u);
  }

  /** The apostrophe is written as a number, the others by their names. */
  lemma HtmlWritten()
    ensures HtmlEncoded(['<']) == "&lt;" && HtmlEncoded(['>']) == "&gt;" && HtmlEncoded(['&']) == "&amp;"
    ensures HtmlEncoded(['"']) == "&quot;" && HtmlEncoded(['\'']) == "&#39;" && HtmlEncoded(['a']) == "a"
  {
    hide HtmlEncoded;
    HtmlAscii('<', "&lt;");
    HtmlAscii('>', "&gt;");
    HtmlAscii('&', "&amp;");
    HtmlAscii('"', "&quot;");
    HtmlAscii('\'', "&#39;");
    HtmlAscii('a', "a");
  }

  /** A sequence of several bytes is written as the number it stands for. */
  lemma EuroWritten(s: Text)
    requires s == ['\U{E2}', '\U{82}', '\U{AC}']
    ensures HtmlEncoded(s) == "&#8364;"
  {
    EuroBytes();
    Utf8RoundTrip(8364, []);
    assert Utf8(8364) + [] == s;
    assert s[0] as int >= 0x80;
    hide Utf8, Utf8Decode;
    assert Decimal(8364) == "8364";
    HtmlOne(s, "&#8364;");
  }
}

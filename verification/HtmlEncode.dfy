/**
 html_encode, utf8_decode and html_decode of src/base3/stringencode.cc: which texts come back
 when they are encoded and decoded again.
 */
module HtmlEncode {
  import N = NumberConversions
  import opened StringEncode
  import opened StringCodecs

  // ----- UTF-8 -----

  datatype Utf8Reading = Invalid | Rune(value: nat, used: nat)

  predicate IsTrailer(c: Char) { 0x80 <= c as int < 0xC0 }

  /** utf8_decode: the masks of the first byte are tried in order, each behind one more trailer. */
  function Utf8Decode(s: Text): (r: Utf8Reading)
    requires s != []
    ensures r.Rune? ==> r.value <= MAX_RUNE && 1 <= r.used <= |s|
  {
    var b0 := s[0] as int;
    if b0 < 0x80 then Rune(b0, 1)
    else if |s| < 2 || !IsTrailer(s[1]) then Invalid
    else
      var v1 := s[1] as int % 0x40;
      if b0 / 0x20 == 6 then Rune(b0 % 0x20 * 0x40 + v1, 2)
      else if |s| < 3 || !IsTrailer(s[2]) then Invalid
      else
        var v2 := v1 * 0x40 + s[2] as int % 0x40;
        if b0 / 0x10 == 14 then Rune(b0 % 0x10 * 0x1000 + v2, 3)
        else if |s| < 4 || !IsTrailer(s[3]) then Invalid
        else
          var v3 := v2 * 0x40 + s[3] as int % 0x40;
          if b0 / 8 == 30 then Rune(b0 % 8 * 0x4_0000 + v3, 4) else Invalid
  }

  lemma TrailerValue(v: nat)
    ensures IsTrailer(Trailer(v)) && Trailer(v) as int % 0x40 == v % 0x40
  {
  }

  /** A value is the sum of its lowest six bits and the rest; so are the rest and what is above it. */
  lemma SixBits(v: nat)
    requires v <= MAX_RUNE
    ensures v == v / 0x40 * 0x40 + v % 0x40
    ensures v / 0x40 == v / 0x1000 * 0x40 + v / 0x40 % 0x40
    ensures v / 0x1000 == v / 0x4_0000 * 0x40 + v / 0x1000 % 0x40
  {
    assert v / 0x40 / 0x40 == v / 0x1000;
    assert v / 0x1000 / 0x40 == v / 0x4_0000;
  }

  /** The shortest form of a value is read back, whatever follows. */
  lemma Utf8RoundTrip(v: nat, rest: Text)
    requires v <= MAX_RUNE
    ensures Utf8Decode(Utf8(v) + rest) == Rune(v, |Utf8(v)|)
  {
    var s, u := Utf8(v) + rest, Utf8(v);
    assert s[0] == u[0] && (|u| > 1 ==> s[1] == u[1]) && (|u| > 2 ==> s[2] == u[2]) && (|u| > 3 ==> s[3] == u[3]);
    TrailerValue(v);
    TrailerValue(v / 0x40);
    TrailerValue(v / 0x1000);
    SixBits(v);
    var b0 := u[0] as int;
    if |u| == 2 {
      assert b0 / 0x20 == 6 && b0 % 0x20 == v / 0x40;
    } else if |u| == 3 {
      assert b0 / 0x20 == 7 && b0 / 0x10 == 14 && b0 % 0x10 == v / 0x1000;
    } else if |u| == 4 {
      assert b0 / 0x20 == 7 && b0 / 0x10 == 15 && b0 / 8 == 30 && b0 % 8 == v / 0x4_0000;
    }
    hide Trailer, IsTrailer;
  }

  /** The masks of the source as ranges. */
  lemma Masks(b: int)
    requires 0 <= b < 0x100
    ensures (b / 0x20 == 6 <==> 0xC0 <= b < 0xE0) && (b / 0x20 == 6 ==> b % 0x20 == b - 0xC0)
    ensures (b / 0x10 == 14 <==> 0xE0 <= b < 0xF0) && (b / 0x10 == 14 ==> b % 0x10 == b - 0xE0)
    ensures (b / 8 == 30 <==> 0xF0 <= b < 0xF8) && (b / 8 == 30 ==> b % 8 == b - 0xF0)
    ensures 0x80 <= b < 0xC0 ==> b % 0x40 == b - 0x80
  {
  }

  /** What is read is a well-formed sequence, overlong or not, and its bits; anything else is invalid. */
  lemma Utf8DecodeIff(s: Text, v: nat, n: nat)
    requires s != []
    ensures Utf8Decode(s) == Rune(v, n) <==> 1 <= n <= |s| && WellFormed(s[..n]) && Payload(s[..n]) == v
  {
    Masks(s[0] as int);
    if 1 <= n <= |s| {
      if n > 1 { Masks(s[1] as int); }
      if n > 2 { Masks(s[2] as int); }
      if n > 3 { Masks(s[3] as int); }
      var u := s[..n];
      WellFormedIs(u);
      if WellFormed(u) {
        PayloadDigits(u);
      }
    }
    hide Payload, WellFormed;
  }

  /** Reading stays inside the bytes it uses. */
  lemma Utf8Local(s: Text, n: nat)
    requires 0 < n <= |s|
    requires Utf8Decode(s).Rune? ==> Utf8Decode(s).used <= n
    ensures Utf8Decode(s[..n]) == Utf8Decode(s)
  {
  }

  // ----- What is written -----

  /** The value written for the first character; a byte that starts no valid sequence stands for itself. */
  function Value(s: Text): (v: nat)
    requires s != []
    ensures v <= MAX_RUNE
  {
    match Utf8Decode(s)
    case Rune(v, _) => v
    case Invalid => s[0] as int
  }

  function Used(s: Text): (n: nat)
    requires s != []
    ensures 1 <= n <= |s|
  {
    match Utf8Decode(s)
    case Rune(_, used) => used
    case Invalid => 1
  }

  /** The entities of html_encode; the apostrophe has a number, not a name. */
  function HtmlEntity(c: Char): (u: Text)
    requires XmlUnsafe(c)
    ensures 4 <= |u| <= 6
  {
    match c
    case '<' => "&lt;"
    case '>' => "&gt;"
    case '\'' => "&#39;"
    case '"' => "&quot;"
    case _ => "&amp;"
  }

  function Decimal(v: nat): (t: Text)
    ensures t == N.Digits(v)
  {
    var d := N.Digits(v);
    assert forall i :: 0 <= i < |d| ==> N.IsDigit(d[i]);
    d
  }

  function Reference(v: nat): Text {
    "&#" + Decimal(v) + ";"
  }

  function HtmlUnit(s: Text): (u: Text)
    requires s != []
    ensures u != []
  {
    if s[0] as int >= 0x80 then Reference(Value(s))
    else if XmlUnsafe(s[0]) then HtmlEntity(s[0])
    else [s[0]]
  }

  function HtmlEncoded(s: Text): Text {
    if s == [] then [] else HtmlUnit(s) + HtmlEncoded(s[Used(s)..])
  }

  /** How much of the source is written when the output may have so many bytes. */
  function HtmlLongest(s: Text, room: nat): (n: nat)
    ensures n <= |s|
    decreases |s|
  {
    if s == [] || |HtmlUnit(s)| > room then 0
    else Used(s) + HtmlLongest(s[Used(s)..], room - |HtmlUnit(s)|)
  }

  /** No number needs more than the eleven chars that are set aside for it with its terminator. */
  lemma ReferenceFits(v: nat)
    requires v <= MAX_RUNE
    ensures |Reference(v)| + 1 <= 11
  {
    assert N.Power10(7) == 10000000;
    N.DigitsLength(v, 7);
  }

  predicate PlainAscii(c: Char) { c as int < 0x80 && !Markup(c) }

  lemma HtmlUnitPlain(s: Text)
    requires s != []
    ensures forall i :: 0 <= i < |HtmlUnit(s)| ==> PlainAscii(HtmlUnit(s)[i])
  {
    var d := Decimal(Value(s));
    assert forall i :: 0 <= i < |d| ==> N.IsDigit(d[i]);
    hide Utf8Decode, N.Digits;
  }

  /** Neither markup nor any byte beyond ASCII gets through html_encode. */
  lemma {:induction false} HtmlEncodedPlain(s: Text)
    ensures forall i :: 0 <= i < |HtmlEncoded(s)| ==> PlainAscii(HtmlEncoded(s)[i])
    decreases |s|
  {
    if s != [] {
      HtmlUnitPlain(s);
      HtmlEncodedPlain(s[Used(s)..]);
      hide PlainAscii, HtmlUnit;
    }
  }

  // ----- Reading it back -----

  lemma {:induction false} NumberIsValue(t: Text)
    requires forall i :: 0 <= i < |t| ==> N.IsDigit(t[i])
    ensures forall i :: 0 <= i < |t| ==> IsDigitIn(10, t[i])
    ensures Number(10, t) == N.Value(t)
  {
    if t != [] {
      NumberIsValue(t[..|t| - 1]);
    }
  }

  lemma ReadDigits(d: Text, rest: Text, s: Text)
    requires d != [] && forall i :: 0 <= i < |d| ==> N.IsDigit(d[i])
    requires |s| > 2 && s[2..] == d + ";" + rest
    requires N.Value(d) <= MAX_RUNE
    ensures ReadReference(s) == Emit(Utf8(N.Value(d)), 2 + |d| + 1)
  {
    hide Run, Number, N.Value, Utf8;
    NumberIsValue(d);
    var t := s[2..];
    assert t[0] == d[0] && t[|d|] == ';' && t[..|d|] == d;
    RunIs(10, t, |d|);
    assert s[2] == t[0] && s[2 + |d|] == t[|d|];
  }

  lemma ReadDecimal(v: nat, rest: Text)
    requires v <= MAX_RUNE
    ensures Read(FromXml, Reference(v) + rest) == Emit(Utf8(v), |Reference(v)|)
  {
    hide N.Digits, N.Value, ReadReference, Utf8;
    var d, s := Decimal(v), Reference(v) + rest;
    N.ValueOfDigits(v);
    assert s[1] == '#' && s[2..] == d + ";" + rest;
    ReadDigits(d, rest, s);
  }

  /** Every unit of the encoder is one turn of the decoder, and gives the shortest form of the value. */
  lemma ReadHtmlUnit(s: Text, rest: Text)
    requires s != []
    ensures Read(FromXml, HtmlUnit(s) + rest) == Emit(Utf8(Value(s)), |HtmlUnit(s)|)
  {
    var c := s[0];
    if c as int >= 0x80 {
      ReadDecimal(Value(s), rest);
    } else if c == '\'' {
      var d: Text := "39";
      assert N.Digits(39) == N.Digits(3) + ['9'] == d;
      assert Reference(39) == HtmlUnit(s);
      ReadDecimal(39, rest);
    } else if XmlUnsafe(c) {
      assert HtmlEntity(c) == Entity(c);
      ReadEntity(c, rest);
    }
    hide ReadReference, Starts;
  }

  /** The text with every character in its shortest form. */
  function Normal(s: Text): Text {
    if s == [] then [] else Utf8(Value(s)) + Normal(s[Used(s)..])
  }

  lemma {:induction false} HtmlReadBack(s: Text)
    ensures Decoded(FromXml, HtmlEncoded(s)) == Normal(s)
    decreases |s|
  {
    if s != [] {
      var u, rest := HtmlUnit(s), HtmlEncoded(s[Used(s)..]);
      ReadHtmlUnit(s, rest);
      assert (u + rest)[|u|..] == rest;
      HtmlReadBack(s[Used(s)..]);
    }
  }

  // ----- Which texts come back -----

  function Runes(vs: seq<nat>): Text
    requires forall i :: 0 <= i < |vs| ==> vs[i] <= MAX_RUNE
  {
    if vs == [] then [] else Utf8(vs[0]) + Runes(vs[1..])
  }

  /** A sequence of characters, each in its shortest form. */
  ghost predicate Shortest(s: Text) {
    exists vs: seq<nat> :: (forall i :: 0 <= i < |vs| ==> vs[i] <= MAX_RUNE) && s == Runes(vs)
  }

  lemma ShortestStep(s: Text)
    requires s != []
    ensures Shortest(s) <==> Utf8(Value(s)) == s[..Used(s)] && Shortest(s[Used(s)..])
  {
    hide Utf8, Utf8Decode;
    if Shortest(s) {
      ShortestHead(s);
    }
    if Utf8(Value(s)) == s[..Used(s)] && Shortest(s[Used(s)..]) {
      ShortestCons(s);
    }
  }

  lemma ShortestHead(s: Text)
    requires s != [] && Shortest(s)
    ensures Utf8(Value(s)) == s[..Used(s)] && Shortest(s[Used(s)..])
  {
    hide Utf8, Utf8Decode;
    var vs: seq<nat> :| (forall i :: 0 <= i < |vs| ==> vs[i] <= MAX_RUNE) && s == Runes(vs);
    Utf8RoundTrip(vs[0], Runes(vs[1..]));
    assert s[Used(s)..] == Runes(vs[1..]);
  }

  lemma ShortestCons(s: Text)
    requires s != [] && Utf8(Value(s)) == s[..Used(s)] && Shortest(s[Used(s)..])
    ensures Shortest(s)
  {
    hide Utf8, Utf8Decode, Value, Used;
    {
      var vs: seq<nat> :| (forall i :: 0 <= i < |vs| ==> vs[i] <= MAX_RUNE) && s[Used(s)..] == Runes(vs);
      var all: seq<nat> := [Value(s)] + vs;
      assert all[1..] == vs;
      assert s == Runes(all);
    }
  }

  lemma NothingIsShortest()
    ensures Shortest([])
  {
    var none: seq<nat> := [];
    assert Runes(none) == [];
  }

  /** A text that begins with the shortest form of its first character begins with nothing else. */
  lemma FirstAgrees(s: Text)
    requires s != [] && Utf8(Value(s)) <= s
    ensures Utf8(Value(s)) == s[..Used(s)]
  {
    hide Utf8, Utf8Decode;
    var x := Utf8(Value(s));
    assert s == x + s[|x|..];
    Utf8RoundTrip(Value(s), s[|x|..]);
  }

  lemma NormalStep(s: Text)
    requires s != []
    ensures Normal(s) == s <==> Utf8(Value(s)) == s[..Used(s)] && Normal(s[Used(s)..]) == s[Used(s)..]
  {
    hide Utf8, Utf8Decode, Value, Used;
    var x, rest := Utf8(Value(s)), s[Used(s)..];
    assert Normal(s) == x + Normal(rest);
    assert s == s[..Used(s)] + rest;
    if x + Normal(rest) == s {
      FirstAgrees(s);
    }
  }

  lemma {:induction false} NormalIff(s: Text)
    ensures Normal(s) == s <==> Shortest(s)
    decreases |s|
  {
    hide Shortest, Value, Used, Utf8;
    if s == [] {
      NothingIsShortest();
    } else {
      NormalStep(s);
      ShortestStep(s);
      NormalIff(s[Used(s)..]);
    }
  }

  /** html_decode undoes html_encode exactly on the texts in shortest form, up to 0x1FFFFF. */
  lemma HtmlRoundTripIff(s: Text)
    ensures Decoded(FromXml, HtmlEncoded(s)) == s <==> Shortest(s)
  {
    HtmlReadBack(s);
    NormalIff(s);
  }

  /** A Latin-1 letter alone is one of the others: it comes back as two bytes. */
  lemma Latin1Changes()
    ensures Decoded(FromXml, HtmlEncoded(['\U{E9}'])) == ['\U{C3}', '\U{A9}']
  {
    var s: Text := ['\U{E9}'];
    HtmlReadBack(s);
    assert Normal(s) == Utf8(0xE9) by {
      assert Utf8Decode(s) == Invalid && s[Used(s)..] == [];
    }
    hide *;
    assert Utf8(0xE9) == ['\U{C3}', '\U{A9}'] by { Utf8OfLatin1(); }
  }

  lemma Utf8OfLatin1()
    ensures Utf8(0xE9) == ['\U{C3}', '\U{A9}']
  {
  }

  // ----- The encoding loop -----

  /** The source that is left when n bytes are cut off reads the same up to there. */
  lemma UnitLocal(s: Text, n: nat)
    requires s != [] && Used(s) <= n <= |s|
    ensures HtmlUnit(s[..n]) == HtmlUnit(s) && Used(s[..n]) == Used(s)
  {
    Utf8Local(s, n);
    hide Utf8Decode;
  }

  function HtmlWritten(s: Text, room: nat): (t: Text)
    ensures |t| <= room
    decreases |s|
  {
    if s == [] || |HtmlUnit(s)| > room then []
    else HtmlUnit(s) + HtmlWritten(s[Used(s)..], room - |HtmlUnit(s)|)
  }

  lemma HtmlEncodedStep(s: Text)
    requires s != []
    ensures HtmlEncoded(s) == HtmlUnit(s) + HtmlEncoded(s[Used(s)..])
  {
    hide HtmlUnit, Used;
  }

  /**
   What fits into the room is the encoding of a prefix, cut between characters; the prefix is
   the whole text, or one more character would not fit.
   */
  lemma {:induction false} HtmlCut(s: Text, room: nat)
    ensures HtmlWritten(s, room) == HtmlEncoded(s[..HtmlLongest(s, room)])
    ensures
      var n := HtmlLongest(s, room);
      n == |s| || |HtmlWritten(s, room)| + |HtmlUnit(s[n..])| > room
    decreases |s|
  {
    hide HtmlUnit, Used;
    if s == [] || |HtmlUnit(s)| > room {
      assert s[..0] == [] && s[0..] == s;
    } else {
      hide HtmlEncoded;
      var used, n := Used(s), HtmlLongest(s, room);
      var rest := s[used..];
      HtmlCut(rest, room - |HtmlUnit(s)|);
      UnitLocal(s, n);
      HtmlEncodedStep(s[..n]);
      assert s[..n][used..] == rest[..n - used];
      assert s[n..] == rest[n - used..];
    }
  }

  lemma {:induction false} AllFits(s: Text, room: nat)
    requires |HtmlEncoded(s)| <= room
    ensures HtmlLongest(s, room) == |s|
    decreases |s|
  {
    hide HtmlUnit;
    if s != [] {
      AllFits(s[Used(s)..], room - |HtmlUnit(s)|);
    }
  }

  /** The cells hold what fits, then NUL, then what they held before. */
  ghost predicate HoldsHtml(src: Text, buflen: nat, was: Text, cells: Text, len: nat) {
    && |cells| == |was|
    && if buflen == 0 then len == 0 && cells == was
       else
         && len < buflen <= |cells|
         && cells[..len] == HtmlEncoded(src[..HtmlLongest(src, buflen - 1)])
         && cells[len] == NUL
         && cells[len + 1..] == was[len + 1..]
  }

  ghost predicate HtmlWriting(src: Text, buflen: nat, was: Text, cells: Text, i: nat, bufpos: nat) {
    && bufpos < buflen <= |cells| == |was|
    && i <= |src|
    && cells[..bufpos] + HtmlWritten(src[i..], buflen - 1 - bufpos) == HtmlWritten(src, buflen - 1)
    && cells[bufpos..] == was[bufpos..]
  }

  lemma HtmlBegin(src: Text, buflen: nat, was: Text)
    requires 0 < buflen <= |was|
    ensures HtmlWriting(src, buflen, was, was, 0, 0)
  {
    assert src[0..] == src;
  }

  lemma HtmlMove(src: Text, buflen: nat, was: Text, cells: Text, i: nat, bufpos: nat, after: Text, j: nat, next: nat)
    requires HtmlWriting(src, buflen, was, cells, i, bufpos) && i < |src|
    requires
      var u := HtmlUnit(src[i..]);
      j == i + Used(src[i..]) && next == bufpos + |u| < buflen && after == Splice(cells, bufpos, u)
    ensures HtmlWriting(src, buflen, was, after, j, next)
  {
    hide HtmlUnit, Used;
    var u := HtmlUnit(src[i..]);
    assert src[i..][Used(src[i..])..] == src[j..];
    assert after[..next] == cells[..bufpos] + u;
    assert after[next..] == cells[bufpos..][|u|..] == was[bufpos..][|u|..] == was[next..];
  }

  lemma HtmlEnd(src: Text, buflen: nat, was: Text, cells: Text, i: nat, bufpos: nat)
    requires HtmlWriting(src, buflen, was, cells, i, bufpos)
    requires i < |src| ==> bufpos + |HtmlUnit(src[i..])| >= buflen
    ensures HoldsHtml(src, buflen, was, cells[bufpos := NUL], bufpos)
  {
    hide HtmlUnit, Used;
    HtmlCut(src, buflen - 1);
    assert cells[bufpos := NUL][bufpos + 1..] == cells[bufpos..][1..] == was[bufpos + 1..];
  }

  /** The unit at one position, and where the source goes on. */
  method NextUnit(source: array<Char>, from: nat, srclen: nat) returns (unit: Text, srcpos: nat)
    requires from < srclen <= source.Length
    ensures unit == HtmlUnit(source[from..srclen]) && srcpos == from + Used(source[from..srclen])
  {
    var s := source[from..srclen];
    var ch := source[from];
    srcpos := from;
    if ch as int < 0x80 {
      srcpos := srcpos + 1;
      if XmlUnsafe(ch) {
        unit := HtmlEntity(ch);
      } else {
        unit := [ch];
      }
    } else {
      var val;
      match Utf8Decode(s) {
        case Rune(v, vallen) =>
          val := v;
          srcpos := srcpos + vallen;
        case Invalid =>
          val := ch as int;
          srcpos := srcpos + 1;
      }
      unit := Reference(val);
      ReferenceFits(val);
    }
  }

  method HtmlEncode(buffer: array<Char>, buflen: nat, source: array<Char>, srclen: nat) returns (len: nat)
    requires buflen <= buffer.Length && srclen <= source.Length && buffer != source
    modifies buffer
    ensures HoldsHtml(source[..srclen], buflen, old(buffer[..]), buffer[..], len)
  {
    if buflen <= 0 {
      return 0;
    }
    ghost var src, was := source[..srclen], buffer[..];
    ghost var taken, cells := 0, was;
    hide HtmlWritten, HtmlUnit, Used, Splice;
    var srcpos: nat, bufpos: nat := 0, 0;
    HtmlBegin(src, buflen, was);
    while srcpos < srclen && bufpos + 1 < buflen
      invariant taken == srcpos <= srclen && bufpos < buflen
      invariant HtmlWriting(src, buflen, was, cells, srcpos, bufpos) && cells == buffer[..]
    {
      ghost var at := bufpos;
      assert source[srcpos..srclen] == src[srcpos..];
      var unit;
      unit, srcpos := NextUnit(source, srcpos, srclen);
      if bufpos + |unit| >= buflen {
        break;
      }
      bufpos := Store(buffer, bufpos, unit);
      HtmlMove(src, buflen, was, cells, taken, at, buffer[..], srcpos, bufpos);
      taken, cells := srcpos, buffer[..];
    }
    HtmlEnd(src, buflen, was, cells, taken, bufpos);
    buffer[bufpos] := NUL;
    return bufpos;
  }

  lemma RoomForAll(src: Text, size: nat)
    requires |HtmlEncoded(src)| < size
    ensures src[..HtmlLongest(src, size - 1)] == src
    ensures DecodedIn(FromXml, HtmlEncoded(src), size) == Normal(src) && |Normal(src)| < size
  {
    hide HtmlEncoded, HtmlLongest, HtmlWritten, Decoded, DecodedIn, Normal, HtmlUnit;
    AllFits(src, size - 1);
    HtmlReadBack(src);
    assert |Decoded(FromXml, HtmlEncoded(src))| <= |HtmlEncoded(src)|;
    DecodedPrefix(FromXml, HtmlEncoded(src), size);
  }

  /** With room for the whole, encoding and then decoding in place brings a text in shortest form back. */
  method HtmlThereAndBack(buffer: array<Char>, source: array<Char>) returns (len: nat)
    requires buffer != source && |HtmlEncoded(source[..])| < buffer.Length
    modifies buffer
    ensures len < buffer.Length && buffer[..len] == Normal(source[..])
    ensures buffer[..len] == source[..] <==> Shortest(source[..])
  {
    hide HtmlEncoded, HtmlLongest, HtmlUnit, DecodedIn, Read, Normal, Shortest, Runes, Value, Used, Utf8, Utf8Decode;
    ghost var src, size := source[..], buffer.Length;
    assert source[..source.Length] == src;
    RoomForAll(src, size);
    NormalIff(src);
    var n := HtmlEncode(buffer, buffer.Length, source, source.Length);
    assert buffer[..n] == HtmlEncoded(src);
    len := HtmlDecode(buffer, buffer.Length, buffer, n);
  }
}

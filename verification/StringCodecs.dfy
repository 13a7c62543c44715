/**
 The loops of src/base3/stringencode.cc and src/base3/escape.h over char buffers, against
 the functions of StringEncode. A decoder may be given the same buffer twice; an
 encoder may not.
 */
module StringCodecs {
  import opened Basics
  import opened StringEncode

  // ----- Buffers -----

  /** The cells after some were overwritten. */
  ghost function Splice(cells: Text, at: nat, unit: Text): (after: Text)
    requires at + |unit| <= |cells|
    ensures |after| == |cells|
  {
    cells[..at] + unit + cells[at + |unit|..]
  }

  /** Writes some characters one after the other and moves the position behind them. */
  method Store(buffer: array<Char>, at: nat, unit: Text) returns (next: nat)
    requires at + |unit| <= buffer.Length
    modifies buffer
    ensures next == at + |unit|
    ensures buffer[..] == Splice(old(buffer[..]), at, unit)
  {
    var k := 0;
    while k < |unit|
      invariant k <= |unit|
      invariant buffer[..] == Splice(old(buffer[..]), at, unit[..k])
    {
      buffer[at + k] := unit[k];
      k := k + 1;
    }
    assert unit[..|unit|] == unit;
    return at + |unit|;
  }

  // ----- Encoders -----

  /** The cells hold the encoding of the longest prefix that fits, then NUL, then what they held before. */
  ghost predicate HoldsEncoded(e: Encoder, src: Text, buflen: nat, was: Text, cells: Text, len: nat) {
    && |cells| == |was|
    && if buflen == 0 then len == 0 && cells == was
       else
         && len < buflen <= |cells|
         && cells[..len] == Encoded(e, src[..Longest(e, src, buflen - 1)])
         && cells[len] == NUL
         && cells[len + 1..] == was[len + 1..]
  }

  /** The encoding of the first i characters is written, and it is still to be seen how many more fit. */
  ghost predicate Writing(e: Encoder, src: Text, buflen: nat, was: Text, cells: Text, i: nat, bufpos: nat) {
    && bufpos < buflen <= |cells| == |was|
    && i <= |src|
    && cells[..bufpos] == Encoded(e, src[..i])
    && cells[bufpos..] == was[bufpos..]
    && Longest(e, src, buflen - 1) == i + Longest(e, src[i..], buflen - 1 - bufpos)
  }

  lemma EncodedStep(e: Encoder, s: Text, i: nat)
    requires i < |s|
    ensures Encoded(e, s[..i + 1]) == Encoded(e, s[..i]) + e.Unit(s[i])
  {
    hide Encoder.Unit;
    var one: Text := [s[i]];
    assert s[..i + 1] == s[..i] + one && one[1..] == [];
    EncodedAppend(e, s[..i], one);
    assert Encoded(e, one) == e.Unit(s[i]) + Encoded(e, one[1..]) == e.Unit(s[i]);
  }

  lemma WriteUnit(e: Encoder, src: Text, buflen: nat, was: Text, cells: Text, i: nat, bufpos: nat, after: Text, next: nat)
    requires Writing(e, src, buflen, was, cells, i, bufpos) && i < |src|
    requires next == bufpos + |e.Unit(src[i])| < buflen && after == Splice(cells, bufpos, e.Unit(src[i]))
    ensures Writing(e, src, buflen, was, after, i + 1, next)
  {
    hide Encoder.Unit;
    var u := e.Unit(src[i]);
    EncodedStep(e, src, i);
    assert src[i..][1..] == src[i + 1..];
    assert after[..next] == cells[..bufpos] + u;
    assert after[next..] == cells[bufpos..][|u|..] == was[bufpos..][|u|..] == was[next..];
  }

  /** The loop ends when the text does, or when the next unit leaves no room for NUL. */
  lemma WriteEnd(e: Encoder, src: Text, buflen: nat, was: Text, cells: Text, i: nat, bufpos: nat)
    requires Writing(e, src, buflen, was, cells, i, bufpos)
    requires i < |src| ==> bufpos + |e.Unit(src[i])| >= buflen
    ensures HoldsEncoded(e, src, buflen, was, cells[bufpos := NUL], bufpos)
  {
    assert cells[bufpos := NUL][bufpos + 1..] == cells[bufpos..][1..] == was[bufpos + 1..];
  }

  lemma WriteBegin(e: Encoder, src: Text, buflen: nat, was: Text)
    requires 0 < buflen <= |was|
    ensures Writing(e, src, buflen, was, was, 0, 0)
  {
    assert src[0..] == src;
  }

  method Escape(buffer: array<Char>, buflen: nat, source: array<Char>, srclen: nat, illegal: Text, esc: Char)
    returns (len: nat)
    requires buflen <= buffer.Length && srclen <= source.Length && buffer != source
    modifies buffer
    ensures HoldsEncoded(EscapeWith(illegal, esc), source[..srclen], buflen, old(buffer[..]), buffer[..], len)
  {
    if buflen <= 0 {
      return 0;
    }
    ghost var e, src, was := EscapeWith(illegal, esc), source[..srclen], buffer[..];
    ghost var taken, cells := 0, was;
    hide Encoded, Longest, Splice;
    var srcpos: nat, bufpos: nat := 0, 0;
    WriteBegin(e, src, buflen, was);
    while srcpos < srclen && bufpos + 1 < buflen
      invariant taken == srcpos <= srclen && bufpos < buflen
      invariant Writing(e, src, buflen, was, cells, srcpos, bufpos) && cells == buffer[..]
    {
      var ch := source[srcpos];
      ghost var at, unit := bufpos, e.Unit(ch);
      assert unit == e.Unit(src[taken]);
      hide Encoder.Unit;
      srcpos := srcpos + 1;
      if ch == esc || InList(illegal, ch) {
        if bufpos + 2 >= buflen {
          break;
        }
        bufpos := Store(buffer, bufpos, [esc, ch]);
      } else {
        bufpos := Store(buffer, bufpos, [ch]);
      }
      assert buffer[..] == Splice(cells, at, unit) && bufpos == at + |unit|;
      WriteUnit(e, src, buflen, was, cells, taken, at, buffer[..], bufpos);
      taken, cells := taken + 1, buffer[..];
    }
    WriteEnd(e, src, buflen, was, cells, taken, bufpos);
    buffer[bufpos] := NUL;
    return bufpos;
  }

  method Encode(buffer: array<Char>, buflen: nat, source: array<Char>, srclen: nat, illegal: Text, esc: Char)
    returns (len: nat)
    requires buflen <= buffer.Length && srclen <= source.Length && buffer != source
    modifies buffer
    ensures HoldsEncoded(HexWith(illegal, esc), source[..srclen], buflen, old(buffer[..]), buffer[..], len)
  {
    if buflen <= 0 {
      return 0;
    }
    ghost var e, src, was := HexWith(illegal, esc), source[..srclen], buffer[..];
    ghost var taken, cells := 0, was;
    hide Encoded, Longest, Splice, HexEncode;
    var srcpos: nat, bufpos: nat := 0, 0;
    WriteBegin(e, src, buflen, was);
    while srcpos < srclen && bufpos + 1 < buflen
      invariant taken == srcpos <= srclen && bufpos < buflen
      invariant Writing(e, src, buflen, was, cells, srcpos, bufpos) && cells == buffer[..]
    {
      var ch := source[srcpos];
      ghost var at, unit := bufpos, e.Unit(ch);
      assert unit == e.Unit(src[taken]);
      hide Encoder.Unit;
      srcpos := srcpos + 1;
      if ch != esc && !InList(illegal, ch) {
        bufpos := Store(buffer, bufpos, [ch]);
      } else if bufpos + 3 >= buflen {
        break;
      } else {
        bufpos := Store(buffer, bufpos, [esc, HexEncode(ch as int / 16), HexEncode(ch as int % 16)]);
      }
      assert buffer[..] == Splice(cells, at, unit) && bufpos == at + |unit|;
      WriteUnit(e, src, buflen, was, cells, taken, at, buffer[..], bufpos);
      taken, cells := taken + 1, buffer[..];
    }
    WriteEnd(e, src, buflen, was, cells, taken, bufpos);
    buffer[bufpos] := NUL;
    return bufpos;
  }

  /** Without a buffer, an upper bound of the space needed. */
  method UrlEncode(buffer: array?<Char>, buflen: nat, source: array<Char>, srclen: nat) returns (len: nat)
    requires buffer != null ==> buflen <= buffer.Length
    requires srclen <= source.Length && buffer != source
    modifies buffer
    ensures buffer == null ==> len == srclen * 3 + 1 && len > |Encoded(ForUrl, source[..srclen])|
    ensures buffer != null ==> HoldsEncoded(ForUrl, source[..srclen], buflen, old(buffer[..]), buffer[..], len)
  {
    if buffer == null {
      UrlLength(source[..srclen]);
      return srclen * 3 + 1;
    }
    if buflen <= 0 {
      return 0;
    }
    ghost var e, src, was := ForUrl, source[..srclen], buffer[..];
    ghost var taken, cells := 0, was;
    hide Encoded, Longest, Splice, HexEncode, UrlUnsafe;
    var srcpos: nat, bufpos: nat := 0, 0;
    WriteBegin(e, src, buflen, was);
    while srcpos < srclen && bufpos + 1 < buflen
      invariant taken == srcpos <= srclen && bufpos < buflen
      invariant Writing(e, src, buflen, was, cells, srcpos, bufpos) && cells == buffer[..]
    {
      var ch := source[srcpos];
      ghost var at, unit := bufpos, e.Unit(ch);
      assert unit == e.Unit(src[taken]);
      hide Encoder.Unit;
      srcpos := srcpos + 1;
      if UrlUnsafe(ch) {
        if bufpos + 3 >= buflen {
          break;
        }
        bufpos := Store(buffer, bufpos, ['%', HexEncode(ch as int / 16), HexEncode(ch as int % 16)]);
      } else {
        bufpos := Store(buffer, bufpos, [ch]);
      }
      assert buffer[..] == Splice(cells, at, unit) && bufpos == at + |unit|;
      WriteUnit(e, src, buflen, was, cells, taken, at, buffer[..], bufpos);
      taken, cells := taken + 1, buffer[..];
    }
    WriteEnd(e, src, buflen, was, cells, taken, bufpos);
    buffer[bufpos] := NUL;
    return bufpos;
  }

  lemma {:induction false} UrlLength(s: Text)
    ensures |Encoded(ForUrl, s)| <= 3 * |s| && |Encoded(ForQuery, s)| <= 3 * |s|
  {
    if s != [] {
      UrlLength(s[1..]);
    }
  }

  lemma XmlUnit(ch: Char)
    ensures ForXml.Unit(ch) == if XmlUnsafe(ch) then Entity(ch) else [ch]
  {
  }

  method XmlEncode(buffer: array<Char>, buflen: nat, source: array<Char>, srclen: nat) returns (len: nat)
    requires buflen <= buffer.Length && srclen <= source.Length && buffer != source
    modifies buffer
    ensures HoldsEncoded(ForXml, source[..srclen], buflen, old(buffer[..]), buffer[..], len)
  {
    if buflen <= 0 {
      return 0;
    }
    ghost var e, src, was := ForXml, source[..srclen], buffer[..];
    ghost var taken, cells := 0, was;
    hide Encoded, Longest, Splice, XmlUnsafe, Entity, Encoder.Unit;
    var srcpos: nat, bufpos: nat := 0, 0;
    WriteBegin(e, src, buflen, was);
    while srcpos < srclen && bufpos + 1 < buflen
      invariant taken == srcpos <= srclen && bufpos < buflen
      invariant Writing(e, src, buflen, was, cells, srcpos, bufpos) && cells == buffer[..]
    {
      var ch := source[srcpos];
      ghost var at, unit := bufpos, e.Unit(ch);
      assert unit == e.Unit(src[taken]);
      XmlUnit(ch);
      srcpos := srcpos + 1;
      if XmlUnsafe(ch) {
        var escseq := Entity(ch);
        if bufpos + |escseq| >= buflen {
          break;
        }
        bufpos := Store(buffer, bufpos, escseq);
      } else {
        bufpos := Store(buffer, bufpos, [ch]);
      }
      assert buffer[..] == Splice(cells, at, unit) && bufpos == at + |unit|;
      WriteUnit(e, src, buflen, was, cells, taken, at, buffer[..], bufpos);
      taken, cells := taken + 1, buffer[..];
    }
    WriteEnd(e, src, buflen, was, cells, taken, bufpos);
    buffer[bufpos] := NUL;
    return bufpos;
  }

  // ----- UrlQueryEscape -----

  lemma {:induction false} QueryHasNoNul(s: Text)
    ensures NUL !in Encoded(ForQuery, s)
  {
    if s != [] {
      QueryHasNoNul(s[1..]);
    }
  }

  method UrlQueryEscape(s: Text) returns (ret: Text)
    ensures ret == Encoded(ForQuery, s)
  {
    var out := new Char[|s| * 3 + 1];
    var i: nat, j: nat := 0, 0;
    hide Encoded;
    assert s[..0] == [] && Encoded(ForQuery, []) == [] by { assert |Encoded(ForQuery, [])| <= 0 by { UrlLength([]); } }
    while i < |s|
      invariant i <= |s| && j <= 3 * i && out[..j] == Encoded(ForQuery, s[..i])
    {
      EncodedStep(ForQuery, s, i);
      ghost var cells, at, unit := out[..], j, ForQuery.Unit(s[i]);
      hide Encoder.Unit;
      var c := s[i];
      if c == ' ' {
        j := Store(out, j, ['+']);
      } else if QuerySafe(c) {
        j := Store(out, j, [c]);
      } else {
        j := Store(out, j, ['%', UpperHex(c as int / 16), UpperHex(c as int % 16)]);
      }
      assert out[..] == Splice(cells, at, unit);
      assert out[..j] == cells[..at] + unit;
      i := i + 1;
    }
    out[j] := NUL;
    assert s[..i] == s;
    QueryHasNoNul(s);
    CStringUpTo(out[..], NUL, j);
    return CString(out[..], NUL);
  }

  // ----- Decoders -----

  /**
   The cells hold what the decoder makes of the text, then NUL, then what they held before.
   Only the XML decoder may fill the buffer to its end; NUL is then due in the cell behind it.
   */
  ghost predicate HoldsDecoded(d: Decoder, src: Text, buflen: nat, was: Text, cells: Text, len: nat) {
    && |cells| == |was|
    && if buflen == 0 then len == 0 && cells == was
       else
         && len <= buflen <= |cells|
         && (!d.FromXml? ==> len < buflen)
         && cells[..len] == DecodedIn(d, src, buflen)
         && (len < |cells| ==> cells[len] == NUL && cells[len + 1..] == was[len + 1..])
  }

  /** What is written and what is still to be read make up the whole; writing never overtakes reading. */
  ghost predicate Reading(d: Decoder, src: Text, buflen: nat, was: Text, cells: Text, i: nat, bufpos: nat) {
    && bufpos <= i <= |src|
    && bufpos <= buflen <= |cells| == |was|
    && cells[..bufpos] + DecodedIn(d, src[i..], buflen - bufpos) == DecodedIn(d, src, buflen)
    && cells[bufpos..] == was[bufpos..]
  }

  lemma ReadBegin(d: Decoder, src: Text, buflen: nat, was: Text)
    requires buflen <= |was|
    ensures Reading(d, src, buflen, was, was, 0, 0)
  {
    assert src[0..] == src;
  }

  lemma ReadMove(d: Decoder, src: Text, buflen: nat, was: Text, cells: Text, i: nat, bufpos: nat, after: Text, j: nat, next: nat)
    requires Reading(d, src, buflen, was, cells, i, bufpos) && i < |src| && bufpos + 1 < buflen
    requires
      var m := Read(d, src[i..]);
      && m.Emit? && j == i + m.used && next == bufpos + |m.out| <= buflen
      && after == Splice(cells, bufpos, m.out)
    ensures Reading(d, src, buflen, was, after, j, next)
  {
    hide Read;
    var m := Read(d, src[i..]);
    assert src[i..][m.used..] == src[j..];
  }

  lemma ReadEnd(d: Decoder, src: Text, buflen: nat, was: Text, cells: Text, i: nat, bufpos: nat)
    requires Reading(d, src, buflen, was, cells, i, bufpos) && buflen > 0 && (!d.FromXml? ==> bufpos < buflen)
    requires i < |src| && bufpos + 1 < buflen ==>
               var m := Read(d, src[i..]); m.Stop? || bufpos + |m.out| > buflen
    ensures HoldsDecoded(d, src, buflen, was, if bufpos < |cells| then cells[bufpos := NUL] else cells, bufpos)
  {
    hide Read;
    if bufpos < |cells| {
      assert cells[bufpos := NUL][bufpos + 1..] == cells[bufpos..][1..] == was[bufpos + 1..];
    }
  }

  /** In place, what is not yet read is not yet overwritten. */
  lemma Unread(d: Decoder, src: Text, buflen: nat, was: Text, cells: Text, i: nat, bufpos: nat)
    requires Reading(d, src, buflen, was, cells, i, bufpos)
    ensures src <= was ==> cells[i..|src|] == src[i..]
  {
    if src <= was {
      forall k | i <= k < |src| ensures cells[k] == src[k] {
        assert cells[bufpos..][k - bufpos] == was[bufpos..][k - bufpos];
      }
    }
  }

  method Unescape(buffer: array<Char>, buflen: nat, source: array<Char>, srclen: nat, esc: Char) returns (len: nat)
    requires buflen <= buffer.Length && srclen <= source.Length
    modifies buffer
    ensures HoldsDecoded(FromEscape(esc), old(source[..srclen]), buflen, old(buffer[..]), buffer[..], len)
  {
    if buflen <= 0 {
      return 0;
    }
    ghost var d, src, was := FromEscape(esc), source[..srclen], buffer[..];
    ghost var taken, cells := 0, was;
    hide DecodedIn, Splice;
    var srcpos: nat, bufpos: nat := 0, 0;
    ReadBegin(d, src, buflen, was);
    while srcpos < srclen && bufpos + 1 < buflen
      invariant taken == srcpos <= srclen && bufpos < buflen
      invariant Reading(d, src, buflen, was, cells, srcpos, bufpos) && cells == buffer[..]
    {
      Unread(d, src, buflen, was, cells, srcpos, bufpos);
      assert source[srcpos..srclen] == src[srcpos..];
      ghost var at, s := bufpos, src[srcpos..];
      var ch := source[srcpos];
      srcpos := srcpos + 1;
      assert ch == s[0] && (srcpos < srclen ==> source[srcpos] == s[1]);
      if ch == esc && srcpos < srclen {
        ch := source[srcpos];
        srcpos := srcpos + 1;
      }
      bufpos := Store(buffer, bufpos, [ch]);
      ReadMove(d, src, buflen, was, cells, taken, at, buffer[..], srcpos, bufpos);
      taken, cells := srcpos, buffer[..];
    }
    ReadEnd(d, src, buflen, was, cells, srcpos, bufpos);
    buffer[bufpos] := NUL;
    return bufpos;
  }

  method Decode(buffer: array<Char>, buflen: nat, source: array<Char>, srclen: nat, esc: Char) returns (len: nat)
    requires buflen <= buffer.Length && srclen <= source.Length
    modifies buffer
    ensures HoldsDecoded(FromHex(esc), old(source[..srclen]), buflen, old(buffer[..]), buffer[..], len)
  {
    if buflen <= 0 {
      return 0;
    }
    ghost var d, src, was := FromHex(esc), source[..srclen], buffer[..];
    ghost var taken, cells := 0, was;
    hide DecodedIn, Splice, HexPair;
    var srcpos: nat, bufpos: nat := 0, 0;
    ReadBegin(d, src, buflen, was);
    while srcpos < srclen && bufpos + 1 < buflen
      invariant taken == srcpos <= srclen && bufpos < buflen
      invariant Reading(d, src, buflen, was, cells, srcpos, bufpos) && cells == buffer[..]
    {
      Unread(d, src, buflen, was, cells, srcpos, bufpos);
      assert source[srcpos..srclen] == src[srcpos..];
      ghost var at, s := bufpos, src[srcpos..];
      var ch := source[srcpos];
      srcpos := srcpos + 1;
      assert ch == s[0] && (srcpos + 1 < srclen ==> source[srcpos] == s[1] && source[srcpos + 1] == s[2]);
      if ch == esc && srcpos + 1 < srclen {
        bufpos := Store(buffer, bufpos, [HexPair(source[srcpos], source[srcpos + 1])]);
        srcpos := srcpos + 2;
      } else {
        bufpos := Store(buffer, bufpos, [ch]);
      }
      ReadMove(d, src, buflen, was, cells, taken, at, buffer[..], srcpos, bufpos);
      taken, cells := srcpos, buffer[..];
    }
    ReadEnd(d, src, buflen, was, cells, srcpos, bufpos);
    buffer[bufpos] := NUL;
    return bufpos;
  }

  /** Without a buffer, an upper bound of the space needed. */
  method UrlDecode(buffer: array?<Char>, buflen: nat, source: array<Char>, srclen: nat) returns (len: nat)
    requires buffer != null ==> buflen <= buffer.Length
    requires srclen <= source.Length
    modifies buffer
    ensures buffer == null ==> len == srclen + 1 && len > |Decoded(FromUrl, source[..srclen])|
    ensures buffer != null ==> HoldsDecoded(FromUrl, old(source[..srclen]), buflen, old(buffer[..]), buffer[..], len)
  {
    if buffer == null {
      return srclen + 1;
    }
    if buflen <= 0 {
      return 0;
    }
    ghost var d, src, was := FromUrl, source[..srclen], buffer[..];
    ghost var taken, cells := 0, was;
    hide DecodedIn, Splice, HexPair;
    var srcpos: nat, bufpos: nat := 0, 0;
    ReadBegin(d, src, buflen, was);
    while srcpos < srclen && bufpos + 1 < buflen
      invariant taken == srcpos <= srclen && bufpos < buflen
      invariant Reading(d, src, buflen, was, cells, srcpos, bufpos) && cells == buffer[..]
    {
      Unread(d, src, buflen, was, cells, srcpos, bufpos);
      assert source[srcpos..srclen] == src[srcpos..];
      ghost var at, s := bufpos, src[srcpos..];
      var ch := source[srcpos];
      srcpos := srcpos + 1;
      assert ch == s[0] && (srcpos + 1 < srclen ==> source[srcpos] == s[1] && source[srcpos + 1] == s[2]);
      if ch == '+' {
        bufpos := Store(buffer, bufpos, [' ']);
      } else if ch == '%' && srcpos + 1 < srclen {
        bufpos := Store(buffer, bufpos, [HexPair(source[srcpos], source[srcpos + 1])]);
        srcpos := srcpos + 2;
      } else {
        bufpos := Store(buffer, bufpos, [ch]);
      }
      ReadMove(d, src, buflen, was, cells, taken, at, buffer[..], srcpos, bufpos);
      taken, cells := srcpos, buffer[..];
    }
    ReadEnd(d, src, buflen, was, cells, srcpos, bufpos);
    buffer[bufpos] := NUL;
    return bufpos;
  }

  /** Nothing is written when the value is out of range or does not fit. */
  method Utf8Encode(buffer: array<Char>, at: nat, buflen: nat, value: nat) returns (len: nat)
    requires at + buflen <= buffer.Length
    modifies buffer
    ensures value <= MAX_RUNE && |Utf8(value)| <= buflen ==>
              len == |Utf8(value)| && buffer[..] == Splice(old(buffer[..]), at, Utf8(value))
    ensures value > MAX_RUNE || |Utf8(value)| > buflen ==> len == 0 && buffer[..] == old(buffer[..])
  {
    hide Splice;
    len := 0;
    var next := at;
    if value <= 0x7F && buflen >= 1 {
      next := Store(buffer, at, [value as char]);
    } else if value <= 0x7FF && buflen >= 2 {
      next := Store(buffer, at, [(0xC0 + value / 0x40) as char, Trailer(value)]);
    } else if value <= 0xFFFF && buflen >= 3 {
      next := Store(buffer, at, [(0xE0 + value / 0x1000) as char, Trailer(value / 0x40), Trailer(value)]);
    } else if value <= 0x1F_FFFF && buflen >= 4 {
      next := Store(buffer, at, [(0xF0 + value / 0x4_0000) as char,
                                 Trailer(value / 0x1000), Trailer(value / 0x40), Trailer(value)]);
    }
    return next - at;
  }

  /** memcmp of what follows with a name, where that lies inside the source. */
  predicate Follows(source: array<Char>, at: nat, srclen: nat, name: Text)
    requires srclen <= source.Length
    reads source
  {
    at + |name| <= srclen && source[at..at + |name|] == name
  }

  /** One turn at an ampersand that no entity name follows: a character reference, or nothing that can be decoded. */
  method ReadNumber(source: array<Char>, srcpos: nat, srclen: nat) returns (ok: bool, val: nat, next: nat)
    requires 0 < srcpos < srclen <= source.Length && source[srcpos] == '#'
    ensures srcpos <= next <= srclen
    ensures
      ReadReference(source[srcpos - 1..srclen]) ==
      if ok && val <= MAX_RUNE then Emit(Utf8(val), next - (srcpos - 1)) else Stop
  {
    ghost var s := source[srcpos - 1..srclen];
    var base, at := 10, srcpos;
    if srcpos + 1 < srclen && source[srcpos + 1] == 'x' {
      base, at := 16, srcpos + 1;
    }
    assert s[at + 1 - (srcpos - 1)..] == source[at + 1..srclen];
    var digits := source[at + 1..srclen];
    var ptr := at + 1 + Run(base, digits);
    val := Number(base, digits[..Run(base, digits)]);
    assert ptr < srclen ==> s[ptr - (srcpos - 1)] == source[ptr];
    hide Run, Number;
    ok := ptr < srclen && source[ptr] == ';';
    next := if ok then ptr + 1 else srcpos;
  }

  lemma FollowsStarts(source: array<Char>, srcpos: nat, srclen: nat, name: Text)
    requires 0 < srcpos <= srclen <= source.Length
    ensures Follows(source, srcpos, srclen, name) <==> Starts(source[srcpos - 1..srclen], name)
  {
    var s := source[srcpos - 1..srclen];
    assert s[1..] == source[srcpos..srclen];
    if srcpos + |name| <= srclen {
      assert s[1..][..|name|] == source[srcpos..srcpos + |name|];
    }
  }

  /** What one turn of xml_decode finds at the ampersand before srcpos, other than a character reference. */
  method ReadName(source: array<Char>, srcpos: nat, srclen: nat) returns (out: Text, used: nat)
    requires 0 < srcpos <= srclen <= source.Length && source[srcpos - 1] == '&'
    ensures |out| <= 1
    ensures
      var s := source[srcpos - 1..srclen];
      if out != [] then Read(FromXml, s) == Emit(out, 1 + used)
      else Read(FromXml, s) == if |s| > 1 && s[1] == '#' then ReadReference(s) else Stop
  {
    ghost var s := source[srcpos - 1..srclen];
    FollowsStarts(source, srcpos, srclen, "lt;");
    FollowsStarts(source, srcpos, srclen, "gt;");
    FollowsStarts(source, srcpos, srclen, "apos;");
    FollowsStarts(source, srcpos, srclen, "quot;");
    FollowsStarts(source, srcpos, srclen, "amp;");
    hide Starts, Follows, ReadReference;
    if Follows(source, srcpos, srclen, "lt;") {
      return ['<'], 3;
    } else if Follows(source, srcpos, srclen, "gt;") {
      return ['>'], 3;
    } else if Follows(source, srcpos, srclen, "apos;") {
      return ['\''], 5;
    } else if Follows(source, srcpos, srclen, "quot;") {
      return ['"'], 5;
    } else if Follows(source, srcpos, srclen, "amp;") {
      return ['&'], 4;
    }
    return [], 0;
  }

  /** One turn of xml_decode, or the end of the loop. */
  method DecodeTurn(buffer: array<Char>, at: nat, buflen: nat, source: array<Char>, from: nat, srclen: nat)
    returns (go: bool, srcpos: nat, bufpos: nat)
    requires at + 1 < buflen <= buffer.Length && from < srclen <= source.Length
    modifies buffer
    ensures
      var m := Read(FromXml, old(source[from..srclen]));
      if go then
        && m.Emit? && srcpos == from + m.used && bufpos == at + |m.out| <= buflen
        && buffer[..] == Splice(old(buffer[..]), at, m.out)
      else
        (m.Stop? || at + |m.out| > buflen) && bufpos == at && buffer[..] == old(buffer[..])
  {
    ghost var s := source[from..srclen];
    hide Splice, ReadReference;
    var ch := source[from];
    srcpos, bufpos := from + 1, at;
    if ch != '&' {
      bufpos := Store(buffer, at, [ch]);
      return true, srcpos, bufpos;
    }
    var out, used := ReadName(source, srcpos, srclen);
    hide Read;
    if out != [] {
      bufpos := Store(buffer, at, out);
      return true, srcpos + used, bufpos;
    }
    assert srcpos < srclen ==> s[1] == source[srcpos];
    if srcpos < srclen && source[srcpos] == '#' {
      var ok, val, next := ReadNumber(source, srcpos, srclen);
      if !ok {
        return false, srcpos, at;
      }
      var esclen := Utf8Encode(buffer, at, buflen - at, val);
      return esclen > 0, next, at + esclen;
    }
    return false, srcpos, at;
  }

  /**
   A reference that needs several bytes may end at buflen, and then NUL goes behind the
   buffer. The array is the memory the model knows about: a write behind it is left out.
   */
  method XmlDecode(buffer: array<Char>, buflen: nat, source: array<Char>, srclen: nat) returns (len: nat)
    requires buflen <= buffer.Length && srclen <= source.Length
    modifies buffer
    ensures HoldsDecoded(FromXml, old(source[..srclen]), buflen, old(buffer[..]), buffer[..], len)
  {
    if buflen <= 0 {
      return 0;
    }
    ghost var d, src, was := FromXml, source[..srclen], buffer[..];
    ghost var cells := was;
    hide DecodedIn, Splice, Read;
    var srcpos: nat, bufpos: nat := 0, 0;
    ReadBegin(d, src, buflen, was);
    while srcpos < srclen && bufpos + 1 < buflen
      invariant srcpos <= srclen && bufpos <= buflen
      invariant Reading(d, src, buflen, was, cells, srcpos, bufpos) && cells == buffer[..]
    {
      Unread(d, src, buflen, was, cells, srcpos, bufpos);
      assert source[srcpos..srclen] == src[srcpos..];
      var go, i, next := DecodeTurn(buffer, bufpos, buflen, source, srcpos, srclen);
      if !go {
        break;
      }
      ReadMove(d, src, buflen, was, cells, srcpos, bufpos, buffer[..], i, next);
      srcpos, bufpos, cells := i, next, buffer[..];
    }
    ReadEnd(d, src, buflen, was, cells, srcpos, bufpos);
    if bufpos < buffer.Length {
      buffer[bufpos] := NUL;
    }
    return bufpos;
  }

  method HtmlDecode(buffer: array<Char>, buflen: nat, source: array<Char>, srclen: nat) returns (len: nat)
    requires buflen <= buffer.Length && srclen <= source.Length
    modifies buffer
    ensures HoldsDecoded(FromXml, old(source[..srclen]), buflen, old(buffer[..]), buffer[..], len)
  {
    len := XmlDecode(buffer, buflen, source, srclen);
  }

  // ----- s_transform -----

  method SUrlEncode(source: Text) returns (result: Text)
    ensures result == Encoded(ForUrl, source)
  {
    var data := new Char[|source|](i requires 0 <= i < |source| => source[i]);
    assert data[..|source|] == source;
    var maxlen := UrlEncode(null, 0, data, |source|);
    var buffer := new Char[maxlen];
    var len := UrlEncode(buffer, maxlen, data, |source|);
    LongestIsLongest(ForUrl, source, maxlen - 1, |source|);
    assert source[..|source|] == source;
    return buffer[..len];
  }

  method SUrlDecode(source: Text) returns (result: Text)
    ensures result == Decoded(FromUrl, source)
  {
    var data := new Char[|source|](i requires 0 <= i < |source| => source[i]);
    assert data[..|source|] == source;
    var maxlen := UrlDecode(null, 0, data, |source|);
    var buffer := new Char[maxlen];
    var len := UrlDecode(buffer, maxlen, data, |source|);
    DecodedPrefix(FromUrl, source, maxlen);
    return buffer[..len];
  }

  /** Decoding undoes both ways of encoding. */
  method UrlThereAndBack(source: Text) returns (plain: Text, query: Text)
    ensures plain == source && query == source
  {
    hide Encoded, Decoded;
    var encoded := SUrlEncode(source);
    plain := SUrlDecode(encoded);
    RoundTrip(ForUrl, source);
    var escaped := UrlQueryEscape(source);
    query := SUrlDecode(escaped);
    RoundTrip(ForQuery, source);
  }

  /** A text that is cut by the first buffer and decoded in place comes back as the longest prefix whose code fits. */
  method CutThereAndBack(buffer: array<Char>, source: array<Char>) returns (n: nat)
    requires buffer != source && buffer.Length > 0
    modifies buffer
    ensures n == Longest(ForXml, source[..], buffer.Length - 1) && n < buffer.Length
    ensures buffer[..n] == source[..n] && buffer[n] == NUL
  {
    ghost var src := source[..];
    assert source[..source.Length] == src;
    hide Encoded, Decoded;
    var len := XmlEncode(buffer, buffer.Length, source, source.Length);
    ghost var prefix := src[..Longest(ForXml, src, buffer.Length - 1)];
    RoundTrip(ForXml, prefix);
    DecodedPrefix(FromXml, buffer[..len], buffer.Length);
    n := XmlDecode(buffer, buffer.Length, buffer, len);
  }
}

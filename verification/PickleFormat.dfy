/**
 The byte layout of a Pickle (src/base3/pickle.cc, src/base3/pickle.h).

 Chunks lie at four-byte boundaries, typed values are one or two chunks, and the
 reader is a function that is total on arbitrary bytes.
 */
module PickleFormat {
  import opened Words

  type Bytes = seq<byte>

  const INT_MAX := 0x7fff_ffff

  // ----- Alignment -----

  /** AlignInt of the source, with its two remainders. */
  function AlignInt(i: nat, alignment: nat): nat
    requires alignment > 0
  {
    i + (alignment - i % alignment) % alignment
  }

  /** The two alignments in use round up to the next multiple. */
  lemma AlignIntRoundsUp(i: nat)
    ensures AlignInt(i, 4) % 4 == 0 && i <= AlignInt(i, 4) < i + 4
    ensures AlignInt(i, 64) % 64 == 0 && i <= AlignInt(i, 64) < i + 64
  {
    var q, r := i / 64, i % 64;
    assert AlignInt(i, 64) == if r == 0 then 64 * q else 64 * (q + 1);
    assert 64 * q % 64 == 0 && 64 * (q + 1) % 64 == 0;
  }

  function Align4(i: nat): (a: nat)
    ensures a % 4 == 0 && i <= a < i + 4
  {
    AlignInt(i, 4)
  }

  /** Rounding up stays below any multiple of four that is large enough. */
  lemma AlignWithin(i: nat, m: nat)
    requires i <= m && m % 4 == 0
    ensures Align4(i) <= m
  {
  }

  lemma AlignFixed(i: nat)
    requires i % 4 == 0
    ensures Align4(i) == i
  {
  }

  // ----- Values -----

  type int32 = x: int | -0x8000_0000 <= x <= INT_MAX
  type int64 = x: int | -0x8000_0000_0000_0000 <= x < 0x8000_0000_0000_0000
  type u64 = x: int | 0 <= x < 0x1_0000_0000_0000_0000

  function EncodeU32(w: u32): (b: Bytes)
    ensures |b| == 4
  {
    ToLittle(w)
  }

  function EncodeInt(i: int32): (b: Bytes)
    ensures |b| == 4
  {
    ToLittle(if i < 0 then i + WIDTH else i)
  }

  function DecodeInt(b: Bytes): (i: int32)
    requires |b| == 4
  {
    var w: int := FromLittle(b);
    if w <= INT_MAX then w else w - WIDTH
  }

  lemma IntRoundTrip(i: int32)
    ensures DecodeInt(EncodeInt(i)) == i
  {
  }

  function EncodeU64(w: u64): (b: Bytes)
    ensures |b| == 8
  {
    ToLittle(w % WIDTH) + ToLittle(w / WIDTH)
  }

  function DecodeU64(b: Bytes): (w: u64)
    requires |b| == 8
  {
    var low: int, high: int := FromLittle(b[..4]), FromLittle(b[4..]);
    low + WIDTH * high
  }

  lemma U64RoundTrip(w: u64)
    ensures DecodeU64(EncodeU64(w)) == w
  {
    assert EncodeU64(w)[..4] == ToLittle(w % WIDTH) && EncodeU64(w)[4..] == ToLittle(w / WIDTH);
  }

  function EncodeInt64(i: int64): (b: Bytes)
    ensures |b| == 8
  {
    EncodeU64(if i < 0 then i + WIDTH * WIDTH else i)
  }

  function DecodeInt64(b: Bytes): (i: int64)
    requires |b| == 8
  {
    var w: int := DecodeU64(b);
    if w < 0x8000_0000_0000_0000 then w else w - WIDTH * WIDTH
  }

  lemma Int64RoundTrip(i: int64)
    ensures DecodeInt64(EncodeInt64(i)) == i
  {
    U64RoundTrip(if i < 0 then i + WIDTH * WIDTH else i);
  }

  /** A string of four-byte characters. */
  function EncodeWide(s: seq<u32>): (b: Bytes)
    ensures |b| == 4 * |s|
  {
    if s == [] then [] else EncodeU32(s[0]) + EncodeWide(s[1..])
  }

  function DecodeWide(b: Bytes): (s: seq<u32>)
    requires |b| % 4 == 0
    ensures 4 * |s| == |b|
  {
    if b == [] then [] else [FromLittle(b[..4])] + DecodeWide(b[4..])
  }

  lemma {:induction false} WideRoundTrip(s: seq<u32>)
    ensures DecodeWide(EncodeWide(s)) == s
  {
    if s != [] {
      assert EncodeWide(s)[..4] == EncodeU32(s[0]) && EncodeWide(s)[4..] == EncodeWide(s[1..]);
      WideRoundTrip(s[1..]);
    }
  }

  datatype Value =
    | Bool(b: bool)
    | Int(i: int32)
    | Long(l: int64)
    | Size(z: u64)
    | UInt32(u: u32)
    | Int64(q: int64)
    | UInt64(uq: u64)
    | Str(s: Bytes)
    | WStr(w: seq<u32>)
    | Data(d: Bytes)
    | Raw(r: Bytes)

  /** What the reader has to know about a value: its type, and the length of raw bytes. */
  datatype Kind = KBool | KInt | KLong | KSize | KUInt32 | KInt64 | KUInt64 | KStr | KWStr | KData | KRaw(n: nat)

  function KindOf(v: Value): Kind {
    match v
    case Bool(_) => KBool
    case Int(_) => KInt
    case Long(_) => KLong
    case Size(_) => KSize
    case UInt32(_) => KUInt32
    case Int64(_) => KInt64
    case UInt64(_) => KUInt64
    case Str(_) => KStr
    case WStr(_) => KWStr
    case Data(_) => KData
    case Raw(r) => KRaw(|r|)
  }

  /** Lengths travel as an int. */
  predicate Fits(v: Value) {
    match v
    case Str(s) => |s| <= INT_MAX
    case WStr(w) => 4 * |w| <= INT_MAX
    case Data(d) => |d| <= INT_MAX
    case Raw(r) => |r| <= INT_MAX
    case _ => true
  }

  function Chunks(v: Value): seq<Bytes>
    requires Fits(v)
  {
    match v
    case Bool(b) => [EncodeInt(if b then 1 else 0)]
    case Int(i) => [EncodeInt(i)]
    case Long(l) => [EncodeInt64(l)]
    case Size(z) => [EncodeU64(z)]
    case UInt32(u) => [EncodeU32(u)]
    case Int64(q) => [EncodeInt64(q)]
    case UInt64(uq) => [EncodeU64(uq)]
    case Str(s) => [EncodeInt(|s|), s]
    case WStr(w) => [EncodeInt(|w|), EncodeWide(w)]
    case Data(d) => [EncodeInt(|d|), d]
    case Raw(r) => [r]
  }

  function AllChunks(vs: seq<Value>): seq<Bytes>
    requires forall v :: v in vs ==> Fits(v)
  {
    if vs == [] then [] else Chunks(vs[0]) + AllChunks(vs[1..])
  }

  // ----- The layout of chunks -----

  /** Where chunk n starts, counted from the beginning of the payload. */
  function Start(chunks: seq<Bytes>, n: nat): (at: nat)
    requires n <= |chunks|
    ensures at % 4 == 0
  {
    if n == 0 then 0 else
      SumOfFours(Start(chunks, n - 1), Align4(|chunks[n - 1]|));
      Start(chunks, n - 1) + Align4(|chunks[n - 1]|)
  }

  lemma SumOfFours(a: nat, b: nat)
    requires a % 4 == 0 && b % 4 == 0
    ensures (a + b) % 4 == 0
  {
  }

  /** The payload ends with its last chunk, unpadded. */
  function End(chunks: seq<Bytes>): nat {
    if chunks == [] then 0 else Start(chunks, |chunks| - 1) + |chunks[|chunks| - 1]|
  }

  ghost predicate At(p: Bytes, at: nat, chunk: Bytes) {
    at + |chunk| <= |p| && p[at..at + |chunk|] == chunk
  }

  /** The payload holds the chunks in order; what lies between them is arbitrary. */
  ghost predicate Laid(p: Bytes, chunks: seq<Bytes>) {
    |p| == End(chunks) && forall n :: 0 <= n < |chunks| ==> At(p, Start(chunks, n), chunks[n])
  }

  lemma {:induction false} StartAppend(a: seq<Bytes>, b: seq<Bytes>, n: nat)
    requires n <= |a|
    ensures Start(a + b, n) == Start(a, n)
  {
    if n > 0 {
      StartAppend(a, b, n - 1);
    }
  }

  lemma EndAligned(chunks: seq<Bytes>)
    ensures Align4(End(chunks)) == Start(chunks, |chunks|)
  {
    hide AlignInt, Align4;
    if chunks == [] {
      AlignFixed(0);
    }
    if chunks != [] {
      AlignSum(Start(chunks, |chunks| - 1), |chunks[|chunks| - 1]|);
    }
  }

  lemma AlignSum(a: nat, i: nat)
    requires a % 4 == 0
    ensures Align4(a + i) == a + Align4(i)
  {
  }

  /** Appending at the aligned end extends the layout, whatever fills the gap. */
  lemma LaidAppend(p: Bytes, p': Bytes, chunks: seq<Bytes>, chunk: Bytes)
    requires Laid(p, chunks)
    requires |p'| == Align4(|p|) + |chunk| && p'[..|p|] == p && p'[Align4(|p|)..] == chunk
    ensures Laid(p', chunks + [chunk])
  {
    hide Align4, Start;
    EndAligned(chunks);
    var all := chunks + [chunk];
    StartAppend(chunks, [chunk], |chunks|);
    forall n | 0 <= n < |all|
      ensures At(p', Start(all, n), all[n])
    {
      if n < |chunks| {
        StartAppend(chunks, [chunk], n);
        assert At(p, Start(chunks, n), chunks[n]);
        assert p'[..|p|][Start(chunks, n)..Start(chunks, n) + |chunks[n]|] == chunks[n];
      }
    }
  }

  /** Only n bytes are left behind the word at some offset, and that word is rewritten. */
  ghost predicate Trimmed(p: Bytes, p': Bytes, at: nat, word: Bytes, n: int) {
    && 0 <= n && at + 4 + n == |p'| <= |p| && |word| == 4
    && p'[..at] == p[..at] && p'[at..at + 4] == word && p'[at + 4..] == p[at + 4..at + 4 + n]
  }

  lemma TrimmedChunk(p: Bytes, p': Bytes, chunks: seq<Bytes>, old': Bytes, new': Bytes, chunk: Bytes, n: nat, k: nat)
    requires |old'| == 4 && n <= |chunk| && Laid(p, chunks + [old', chunk])
    requires Trimmed(p, p', Start(chunks, |chunks|), new', n)
    requires k < |chunks| + 2
    ensures At(p', Start(chunks + [new', chunk[..n]], k), (chunks + [new', chunk[..n]])[k])
  {
    hide Align4, Start;
    var was, at := chunks + [old', chunk], Start(chunks, |chunks|);
    assert At(p, Start(was, k), was[k]);
    SecondLast(chunks, old', chunk);
    SecondLast(chunks, new', chunk[..n]);
    if k < |chunks| {
      FrontKept(p, p', chunks, [old', chunk], [new', chunk[..n]], k);
    } else if k == |chunks| + 1 {
      assert p[at + 4..at + 4 + n] == p[at + 4..at + 4 + |chunk|][..n];
    }
  }

  /** Shrinking the last chunk and rewriting the length in front of it keeps the layout. */
  lemma LaidTrim(p: Bytes, p': Bytes, chunks: seq<Bytes>, old': Bytes, new': Bytes, chunk: Bytes, n: nat)
    requires |old'| == 4 && n <= |chunk| && Laid(p, chunks + [old', chunk])
    requires Trimmed(p, p', Start(chunks, |chunks|), new', n)
    ensures Laid(p', chunks + [new', chunk[..n]])
  {
    hide Start, At;
    var now := chunks + [new', chunk[..n]];
    SecondLast(chunks, new', chunk[..n]);
    forall k | 0 <= k < |now|
      ensures At(p', Start(now, k), now[k])
    {
      TrimmedChunk(p, p', chunks, old', new', chunk, n, k);
    }
  }

  lemma FrontKept(p: Bytes, p': Bytes, chunks: seq<Bytes>, a: seq<Bytes>, b: seq<Bytes>, k: nat)
    requires k < |chunks| && At(p, Start(chunks + a, k), chunks[k])
    requires var at := Start(chunks, |chunks|); at <= |p| && at <= |p'| && p'[..at] == p[..at]
    ensures At(p', Start(chunks + b, k), chunks[k])
  {
    hide Align4, Start;
    StartAppend(chunks, a, k);
    StartAppend(chunks, b, k);
    StartGrows(chunks, k);
    KeptBelow(p, p', Start(chunks, |chunks|), Start(chunks, k), chunks[k]);
  }

  lemma KeptBelow(p: Bytes, p': Bytes, limit: nat, at: nat, chunk: Bytes)
    requires limit <= |p| && limit <= |p'| && p'[..limit] == p[..limit] && at + |chunk| <= limit
    ensures At(p, at, chunk) ==> At(p', at, chunk)
  {
    assert p'[at..at + |chunk|] == p'[..limit][at..at + |chunk|] == p[at..at + |chunk|];
  }

  lemma SecondLast(chunks: seq<Bytes>, word: Bytes, chunk: Bytes)
    requires |word| == 4
    ensures var all := chunks + [word, chunk];
            Start(all, |chunks|) == Start(chunks, |chunks|) && Start(all, |chunks| + 1) == Start(chunks, |chunks|) + 4
  {
    StartAppend(chunks, [word, chunk], |chunks|);
  }

  lemma {:induction false} StartGrows(chunks: seq<Bytes>, n: nat)
    requires n < |chunks|
    ensures Start(chunks, n) + |chunks[n]| <= Start(chunks, n + 1) <= Start(chunks, |chunks|)
    decreases |chunks| - n
  {
    if n + 1 < |chunks| {
      StartGrows(chunks, n + 1);
    }
  }

  // ----- The reader -----

  datatype Option<T> = None | Some(value: T)

  /** The bytes a pickle shows to its reader; a rejected one has a null header. */
  datatype View = Rejected | View(bytes: Bytes, headerSize: nat)

  predicate Sound(v: View) {
    v.View? ==> v.headerSize % 4 == 0 && 4 <= v.headerSize <= |v.bytes|
  }

  /** An iterator: null before the first read, else an offset from the header. */
  datatype Iter = Null | Pos(at: int)

  datatype Read<T> = Read(iter: Iter, result: Option<T>)

  function Begin(v: View, iter: Iter): Iter {
    if iter.Null? && v.View? then Pos(v.headerSize) else iter
  }

  /** IteratorHasRoomFor; null is both the start and the end of a rejected pickle. */
  predicate HasRoom(v: View, iter: Iter, len: int) {
    match (v, iter)
    case (View(bytes, _), Pos(at)) => len >= 0 && 0 <= at && at + len <= |bytes|
    case (Rejected, Null) => len == 0
    case _ => false
  }

  function Update(iter: Iter, len: nat): Iter {
    if iter.Null? then iter else Pos(iter.at + Align4(len))
  }

  function Slice(v: View, iter: Iter, len: int): (b: Bytes)
    requires HasRoom(v, iter, len)
    ensures |b| == len
  {
    if v.View? then v.bytes[iter.at..iter.at + len] else []
  }

  function ReadBytes(v: View, iter: Iter, len: int): (r: Read<Bytes>)
    ensures r.result.Some? ==> |r.result.value| == len
  {
    var it := Begin(v, iter);
    if HasRoom(v, it, len) then Read(Update(it, len), Some(Slice(v, it, len))) else Read(it, None)
  }

  function ReadInt(v: View, iter: Iter): Read<int32> {
    var r := ReadBytes(v, iter, 4);
    Read(r.iter, if r.result.Some? then Some(DecodeInt(r.result.value)) else None)
  }

  function ReadLength(v: View, iter: Iter): (r: Read<int32>)
    ensures r.result.Some? ==> r.result.value >= 0
  {
    var r := ReadInt(v, iter);
    if r.result.Some? && r.result.value >= 0 then r else Read(r.iter, None)
  }

  /** A length and that many units of the given width. */
  function ReadCounted(v: View, iter: Iter, width: nat): (r: Read<Bytes>)
    requires width == 1 || width == 4
    ensures r.result.Some? ==> |r.result.value| % width == 0
  {
    var n := ReadLength(v, iter);
    if n.result.None? || n.result.value > INT_MAX / width then Read(n.iter, None)
    else
      var r := ReadBytes(v, n.iter, n.result.value * width);
      r
  }

  function ReadValue(v: View, iter: Iter, kind: Kind): Read<Value> {
    match kind
    case KBool =>
      var r := ReadInt(v, iter);
      Read(r.iter, if r.result.Some? then Some(Bool(r.result.value != 0)) else None)
    case KInt =>
      var r := ReadInt(v, iter);
      Read(r.iter, if r.result.Some? then Some(Int(r.result.value)) else None)
    case KLong =>
      var r := ReadBytes(v, iter, 8);
      Read(r.iter, if r.result.Some? then Some(Long(DecodeInt64(r.result.value))) else None)
    case KSize =>
      var r := ReadBytes(v, iter, 8);
      Read(r.iter, if r.result.Some? then Some(Size(DecodeU64(r.result.value))) else None)
    case KUInt32 =>
      var r := ReadBytes(v, iter, 4);
      Read(r.iter, if r.result.Some? then Some(UInt32(FromLittle(r.result.value))) else None)
    case KInt64 =>
      var r := ReadBytes(v, iter, 8);
      Read(r.iter, if r.result.Some? then Some(Int64(DecodeInt64(r.result.value))) else None)
    case KUInt64 =>
      var r := ReadBytes(v, iter, 8);
      Read(r.iter, if r.result.Some? then Some(UInt64(DecodeU64(r.result.value))) else None)
    case KStr =>
      var r := ReadCounted(v, iter, 1);
      Read(r.iter, if r.result.Some? then Some(Str(r.result.value)) else None)
    case KWStr =>
      var r := ReadCounted(v, iter, 4);
      Read(r.iter, if r.result.Some? then Some(WStr(DecodeWide(r.result.value))) else None)
    case KData =>
      var r := ReadCounted(v, iter, 1);
      Read(r.iter, if r.result.Some? then Some(Data(r.result.value)) else None)
    case KRaw(n) =>
      var r := ReadBytes(v, iter, n);
      Read(r.iter, if r.result.Some? then Some(Raw(r.result.value)) else None)
  }

  /** Read values of the given kinds until one fails. */
  function ReadAll(v: View, iter: Iter, kinds: seq<Kind>): Read<seq<Value>>
    decreases |kinds|
  {
    if kinds == [] then Read(iter, Some([]))
    else
      var first := ReadValue(v, iter, kinds[0]);
      if first.result.None? then Read(first.iter, None)
      else
        var rest := ReadAll(v, first.iter, kinds[1..]);
        Read(rest.iter, if rest.result.Some? then Some([first.result.value] + rest.result.value) else None)
  }

  // ----- Reading back what was written -----

  ghost predicate Shows(v: View, chunks: seq<Bytes>) {
    v.View? && v.headerSize <= |v.bytes| && Laid(v.bytes[v.headerSize..], chunks)
  }

  /** The iterator in front of chunk n. */
  ghost predicate InFront(v: View, iter: Iter, chunks: seq<Bytes>, n: nat)
    requires v.View? && n <= |chunks|
  {
    Begin(v, iter) == Pos(v.headerSize + Start(chunks, n))
  }

  lemma ReadChunk(v: View, iter: Iter, chunks: seq<Bytes>, n: nat)
    requires Shows(v, chunks) && n < |chunks| && InFront(v, iter, chunks, n)
    ensures var r := ReadBytes(v, iter, |chunks[n]|);
            r.result == Some(chunks[n]) && r.iter.Pos? && InFront(v, r.iter, chunks, n + 1)
  {
    hide AlignInt, Align4, Laid;
    ShowsAt(v, chunks, n);
  }

  lemma ShowsAt(v: View, chunks: seq<Bytes>, n: nat)
    requires Shows(v, chunks) && n < |chunks|
    ensures At(v.bytes, v.headerSize + Start(chunks, n), chunks[n])
  {
    hide Start;
    var at := Start(chunks, n);
    assert At(v.bytes[v.headerSize..], at, chunks[n]);
    assert v.bytes[v.headerSize + at..v.headerSize + at + |chunks[n]|] == v.bytes[v.headerSize..][at..at + |chunks[n]|];
  }

  lemma ReadOneChunk(v: View, iter: Iter, chunks: seq<Bytes>, n: nat, value: Value)
    requires Shows(v, chunks) && n <= |chunks| && InFront(v, iter, chunks, n) && Fits(value)
    requires n < |chunks| && Chunks(value) == [chunks[n]]
    ensures var r := ReadValue(v, iter, KindOf(value));
            r.result == Some(value) && r.iter.Pos? && InFront(v, r.iter, chunks, n + 1)
  {
    hide ReadBytes, EncodeInt, DecodeInt, EncodeU64, DecodeU64, EncodeInt64, DecodeInt64, Start, Laid;
    ReadChunk(v, iter, chunks, n);
    match value
    case Bool(b) => IntRoundTrip(if b then 1 else 0);
    case Int(i) => IntRoundTrip(i);
    case Long(l) => Int64RoundTrip(l);
    case Size(z) => U64RoundTrip(z);
    case UInt32(u) =>
    case Int64(q) => Int64RoundTrip(q);
    case UInt64(uq) => U64RoundTrip(uq);
    case Raw(r) =>
  }

  lemma ReadTwoChunks(v: View, iter: Iter, chunks: seq<Bytes>, n: nat, length: int32, width: nat)
    requires Shows(v, chunks) && n <= |chunks| && InFront(v, iter, chunks, n)
    requires width == 1 || width == 4
    requires n + 1 < |chunks| && chunks[n] == EncodeInt(length) && 0 <= length <= INT_MAX / width
    requires |chunks[n + 1]| == length * width
    ensures var r := ReadCounted(v, iter, width);
            r.result == Some(chunks[n + 1]) && r.iter.Pos? && InFront(v, r.iter, chunks, n + 2)
  {
    hide ReadBytes, EncodeInt, DecodeInt, Start, Laid;
    ReadChunk(v, iter, chunks, n);
    IntRoundTrip(length);
    ReadChunk(v, ReadBytes(v, iter, 4).iter, chunks, n + 1);
  }

  lemma ReadBack(v: View, iter: Iter, chunks: seq<Bytes>, n: nat, value: Value)
    requires Shows(v, chunks) && n <= |chunks| && InFront(v, iter, chunks, n) && Fits(value)
    requires n + |Chunks(value)| <= |chunks| && chunks[n..n + |Chunks(value)|] == Chunks(value)
    ensures var r := ReadValue(v, iter, KindOf(value));
            r.result == Some(value) && r.iter.Pos? && InFront(v, r.iter, chunks, n + |Chunks(value)|)
  {
    hide ReadBytes, ReadCounted, ReadInt, EncodeInt, DecodeInt, EncodeU64, DecodeU64, EncodeInt64, DecodeInt64, Start, Laid;
    var mine := chunks[n..n + |Chunks(value)|];
    assert mine[0] == chunks[n] && (|mine| == 2 ==> mine[1] == chunks[n + 1]);
    match value
    case Str(s) => ReadTwoChunks(v, iter, chunks, n, |s|, 1);
    case WStr(w) =>
      ReadTwoChunks(v, iter, chunks, n, |w|, 4);
      WideRoundTrip(w);
    case Data(d) => ReadTwoChunks(v, iter, chunks, n, |d|, 1);
    case _ => ReadOneChunk(v, iter, chunks, n, value);
  }

  function KindsOf(vs: seq<Value>): seq<Kind> {
    seq(|vs|, i requires 0 <= i < |vs| => KindOf(vs[i]))
  }

  lemma {:induction false} ReadAllBack(v: View, iter: Iter, chunks: seq<Bytes>, n: nat, vs: seq<Value>)
    requires Shows(v, chunks) && n <= |chunks| && InFront(v, iter, chunks, n)
    requires (forall x :: x in vs ==> Fits(x)) && chunks[n..] == AllChunks(vs)
    ensures var r := ReadAll(v, iter, KindsOf(vs));
            r.result == Some(vs) && InFront(v, r.iter, chunks, |chunks|)
    decreases |vs|
  {
    hide ReadValue, Start, Shows, InFront, Chunks, Fits;
    if vs != [] {
      var m := |Chunks(vs[0])|;
      assert chunks[n..][..m] == Chunks(vs[0]) && chunks[n..][m..] == AllChunks(vs[1..]);
      assert chunks[n..n + m] == chunks[n..][..m] && chunks[n + m..] == chunks[n..][m..];
      ReadBack(v, iter, chunks, n, vs[0]);
      assert KindsOf(vs)[1..] == KindsOf(vs[1..]);
      ReadAllBack(v, ReadValue(v, iter, KindOf(vs[0])).iter, chunks, n + m, vs[1..]);
      assert [vs[0]] + vs[1..] == vs;
    }
  }

  /** Reading the kinds that were written gives the values back, and then nothing more. */
  lemma RoundTrip(v: View, vs: seq<Value>)
    requires (forall x :: x in vs ==> Fits(x)) && Shows(v, AllChunks(vs))
    ensures var r := ReadAll(v, Null, KindsOf(vs));
            r.result == Some(vs) && ReadInt(v, r.iter).result == None
  {
    var chunks := AllChunks(vs);
    assert chunks[0..] == chunks;
    ReadAllBack(v, Null, chunks, 0, vs);
    EndAligned(chunks);
  }

  // ----- Reading arbitrary bytes -----

  predicate InPayload(v: View, iter: Iter) {
    v.View? && iter.Pos? ==> iter.at >= v.headerSize
  }

  predicate PayloadPart(v: View, at: int, b: Bytes) {
    v.View? && v.headerSize <= at && at + |b| <= |v.bytes| && v.bytes[at..at + |b|] == b
  }

  /** A read that succeeds returns a part of the payload, and no read leaves it to the left. */
  lemma ReadsStayInPayload(v: View, iter: Iter, len: int)
    requires Sound(v) && InPayload(v, iter)
    ensures var r := ReadBytes(v, iter, len);
            && InPayload(v, r.iter)
            && (v.View? && r.result.Some? ==> exists at :: PayloadPart(v, at, r.result.value))
            && (v.Rejected? && r.result.Some? ==> r.result.value == [])
  {
    var it := Begin(v, iter);
    if v.View? && HasRoom(v, it, len) {
      assert PayloadPart(v, it.at, Slice(v, it, len));
    }
  }

  /** A pickle that was rejected yields no value at all. */
  lemma RejectedYieldsNothing(iter: Iter, kind: Kind)
    requires kind != KRaw(0)
    ensures ReadValue(Rejected, iter, kind).result == None
  {
  }
}
